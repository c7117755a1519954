/** The customer classifier of the helpers: `getCustomerTier` and
    `generateCustomerStats`. Both read the MD5 digest of the formatted
    phone as hexadecimal; the digest itself is computed outside the model,
    which starts from its first 32 bits (`parseInt(hash.substring(0, 8), 16)`).
    The tier reads the first two hex digits, i.e. the top byte of those
    32 bits. */
module Customer {
  import opened Common

  datatype Tier = Bronze | Silver | Gold | Platinum

  /** The first eight hex digits of the digest, as an unsigned number. */
  type Seed = s: int | 0 <= s < 0x1_0000_0000

  type Byte = b: int | 0 <= b < 256

  /** The loyalty order bronze < silver < gold < platinum. */
  function Rank(t: Tier): nat {
    match t
    case Bronze => 0
    case Silver => 1
    case Gold => 2
    case Platinum => 3
  }

  /** The key the offer catalog and the tier table use for a tier. */
  function TierName(t: Tier): string {
    match t
    case Bronze => "bronze"
    case Silver => "silver"
    case Gold => "gold"
    case Platinum => "platinum"
  }

  /** The band of leading bytes each tier owns, [low, high). */
  function BandLow(t: Tier): int {
    64 * Rank(t)
  }

  function BandHigh(t: Tier): int {
    64 * Rank(t) + 64
  }

  /** `getCustomerTier`, from the leading byte of the digest. */
  function TierOfByte(b: Byte): (t: Tier)
    ensures BandLow(t) <= b < BandHigh(t)
  {
    if b < 64 then Bronze
    else if b < 128 then Silver
    else if b < 192 then Gold
    else Platinum
  }

  function LeadingByte(seed: Seed): Byte {
    seed / 0x100_0000
  }

  function TierOfSeed(seed: Seed): Tier {
    TierOfByte(LeadingByte(seed))
  }

  /** The four bands partition [0, 256): every byte lies in the band of
      exactly one tier, and that tier is the one the classifier returns. */
  lemma TierBandsPartition(b: Byte, t: Tier)
    ensures TierOfByte(b) == t <==> BandLow(t) <= b < BandHigh(t)
  {
  }

  /** A larger leading byte never gives a lower tier. */
  lemma TierMonotone(b1: Byte, b2: Byte)
    requires b1 <= b2
    ensures Rank(TierOfByte(b1)) <= Rank(TierOfByte(b2))
  {
  }

  datatype Stats = Stats(totalOrders: int, totalSpent: int, averageOrderValue: int)

  /** `(seed % 1000) / 1000`, the pseudo-random fraction in [0, 1). */
  function Fraction(seed: Seed): (r: real)
    ensures 0.0 <= r <= 0.999
  {
    (seed % 1000) as real / 1000.0
  }

  /** The `switch (tier)` of `generateCustomerStats`: the order count and
      the spend per order, for a tier and a fraction r. */
  function TierFormula(t: Tier, r: real): (f: (int, real))
    requires 0.0 <= r <= 0.999
    ensures OrdersLow(t) <= f.0 <= OrdersHigh(t)
    ensures AverageLow(t) as real <= f.1 < AverageHigh(t) as real + 0.5
  {
    match t
    case Bronze => (1 + (r * 5.0).Floor, 25.0 + r * 35.0)
    case Silver => (5 + (r * 15.0).Floor, 35.0 + r * 45.0)
    case Gold => (15 + (r * 25.0).Floor, 45.0 + r * 55.0)
    case Platinum => (30 + (r * 50.0).Floor, 55.0 + r * 75.0)
  }

  /** `generateCustomerStats`: per tier, an order count and a spend per
      order that both grow with the fraction; the tier is the phone's own.
      The total is rounded from count times rate, the average from the
      unrounded total divided by the count, i.e. it is the rate rounded. */
  function StatsOfSeed(seed: Seed): (s: Stats)
    ensures var f := TierFormula(TierOfSeed(seed), Fraction(seed));
      && s.totalOrders == f.0
      && s.totalSpent == JsRound(f.0 as real * f.1)
      && s.averageOrderValue == JsRound(f.1)
    ensures s.totalOrders >= 1 && s.totalSpent >= 0
    ensures OrdersLow(TierOfSeed(seed)) <= s.totalOrders <= OrdersHigh(TierOfSeed(seed))
    ensures AverageLow(TierOfSeed(seed)) <= s.averageOrderValue <= AverageHigh(TierOfSeed(seed))
    ensures var rate := TierFormula(TierOfSeed(seed), Fraction(seed)).1;
            s.averageOrderValue as real - 0.5 <= rate < s.averageOrderValue as real + 0.5
  {
    var (baseOrders, rate) := TierFormula(TierOfSeed(seed), Fraction(seed));
    var baseSpent := baseOrders as real * rate;
    DivideBack(baseOrders, rate);
    var total := JsRound(baseSpent);
    var avg := JsRound(baseSpent / baseOrders as real);
    assert total >= 0 by {
      ScaleBelow(baseOrders as real, 0.0, rate);
    }
    Stats(baseOrders, total, avg)
  }

  /** The three figures hang together: the total spend differs from the
      order count times the average order value by less than half a unit
      per order, plus half a unit for the rounding of the total. */
  lemma SpentNearOrdersTimesAverage(seed: Seed)
    ensures var s := StatsOfSeed(seed);
      var gap := (s.totalSpent - s.totalOrders * s.averageOrderValue) as real;
      -(s.totalOrders + 1) as real < 2.0 * gap < (s.totalOrders + 1) as real
  {
    var s := StatsOfSeed(seed);
    var f := TierFormula(TierOfSeed(seed), Fraction(seed));
    RoundingGap(f.0, f.1, s.totalSpent, s.averageOrderValue);
  }

  /** The arithmetic behind it: a count times a rate rounded, against the
      count times the rate rounded. */
  lemma RoundingGap(n: int, rate: real, spent: int, avg: int)
    requires n >= 1
    requires n as real * rate - 0.5 < spent as real <= n as real * rate + 0.5
    requires avg as real - 0.5 <= rate < avg as real + 0.5
    ensures -(n + 1) as real < 2.0 * (spent - n * avg) as real < (n + 1) as real
  {
    var k := n as real;
    var a := avg as real;
    ScaleBelow(k, a - 0.5, rate);
    ScaleBelow(k, rate, a + 0.5);
    assert k * (a - 0.5) == k * a - k * 0.5;
    assert k * (a + 0.5) == k * a + k * 0.5;
    assert (n * avg) as real == k * a;
  }

  lemma ScaleBelow(k: real, x: real, y: real)
    requires k >= 0.0 && x <= y
    ensures k * x <= k * y
  {
    assert k * y - k * x == k * (y - x);
  }

  lemma DivideBack(n: int, rate: real)
    requires n >= 1
    ensures (n as real * rate) / n as real == rate
  {
  }

  /** The range of order counts each tier's formula can produce. */
  function OrdersLow(t: Tier): int {
    match t
    case Bronze => 1
    case Silver => 5
    case Gold => 15
    case Platinum => 30
  }

  function OrdersHigh(t: Tier): int {
    match t
    case Bronze => 5
    case Silver => 19
    case Gold => 39
    case Platinum => 79
  }

  /** The range of rounded spend per order each tier can produce. */
  function AverageLow(t: Tier): int {
    match t
    case Bronze => 25
    case Silver => 35
    case Gold => 45
    case Platinum => 55
  }

  function AverageHigh(t: Tier): int {
    match t
    case Bronze => 60
    case Silver => 80
    case Gold => 100
    case Platinum => 130
  }

  /** The average order value is rounded from the UNROUNDED spend, so it
      is not always `round(totalSpent / totalOrders)`: a bronze phone whose
      seed is 210 has 2 orders and 64.7 spent, reported as 65 in total but
      32 on average, while 65 / 2 = 32.5 would round to 33. */
  lemma AverageNotFromRoundedTotal()
    ensures StatsOfSeed(210) == Stats(2, 65, 32)
    ensures JsRound(65.0 / 2.0) == 33
  {
    assert TierOfSeed(210) == Bronze;
    assert Fraction(210) == 0.21;
    assert (0.21 * 5.0).Floor == 1;
    assert (2.0 * (25.0 + 0.21 * 35.0) + 0.5).Floor == 65;
    assert (2.0 * (25.0 + 0.21 * 35.0) / 2.0 + 0.5).Floor == 32;
  }

  /** Where the exact reals part from JavaScript's doubles: a platinum
      phone whose seed is 3221225580 (leading byte 192, residue 580) has
      0.58 * 50 = 29 exactly, so 59 orders at 98.5 each, 5811.5 spent
      (reported as 5812) and an average of 99. In doubles the product
      0.58 * 50 falls just short of 29, which gives one order fewer. */
  lemma ExactRealsAtResidue580()
    ensures TierOfSeed(3221225580) == Platinum
    ensures (0.58 * 50.0).Floor == 29
    ensures StatsOfSeed(3221225580) == Stats(59, 5812, 99)
  {
    assert LeadingByte(3221225580) == 192;
    assert Fraction(3221225580) == 0.58;
    assert (59.0 * (55.0 + 0.58 * 75.0) + 0.5).Floor == 5812;
    assert (59.0 * (55.0 + 0.58 * 75.0) / 59.0 + 0.5).Floor == 99;
  }
}
