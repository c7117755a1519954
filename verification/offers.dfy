/** The offer engine: the personalised listing `GET /offers/:phone` (an
    eligibility filter, a priority sort and a per-offer annotation), the
    pricing of `POST /offers/apply/:offerId`, and the next-tier shortfall
    of the customer profile. Times are milliseconds, `now` is a parameter. */
module Offers {
  import opened Common
  import Sorting
  import opened Customer

  datatype OfferType = NewCustomer | Combo | Loyalty

  /** The fields of a catalog offer the engine reads; titles, descriptions
      and images are carried along unread and are left out. */
  datatype Offer = Offer(
    id: string,
    discountPercentage: real,
    minOrderAmount: real,
    maxDiscountAmount: real,
    validUntil: int,
    offerType: OfferType,
    isActive: bool,
    customerTiers: seq<Tier>)

  const DayMs: int := 24 * 60 * 60 * 1000

  /** The `active_only` query parameter, 'true' when absent. */
  predicate ActiveOnly(activeOnly: Option<string>) {
    activeOnly.GetOr("true") == "true"
  }

  /** The filter of the listing: not yet expired, open to the customer's
      tier, and active when only active offers are asked for. */
  predicate Eligible(o: Offer, tier: Tier, now: int, activeOnly: bool) {
    now < o.validUntil && tier in o.customerTiers && (activeOnly ==> o.isActive)
  }

  function EligibleFor(tier: Tier, now: int, activeOnly: bool): Offer -> bool {
    (o: Offer) => Eligible(o, tier, now, activeOnly)
  }

  /** The sort comparator is negative: welcome offers go before all other
      offers, and within the same group a larger discount goes first. */
  predicate Precedes(a: Offer, b: Offer) {
    || (a.offerType == NewCustomer && b.offerType != NewCustomer)
    || ((a.offerType == NewCustomer) == (b.offerType == NewCustomer)
        && a.discountPercentage > b.discountPercentage)
  }

  /** The comparator is consistent, so the stable sort is well defined. */
  lemma PrecedesIsStrictWeakOrder()
    ensures Sorting.StrictWeakOrder(Precedes)
  {
  }

  /** An offer with the fields the listing adds to it. */
  datatype PricedOffer = PricedOffer(offer: Offer, daysLeft: int, isExpiringSoon: bool, potentialSavings: real)

  /** The per-offer annotation: whole days left, rounded up; expiring soon
      within three days; what the customer's usual order would save, capped
      by the offer's maximum discount. */
  function Annotate(o: Offer, averageOrderValue: int, now: int): (p: PricedOffer)
    ensures p.offer == o
    ensures (p.daysLeft - 1) * DayMs < o.validUntil - now <= p.daysLeft * DayMs
    ensures now < o.validUntil ==> p.daysLeft >= 1
    ensures p.isExpiringSoon <==> p.daysLeft <= 3
    ensures p.potentialSavings <= o.maxDiscountAmount
    ensures p.potentialSavings == o.maxDiscountAmount
         || p.potentialSavings == averageOrderValue as real * o.discountPercentage / 100.0
  {
    var daysLeft := CeilDiv(o.validUntil - now, DayMs);
    PricedOffer(o, daysLeft, daysLeft <= 3,
      Min(averageOrderValue as real * o.discountPercentage / 100.0, o.maxDiscountAmount))
  }

  function OffersOf(r: seq<PricedOffer>): (s: seq<Offer>)
    ensures |s| == |r| && forall i :: 0 <= i < |r| ==> s[i] == r[i].offer
  {
    seq(|r|, i requires 0 <= i < |r| => r[i].offer)
  }

  /** `customerOffers.map(...)`: one annotated offer per offer, in order. */
  function AnnotateAll(s: seq<Offer>, averageOrderValue: int, now: int): (r: seq<PricedOffer>)
    ensures OffersOf(r) == s
    ensures forall i :: 0 <= i < |r| ==> r[i] == Annotate(s[i], averageOrderValue, now)
  {
    var r := seq(|s|, i requires 0 <= i < |s| => Annotate(s[i], averageOrderValue, now));
    assert OffersOf(r) == s;
    r
  }

  /** Filter, sort, annotate: the offer list of the listing for a customer
      of the given tier and average order value. It holds exactly the
      eligible catalog offers, each as often as in the catalog, in priority
      order, every one with at least a day left. */
  function Pipeline(catalog: seq<Offer>, tier: Tier, averageOrderValue: int, now: int, activeOnly: bool)
    : (r: seq<PricedOffer>)
    ensures multiset(OffersOf(r)) == multiset(Filter(catalog, EligibleFor(tier, now, activeOnly)))
    ensures forall o :: o in OffersOf(r) <==> o in catalog && Eligible(o, tier, now, activeOnly)
    ensures forall i, j :: 0 <= i < j < |r| ==> !Precedes(r[j].offer, r[i].offer)
    ensures forall i :: 0 <= i < |r| ==>
      && r[i] == Annotate(r[i].offer, averageOrderValue, now)
      && r[i].daysLeft >= 1
  {
    var kept := Filter(catalog, EligibleFor(tier, now, activeOnly));
    var sorted := Sorting.Sort(kept, Precedes);
    PrecedesIsStrictWeakOrder();
    Sorting.SortSorted(kept, Precedes);
    SameElements(sorted, kept);
    FilterMembers(catalog, EligibleFor(tier, now, activeOnly));
    var r := AnnotateAll(sorted, averageOrderValue, now);
    assert forall i :: 0 <= i < |r| ==> r[i].daysLeft >= 1 by {
      forall i | 0 <= i < |r| ensures r[i].daysLeft >= 1 {
        assert r[i].offer == sorted[i] && sorted[i] in kept;
        assert Eligible(sorted[i], tier, now, activeOnly);
      }
    }
    r
  }

  lemma SameElements(a: seq<Offer>, b: seq<Offer>)
    requires multiset(a) == multiset(b)
    ensures forall o :: o in a <==> o in b
  {
    forall o ensures o in a <==> o in b {
      assert o in a <==> o in multiset(a);
      assert o in b <==> o in multiset(b);
    }
  }

  /** In the listing every welcome offer comes before every other offer. */
  lemma NewCustomerOffersFirst(catalog: seq<Offer>, tier: Tier, averageOrderValue: int, now: int,
                               activeOnly: bool, i: int, j: int)
    requires var r := Pipeline(catalog, tier, averageOrderValue, now, activeOnly);
      0 <= i < j < |r| && r[j].offer.offerType == NewCustomer
    ensures Pipeline(catalog, tier, averageOrderValue, now, activeOnly)[i].offer.offerType == NewCustomer
  {
    var r := Pipeline(catalog, tier, averageOrderValue, now, activeOnly);
    assert !Precedes(r[j].offer, r[i].offer);
  }

  /** Within the welcome offers, and within the others, the discount never
      increases along the listing. */
  lemma DiscountNonIncreasingInGroup(catalog: seq<Offer>, tier: Tier, averageOrderValue: int, now: int,
                                     activeOnly: bool, i: int, j: int)
    requires var r := Pipeline(catalog, tier, averageOrderValue, now, activeOnly);
      && 0 <= i < j < |r|
      && (r[i].offer.offerType == NewCustomer) == (r[j].offer.offerType == NewCustomer)
    ensures var r := Pipeline(catalog, tier, averageOrderValue, now, activeOnly);
      r[j].offer.discountPercentage <= r[i].offer.discountPercentage
  {
    var r := Pipeline(catalog, tier, averageOrderValue, now, activeOnly);
    assert !Precedes(r[j].offer, r[i].offer);
  }

  /** Offers the comparator ties (same group, same discount) keep their
      catalog order, because the sort is stable. */
  lemma TiesKeepCatalogOrder(catalog: seq<Offer>, tier: Tier, averageOrderValue: int, now: int,
                             activeOnly: bool, c: Offer)
    ensures var r := Pipeline(catalog, tier, averageOrderValue, now, activeOnly);
      Sorting.TiedWith(OffersOf(r), Precedes, c)
        == Sorting.TiedWith(Filter(catalog, EligibleFor(tier, now, activeOnly)), Precedes, c)
  {
    PrecedesIsStrictWeakOrder();
    Sorting.SortStable(Filter(catalog, EligibleFor(tier, now, activeOnly)), Precedes, c);
  }

  /** The profile and offers of the listing. */
  datatype Listing = Listing(
    phone: string,
    tier: Tier,
    stats: Stats,
    nextTierRequirement: Requirement,
    offers: seq<PricedOffer>,
    totalOffers: int)

  /** `GET /offers/:phone`, given the phone as formatted and the digest seed
      of that formatted phone. The tier and the statistics are the phone's
      own, the profile carries that tier's next-tier shortfall, and the
      offers are the pipeline's for that tier and average. */
  function ListOffers(catalog: seq<Offer>, phone: string, seed: Seed, now: int, activeOnly: Option<string>)
    : (l: Listing)
    ensures l.phone == phone
    ensures l.tier == TierOfSeed(seed) && l.stats == StatsOfSeed(seed)
    ensures l.nextTierRequirement == NextTierRequirement(l.tier, l.stats)
    ensures l.offers == Pipeline(catalog, l.tier, l.stats.averageOrderValue, now, ActiveOnly(activeOnly))
    ensures l.totalOffers == |l.offers|
    ensures forall o :: o in OffersOf(l.offers) <==>
      o in catalog && Eligible(o, l.tier, now, ActiveOnly(activeOnly))
    ensures forall i :: 0 <= i < |l.offers| ==>
      l.offers[i].potentialSavings <= l.offers[i].offer.maxDiscountAmount
  {
    var tier := TierOfSeed(seed);
    var stats := StatsOfSeed(seed);
    var offers := Pipeline(catalog, tier, stats.averageOrderValue, now, ActiveOnly(activeOnly));
    Listing(phone, tier, stats, NextTierRequirement(tier, stats), offers, |offers|)
  }

  /** `_getNextTierRequirement`: the next tier and how many orders and how
      much spend are still missing to reach its thresholds. */
  datatype Requirement = Requirement(nextTier: Option<Tier>, ordersNeeded: int, spendingNeeded: int)

  /** The order and spend thresholds the profile measures a tier below
      platinum against; platinum has none. */
  function Threshold(t: Tier): (int, int) {
    match t
    case Bronze => (5, 200)
    case Silver => (15, 500)
    case Gold => (30, 1000)
    case Platinum => (0, 0)
  }

  function NextTier(t: Tier): Option<Tier> {
    match t
    case Bronze => Some(Silver)
    case Silver => Some(Gold)
    case Gold => Some(Platinum)
    case Platinum => None
  }

  /** The requirement table, looked up by the customer's own tier: the
      next tier up, none above platinum. The shortfall is clamped at zero:
      nothing is needed once a threshold is met, and otherwise exactly the
      difference is. */
  function NextTierRequirement(t: Tier, stats: Stats): (r: Requirement)
    ensures r.nextTier.Some? ==> Rank(r.nextTier.value) == Rank(t) + 1
    ensures r.nextTier.None? <==> t == Platinum
    ensures t == Platinum ==> r == Requirement(None, 0, 0)
    ensures r.ordersNeeded >= 0 && r.spendingNeeded >= 0
    ensures t != Platinum ==>
      && (r.ordersNeeded == 0 <==> stats.totalOrders >= Threshold(t).0)
      && (r.ordersNeeded > 0 ==> stats.totalOrders + r.ordersNeeded == Threshold(t).0)
      && (r.spendingNeeded == 0 <==> stats.totalSpent >= Threshold(t).1)
      && (r.spendingNeeded > 0 ==> stats.totalSpent + r.spendingNeeded == Threshold(t).1)
  {
    if t == Platinum then Requirement(None, 0, 0)
    else
      var (orders, spend) := Threshold(t);
      Requirement(NextTier(t), ClampZero(orders - stats.totalOrders), ClampZero(spend - stats.totalSpent))
  }

  /** More orders and more spend never raise what is still missing for the
      next tier, and do not change which tier that is. */
  lemma ShortfallNeverGrows(t: Tier, before: Stats, after: Stats)
    requires before.totalOrders <= after.totalOrders && before.totalSpent <= after.totalSpent
    ensures NextTierRequirement(t, after).nextTier == NextTierRequirement(t, before).nextTier
    ensures NextTierRequirement(t, after).ordersNeeded <= NextTierRequirement(t, before).ordersNeeded
    ensures NextTierRequirement(t, after).spendingNeeded <= NextTierRequirement(t, before).spendingNeeded
  {
  }

  datatype ApplyError = MissingFields | OfferNotFound | OfferExpired | OfferInactive | BelowMinimum(minOrderAmount: real)

  /** The `calculation` block of an applied offer. */
  datatype Pricing = Pricing(offerId: string, originalTotal: real, discountAmount: real, finalTotal: real, savings: real)

  /** JavaScript truthiness of an optional number. */
  predicate TruthyAmount(x: Option<real>) {
    x.Some? && x.value != 0.0
  }

  function HasId(id: string): Offer -> bool {
    (o: Offer) => o.id == id
  }

  /** The unrounded discount: the percentage of the total, capped. */
  function Discount(o: Offer, total: real): (d: real)
    ensures d <= o.maxDiscountAmount
    ensures d <= total * o.discountPercentage / 100.0
    ensures d == o.maxDiscountAmount || d == total * o.discountPercentage / 100.0
  {
    Min(total * o.discountPercentage / 100.0, o.maxDiscountAmount)
  }

  /** `POST /offers/apply/:offerId`. The checks run in a fixed order:
      fields, lookup of the first offer with the id, expiry (the offer is
      dead from `validUntil` on), activity, minimum order. */
  function Apply(catalog: seq<Offer>, offerId: string, phone: Option<string>, orderTotal: Option<real>, now: int)
    : (r: Result<Pricing, ApplyError>)
    ensures r == Err(MissingFields) <==> !Truthy(phone) || !TruthyAmount(orderTotal)
    ensures r == Err(OfferNotFound) <==>
      Truthy(phone) && TruthyAmount(orderTotal) && FindIndex(catalog, HasId(offerId)).None?
    ensures (r.Err? && r.error != MissingFields && r.error != OfferNotFound) || r.Ok? ==>
      && Truthy(phone) && TruthyAmount(orderTotal)
      && FindIndex(catalog, HasId(offerId)).Some?
      && var o := catalog[FindIndex(catalog, HasId(offerId)).value];
         && o.id == offerId
         && (r == Err(OfferExpired) <==> now >= o.validUntil)
         && (r == Err(OfferInactive) <==> now < o.validUntil && !o.isActive)
         && (r.Err? && r.error.BelowMinimum? <==>
               now < o.validUntil && o.isActive && orderTotal.value < o.minOrderAmount)
         && (r.Err? && r.error.BelowMinimum? ==> r.error.minOrderAmount == o.minOrderAmount)
         && (r.Ok? ==>
               && now < o.validUntil && o.isActive && orderTotal.value >= o.minOrderAmount
               && r.value.offerId == offerId
               && r.value.originalTotal == orderTotal.value
               && r.value.discountAmount == RoundCents(Discount(o, orderTotal.value))
               && r.value.finalTotal == RoundCents(orderTotal.value - Discount(o, orderTotal.value))
               && r.value.savings == r.value.discountAmount)
  {
    if !Truthy(phone) || !TruthyAmount(orderTotal) then Err(MissingFields)
    else
      match FindIndex(catalog, HasId(offerId))
      case None => Err(OfferNotFound)
      case Some(k) =>
        var o := catalog[k];
        var total := orderTotal.value;
        if now >= o.validUntil then Err(OfferExpired)
        else if !o.isActive then Err(OfferInactive)
        else if total < o.minOrderAmount then Err(BelowMinimum(o.minOrderAmount))
        else
          var discount := Discount(o, total);
          var rounded := RoundCents(discount);
          Ok(Pricing(offerId, total, rounded, RoundCents(total - discount), rounded))
  }

  /** `Math.round(x * 100) / 100` never decreases as x grows. */
  lemma RoundCentsMonotone(x: real, y: real)
    requires x <= y
    ensures RoundCents(x) <= RoundCents(y)
  {
    var a := JsRound(x * 100.0);
    var b := JsRound(y * 100.0);
    assert a <= b;
  }

  /** The reported discount never exceeds a whole-cent cap, and the
      reported discount and final total add up to the original total to
      within one cent. */
  lemma AppliedAmountsConsistent(catalog: seq<Offer>, offerId: string, phone: Option<string>,
                                 orderTotal: Option<real>, now: int, capCents: int)
    requires Apply(catalog, offerId, phone, orderTotal, now).Ok?
    requires var k := FindIndex(catalog, HasId(offerId));
      k.Some? && catalog[k.value].maxDiscountAmount == capCents as real / 100.0
    ensures var p := Apply(catalog, offerId, phone, orderTotal, now).value;
      && p.discountAmount <= catalog[FindIndex(catalog, HasId(offerId)).value].maxDiscountAmount
      && p.originalTotal - 0.01 < p.discountAmount + p.finalTotal <= p.originalTotal + 0.01
  {
    var o := catalog[FindIndex(catalog, HasId(offerId)).value];
    RoundCentsMonotone(Discount(o, orderTotal.value), o.maxDiscountAmount);
    RoundCentsFixesCents(capCents);
  }

  /** The three offers of the mock catalog, as loaded at time `t0`. */
  function MockCatalog(t0: int): seq<Offer> {
    [ Offer("welcome_25", 25.0, 30.0, 50.0, t0 + 30 * DayMs, NewCustomer, true, [Bronze]),
      Offer("family_combo", 40.0, 150.0, 100.0, t0 + 15 * DayMs, Combo, true, [Silver, Gold, Platinum]),
      Offer("golden_customer", 20.0, 75.0, 60.0, t0 + 7 * DayMs, Loyalty, true, [Gold, Platinum]) ]
  }

  /** The welcome offer on a fresh catalog: 25% of 100 is 25, under the cap;
      25% of 500 would be 125 and is capped at 50; 20 is under the minimum. */
  lemma WelcomeOfferExamples(t0: int, now: int, phone: string)
    requires t0 <= now < t0 + 30 * DayMs && phone != ""
    ensures Apply(MockCatalog(t0), "welcome_25", Some(phone), Some(100.0), now)
         == Ok(Pricing("welcome_25", 100.0, 25.0, 75.0, 25.0))
    ensures Apply(MockCatalog(t0), "welcome_25", Some(phone), Some(500.0), now)
         == Ok(Pricing("welcome_25", 500.0, 50.0, 450.0, 50.0))
    ensures Apply(MockCatalog(t0), "welcome_25", Some(phone), Some(20.0), now) == Err(BelowMinimum(30.0))
    ensures Apply(MockCatalog(t0), "welcome_25", Some(phone), Some(0.0), now) == Err(MissingFields)
    ensures Apply(MockCatalog(t0), "summer", Some(phone), Some(100.0), now) == Err(OfferNotFound)
  {
    var c := MockCatalog(t0);
    assert FindIndex(c, HasId("welcome_25")) == Some(0) by {
      assert HasId("welcome_25")(c[0]);
    }
    assert FindIndex(c, HasId("summer")).None? by {
      assert c[0].id != "summer" && c[1].id != "summer" && c[2].id != "summer";
    }
    RoundCentsFixesCents(2500);
    RoundCentsFixesCents(7500);
    RoundCentsFixesCents(5000);
    RoundCentsFixesCents(45000);
    assert 2500 as real / 100.0 == 25.0;
    assert 7500 as real / 100.0 == 75.0;
    assert 5000 as real / 100.0 == 50.0;
    assert 45000 as real / 100.0 == 450.0;
  }

  /** On the mock catalog a bronze customer sees only the welcome offer. */
  lemma BronzeListingExample(t0: int, now: int)
    requires t0 <= now < t0 + 7 * DayMs
    ensures OffersOf(Pipeline(MockCatalog(t0), Bronze, 40, now, true)) == [MockCatalog(t0)[0]]
  {
    var c := MockCatalog(t0);
    var p := EligibleFor(Bronze, now, true);
    assert !p(c[2]) && !p(c[1]) && p(c[0]);
    assert Filter(c[2..], p) == [];
    assert c[1..][1..] == c[2..];
    assert Filter(c[1..], p) == [];
    assert Filter(c, p) == [c[0]];
  }

  /** On the mock catalog a gold customer sees the combo (40%) before the
      loyalty offer (20%), and no welcome offer. */
  lemma GoldListingExample(t0: int, now: int)
    requires t0 <= now < t0 + 7 * DayMs
    ensures OffersOf(Pipeline(MockCatalog(t0), Gold, 70, now, true)) == [MockCatalog(t0)[1], MockCatalog(t0)[2]]
  {
    var c := MockCatalog(t0);
    var p := EligibleFor(Gold, now, true);
    assert p(c[2]) && p(c[1]) && !p(c[0]);
    assert c[2..][1..] == [];
    assert Filter(c[2..], p) == [c[2]];
    assert c[1..][1..] == c[2..];
    assert Filter(c[1..], p) == [c[1], c[2]];
    assert Filter(c, p) == [c[1], c[2]];
    assert [c[1], c[2]][1..] == [c[2]];
    assert Sorting.Sort([c[2]], Precedes) == [c[2]];
    assert Sorting.Sort([c[1], c[2]], Precedes) == [c[1], c[2]];
  }
}
