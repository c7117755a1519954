/** Ratings: `POST /rating` (validation in a fixed order, recording the
    rating and copying it onto the order) and `GET /ratings/:phone`
    (newest-first pagination and the customer's rating statistics). Both
    stores are threaded through; rating ids and the clock are parameters. */
module Ratings {
  import opened Common
  import Sorting
  import Phone
  import Orders

  datatype Rating = Rating(
    id: string,
    orderId: string,
    customerPhone: string,
    stars: int,
    feedback: Option<string>,
    createdAt: int)

  datatype RatingRequest = RatingRequest(
    orderId: Option<string>,
    stars: Option<int>,
    feedback: Option<string>,
    phone: Option<string>)

  datatype RatingError =
    | MissingFields
    | StarsOutOfRange
    | OrderNotFound
    | NotOwner
    | NotDelivered
    | AlreadyRated

  /** The characters `String.prototype.trim` removes: the white space and
      line terminators of sections 12.2 and 12.3 of ECMA-262, with the
      space separators of Unicode category Zs. */
  predicate IsJsSpace(c: char) {
    || c == ' ' || c == '\t' || c == '\n' || c == '\r'
    || c == '\U{000B}' || c == '\U{000C}' || c == '\U{00A0}' || c == '\U{FEFF}'
    || c == '\U{1680}' || ('\U{2000}' <= c <= '\U{200A}')
    || c == '\U{2028}' || c == '\U{2029}' || c == '\U{202F}' || c == '\U{205F}' || c == '\U{3000}'
  }

  /** The number of white space characters `s` starts with. */
  function LeadingSpace(s: string): (n: nat)
    ensures n <= |s|
    ensures forall k :: 0 <= k < n ==> IsJsSpace(s[k])
    ensures n < |s| ==> !IsJsSpace(s[n])
  {
    if |s| > 0 && IsJsSpace(s[0]) then 1 + LeadingSpace(s[1..]) else 0
  }

  /** Where the white space `s` ends with begins. */
  function TrailingSpace(s: string): (m: nat)
    ensures m <= |s|
    ensures forall k :: m <= k < |s| ==> IsJsSpace(s[k])
    ensures m > 0 ==> !IsJsSpace(s[m - 1])
  {
    if |s| > 0 && IsJsSpace(s[|s| - 1]) then TrailingSpace(s[..|s| - 1]) else |s|
  }

  /** `s.trim()`: the infix of `s` left after removing white space at both
      ends; it neither starts nor ends with white space. */
  function Trim(s: string): (r: string)
    ensures exists i, j ::
      && 0 <= i <= j <= |s| && r == s[i..j]
      && (forall k :: 0 <= k < i ==> IsJsSpace(s[k]))
      && (forall k :: j <= k < |s| ==> IsJsSpace(s[k]))
    ensures |r| > 0 ==> !IsJsSpace(r[0]) && !IsJsSpace(r[|r| - 1])
    ensures |r| == 0 <==> forall k :: 0 <= k < |s| ==> IsJsSpace(s[k])
  {
    var i := LeadingSpace(s);
    var t := s[i..];
    var j := TrailingSpace(t);
    assert t[..j] == s[i..i + j];
    assert forall k :: i + j <= k < |s| ==> IsJsSpace(s[k]) by {
      forall k | i + j <= k < |s| ensures IsJsSpace(s[k]) {
        assert s[k] == t[k - i];
      }
    }
    t[..j]
  }

  /** Trimming a trimmed string changes nothing. */
  lemma TrimIdempotent(s: string)
    ensures Trim(Trim(s)) == Trim(s)
  {
    var r := Trim(s);
    if |r| > 0 {
      assert LeadingSpace(r) == 0;
      assert TrailingSpace(r) == |r| by {
        assert r[..|r|] == r;
      }
      assert r[0..] == r;
    }
  }

  /** `feedback?.trim() || null`: absent, or blank after trimming, becomes
      null; otherwise the trimmed text is kept. */
  function FeedbackOf(f: Option<string>): (r: Option<string>)
    ensures r.None? <==> f.None? || forall k :: 0 <= k < |f.value| ==> IsJsSpace(f.value[k])
    ensures r.Some? ==> f.Some? && r.value == Trim(f.value) && r.value != ""
  {
    if f.None? then None
    else
      var t := Trim(f.value);
      if t == "" then None else Some(t)
  }

  function HasOrderId(id: string): Orders.Order -> bool {
    (o: Orders.Order) => o.id == id
  }

  /** A rating of this order by this customer is already on record. */
  predicate AlreadyRatedBy(ratings: seq<Rating>, orderId: string, phone: string) {
    exists k :: 0 <= k < |ratings| && ratings[k].orderId == orderId && ratings[k].customerPhone == phone
  }

  /** The request carries the three required fields; `stars` of 0 counts
      as missing. */
  predicate HasFields(req: RatingRequest) {
    Truthy(req.orderId) && req.stars.Some? && req.stars.value != 0 && Truthy(req.phone)
  }

  predicate StarsInRange(req: RatingRequest)
    requires req.stars.Some?
  {
    1 <= req.stars.value <= 5
  }

  /** `POST /rating`. The checks run in the handler's order: fields, star
      range, the first order with the id, ownership by the formatted phone,
      delivery, an earlier rating of the same order by the same phone. On
      success one rating is appended and the order carries its stars and
      feedback; on any error neither store changes. */
  function SubmitRating(orders: seq<Orders.Order>, ratings: seq<Rating>, req: RatingRequest, id: string, now: int)
    : (res: (seq<Orders.Order>, seq<Rating>, Result<Rating, RatingError>))
    ensures res.2.Err? ==> res.0 == orders && res.1 == ratings
    ensures res.2 == Err(MissingFields) <==> !HasFields(req)
    ensures res.2 == Err(StarsOutOfRange) <==> HasFields(req) && !StarsInRange(req)
    ensures res.2 == Err(OrderNotFound) <==>
      HasFields(req) && StarsInRange(req) && FindIndex(orders, HasOrderId(req.orderId.value)).None?
    ensures res.2 !in {Err(MissingFields), Err(StarsOutOfRange), Err(OrderNotFound)} ==>
      && HasFields(req) && StarsInRange(req)
      && FindIndex(orders, HasOrderId(req.orderId.value)).Some?
      && var k := FindIndex(orders, HasOrderId(req.orderId.value)).value;
         var o := orders[k];
         var phone := Phone.Format(req.phone.value);
         && o.id == req.orderId.value
         && (res.2 == Err(NotOwner) <==> o.customerPhone != phone)
         && (res.2 == Err(NotDelivered) <==> o.customerPhone == phone && o.status != "delivered")
         && (res.2 == Err(AlreadyRated) <==>
               o.customerPhone == phone && o.status == "delivered"
               && AlreadyRatedBy(ratings, req.orderId.value, phone))
         && (res.2.Ok? ==>
               && !AlreadyRatedBy(ratings, req.orderId.value, phone)
               && res.2.value == Rating(id, req.orderId.value, phone, req.stars.value, FeedbackOf(req.feedback), now)
               && res.1 == ratings + [res.2.value]
               && res.0 == orders[k := o.(rating := Some(req.stars.value), feedback := res.2.value.feedback)])
  {
    if !HasFields(req) then (orders, ratings, Err(MissingFields))
    else if !StarsInRange(req) then (orders, ratings, Err(StarsOutOfRange))
    else
      var orderId := req.orderId.value;
      var phone := Phone.Format(req.phone.value);
      match FindIndex(orders, HasOrderId(orderId))
      case None => (orders, ratings, Err(OrderNotFound))
      case Some(k) =>
        var o := orders[k];
        if o.customerPhone != phone then (orders, ratings, Err(NotOwner))
        else if o.status != "delivered" then (orders, ratings, Err(NotDelivered))
        else if AlreadyRatedBy(ratings, orderId, phone) then (orders, ratings, Err(AlreadyRated))
        else
          var rating := Rating(id, orderId, phone, req.stars.value, FeedbackOf(req.feedback), now);
          (orders[k := o.(rating := Some(rating.stars), feedback := rating.feedback)],
           ratings + [rating], Ok(rating))
  }

  /** No two ratings share both the order and the customer. */
  ghost predicate OnePerOrderAndCustomer(ratings: seq<Rating>) {
    forall i, j :: 0 <= i < j < |ratings| ==>
      ratings[i].orderId != ratings[j].orderId || ratings[i].customerPhone != ratings[j].customerPhone
  }

  /** Every rating submission keeps at most one rating per order and
      customer, whatever the outcome. */
  lemma SubmitKeepsOnePerOrder(orders: seq<Orders.Order>, ratings: seq<Rating>, req: RatingRequest, id: string, now: int)
    requires OnePerOrderAndCustomer(ratings)
    ensures OnePerOrderAndCustomer(SubmitRating(orders, ratings, req, id, now).1)
  {
    var (_, ratings', r) := SubmitRating(orders, ratings, req, id, now);
    if r.Ok? {
      forall i, j | 0 <= i < j < |ratings'|
        ensures ratings'[i].orderId != ratings'[j].orderId || ratings'[i].customerPhone != ratings'[j].customerPhone
      {
        if j == |ratings| {
          assert ratings'[i] == ratings[i];
        }
      }
    }
  }

  /** Submitting the same request again after a success is refused as a
      repeat, and leaves both stores as they are. */
  lemma SecondSubmitRefused(orders: seq<Orders.Order>, ratings: seq<Rating>, req: RatingRequest,
                            id1: string, id2: string, t1: int, t2: int)
    requires SubmitRating(orders, ratings, req, id1, t1).2.Ok?
    ensures var (orders', ratings', _) := SubmitRating(orders, ratings, req, id1, t1);
      SubmitRating(orders', ratings', req, id2, t2) == (orders', ratings', Err(AlreadyRated))
  {
    var (orders', ratings', r) := SubmitRating(orders, ratings, req, id1, t1);
    var orderId := req.orderId.value;
    var k := FindIndex(orders, HasOrderId(orderId)).value;
    assert FindIndex(orders', HasOrderId(orderId)) == Some(k) by {
      assert forall j :: 0 <= j < k ==> orders'[j] == orders[j];
      assert HasOrderId(orderId)(orders'[k]);
    }
    assert ratings'[|ratings|] == r.value;
  }

  const DayMs: int := 24 * 60 * 60 * 1000

  /** The two example ratings the listing invents for a phone without any. */
  function DummyRatings(phone: string, now: int, id1: string, id2: string): seq<Rating> {
    [ Rating(id1, "ORD_DUMMY_1", phone, 5, Some("طعام ممتاز وخدمة سريعة!"), now - 3 * DayMs),
      Rating(id2, "ORD_DUMMY_2", phone, 4, Some("جيد جداً، لكن التوصيل تأخر قليلاً"), now - 7 * DayMs) ]
  }

  function ByPhone(phone: string): Rating -> bool {
    (r: Rating) => r.customerPhone == phone
  }

  function WithStars(k: int): Rating -> bool {
    (r: Rating) => r.stars == k
  }

  /** How many of the ratings give exactly `k` stars. */
  function StarCount(s: seq<Rating>, k: int): (n: nat)
    ensures n <= |s|
  {
    |Filter(s, WithStars(k))|
  }

  function SumStars(s: seq<Rating>): int {
    if |s| == 0 then 0 else s[0].stars + SumStars(s[1..])
  }

  predicate AllInRange(s: seq<Rating>) {
    forall i :: 0 <= i < |s| ==> 1 <= s[i].stars <= 5
  }

  /** The five buckets of the distribution count every rating exactly once
      when all stars lie in [1, 5]. */
  lemma {:induction false} DistributionCoversAll(s: seq<Rating>)
    requires AllInRange(s)
    ensures StarCount(s, 1) + StarCount(s, 2) + StarCount(s, 3) + StarCount(s, 4) + StarCount(s, 5) == |s|
  {
    if |s| > 0 {
      DistributionCoversAll(s[1..]);
    }
  }

  /** The star sum lies between one and five stars per rating. */
  lemma {:induction false} SumStarsBounds(s: seq<Rating>)
    requires AllInRange(s)
    ensures |s| <= SumStars(s) <= 5 * |s|
  {
    if |s| > 0 {
      SumStarsBounds(s[1..]);
    }
  }

  datatype RatingStats = RatingStats(totalRatings: int, averageRating: real, distribution: map<int, nat>)

  datatype RatingListing = RatingListing(ratings: seq<Rating>, stats: RatingStats, limit: int, offset: int, total: int, hasMore: bool)

  /** The statistics over all of a customer's ratings: the mean of the
      stars (0 when there are none) and the count for each of 1 to 5 stars. */
  function StatsOf(all: seq<Rating>, total: int): (st: RatingStats)
    ensures st.totalRatings == total
    ensures st.averageRating == Average(all)
    ensures |all| == 0 ==> st.averageRating == 0.0
    ensures |all| > 0 ==> st.averageRating * |all| as real == SumStars(all) as real
    ensures st.distribution.Keys == {1, 2, 3, 4, 5}
    ensures forall k :: k in st.distribution ==> st.distribution[k] == StarCount(all, k)
  {
    RatingStats(total, Average(all), map k | k in {1, 2, 3, 4, 5} :: StarCount(all, k))
  }

  /** The mean of the stars, 0 when there are none. */
  function Average(all: seq<Rating>): (a: real)
    ensures |all| == 0 ==> a == 0.0
    ensures |all| > 0 ==> a * |all| as real == SumStars(all) as real
  {
    if |all| > 0 then SumStars(all) as real / |all| as real else 0.0
  }

  /** A customer's average lies between one and five stars. */
  lemma AverageInRange(all: seq<Rating>, total: int)
    requires AllInRange(all) && |all| > 0
    ensures 1.0 <= StatsOf(all, total).averageRating <= 5.0
  {
    var a := Average(all);
    SumStarsBounds(all);
    MeanBounds(|all| as real, a, SumStars(all) as real);
    assert StatsOf(all, total).averageRating == a;
  }

  /** A mean of values in [1, 5]: `n * a == sum` with `n <= sum <= 5n`
      puts `a` in [1, 5]. */
  lemma MeanBounds(n: real, a: real, sum: real)
    requires n > 0.0 && n * a == sum && n <= sum <= 5.0 * n
    ensures 1.0 <= a <= 5.0
  {
    if a < 1.0 {
      ScaleStrict(n, a, 1.0);
    }
    if a > 5.0 {
      ScaleStrict(n, 5.0, a);
    }
  }

  lemma ScaleStrict(k: real, x: real, y: real)
    requires k > 0.0 && x < y
    ensures k * x < k * y
  {
    assert k * y - k * x == k * (y - x);
  }

  predicate NewerRating(a: Rating, b: Rating) {
    a.createdAt > b.createdAt
  }

  lemma NewerRatingIsStrictWeakOrder()
    ensures Sorting.StrictWeakOrder(NewerRating)
  {
  }

  /** The store and the phone's ratings once the example ratings were
      invented for a phone without any. */
  function RatingsWithExamples(ratings: seq<Rating>, phone: string, now: int, id1: string, id2: string)
    : (res: (seq<Rating>, seq<Rating>))
    ensures |Filter(ratings, ByPhone(phone))| == 0 ==>
      res == (ratings + DummyRatings(phone, now, id1, id2), DummyRatings(phone, now, id1, id2))
    ensures |Filter(ratings, ByPhone(phone))| > 0 ==> res == (ratings, Filter(ratings, ByPhone(phone)))
    ensures forall r :: r in res.1 ==> r in res.0 && r.customerPhone == phone
    ensures res.1 == Filter(res.0, ByPhone(phone))
  {
    var mine := Filter(ratings, ByPhone(phone));
    FilterMembers(ratings, ByPhone(phone));
    if |mine| == 0 then
      ExamplesAreTheCustomersRatings(ratings, phone, now, id1, id2);
      (ratings + DummyRatings(phone, now, id1, id2), DummyRatings(phone, now, id1, id2))
    else (ratings, mine)
  }

  /** Once the examples are appended to a store without ratings of the
      phone, the phone's ratings are exactly the examples. */
  lemma ExamplesAreTheCustomersRatings(ratings: seq<Rating>, phone: string, now: int, id1: string, id2: string)
    requires |Filter(ratings, ByPhone(phone))| == 0
    ensures Filter(ratings + DummyRatings(phone, now, id1, id2), ByPhone(phone)) == DummyRatings(phone, now, id1, id2)
  {
    var d := DummyRatings(phone, now, id1, id2);
    FilterAppend(ratings, d, ByPhone(phone));
    FilterKeepsAll(d, ByPhone(phone));
  }

  /** The stable newest-first sort of a phone's ratings. */
  function NewestRatingsFirst(ratings: seq<Rating>): (r: seq<Rating>)
    ensures |r| == |ratings| && multiset(r) == multiset(ratings)
    ensures forall x :: x in r ==> x in ratings
    ensures forall i, j :: 0 <= i < j < |r| ==> r[i].createdAt >= r[j].createdAt
  {
    var r := Sorting.Sort(ratings, NewerRating);
    NewerRatingIsStrictWeakOrder();
    Sorting.SortSorted(ratings, NewerRating);
    assert forall x :: x in r ==> x in ratings by {
      forall x | x in r ensures x in ratings {
        assert x in multiset(r);
      }
    }
    r
  }

  /** The page and the pagination block of a listing, from the sorted
      ratings and the statistics. */
  function PageRatings(sorted: seq<Rating>, limit: nat, offset: nat, stats: RatingStats): (l: RatingListing)
    requires forall i, j :: 0 <= i < j < |sorted| ==> sorted[i].createdAt >= sorted[j].createdAt
    ensures l.ratings == Page(sorted, offset, limit)
    ensures forall r :: r in l.ratings ==> r in sorted
    ensures |l.ratings| <= limit
    ensures forall i, j :: 0 <= i < j < |l.ratings| ==> l.ratings[i].createdAt >= l.ratings[j].createdAt
    ensures l.total == |sorted| && l.stats == stats
    ensures l.hasMore <==> offset + limit < l.total
    ensures offset < l.total ==> |l.ratings| == if offset + limit <= l.total then limit else l.total - offset
  {
    var page := Page(sorted, offset, limit);
    assert forall r :: r in page ==> r in sorted by {
      forall r | r in page ensures r in sorted {
        var i :| 0 <= i < |page| && page[i] == r;
        assert sorted[offset + i] == r;
      }
    }
    RatingListing(page, stats, limit, offset, |sorted|, HasMore(|sorted|, offset, limit))
  }

  /** `GET /ratings/:phone` with integer `limit` (10 by default) and
      `offset` (0 by default): the phone's ratings newest first, one page of
      them, and statistics over all of them. */
  function ListRatings(ratings: seq<Rating>, rawPhone: string, limit: nat, offset: nat, now: int, id1: string, id2: string)
    : (res: (seq<Rating>, RatingListing))
    ensures var phone := Phone.Format(rawPhone);
      && (|Filter(ratings, ByPhone(phone))| == 0 ==> res.0 == ratings + DummyRatings(phone, now, id1, id2))
      && (|Filter(ratings, ByPhone(phone))| > 0 ==> res.0 == ratings)
    ensures forall r :: r in res.1.ratings ==> r in res.0 && r.customerPhone == Phone.Format(rawPhone)
    ensures |res.1.ratings| <= limit
    ensures forall i, j :: 0 <= i < j < |res.1.ratings| ==> res.1.ratings[i].createdAt >= res.1.ratings[j].createdAt
    ensures res.1.total == res.1.stats.totalRatings
    ensures res.1.total == |Filter(res.0, ByPhone(Phone.Format(rawPhone)))|
    ensures res.1.ratings == Page(NewestRatingsFirst(Filter(res.0, ByPhone(Phone.Format(rawPhone)))), offset, limit)
    ensures res.1.hasMore <==> offset + limit < res.1.total
    ensures offset < res.1.total ==>
      |res.1.ratings| == if offset + limit <= res.1.total then limit else res.1.total - offset
    ensures res.1.stats == StatsOf(Filter(res.0, ByPhone(Phone.Format(rawPhone))), res.1.total)
  {
    var phone := Phone.Format(rawPhone);
    var (ratings', mine) := RatingsWithExamples(ratings, phone, now, id1, id2);
    var sorted := NewestRatingsFirst(mine);
    var stats := StatsOf(Filter(ratings', ByPhone(phone)), |sorted|);
    (ratings', PageRatings(sorted, limit, offset, stats))
  }

  /** For a customer who already has ratings, the listing's page is the
      slice of the customer's ratings, newest first. */
  lemma ListedRatingsPage(ratings: seq<Rating>, rawPhone: string, limit: nat, offset: nat,
                          now: int, id1: string, id2: string)
    requires |Filter(ratings, ByPhone(Phone.Format(rawPhone)))| > 0
    ensures ListRatings(ratings, rawPhone, limit, offset, now, id1, id2).1.ratings
         == Page(NewestRatingsFirst(Filter(ratings, ByPhone(Phone.Format(rawPhone)))), offset, limit)
  {
    var res := ListRatings(ratings, rawPhone, limit, offset, now, id1, id2);
    assert res.0 == ratings;
  }

  /** Paging through a customer's ratings loses and repeats nothing: two
      consecutive pages together are the page of both sizes. */
  lemma RatingPagesTile(ratings: seq<Rating>, rawPhone: string, offset: nat, a: nat, b: nat,
                        now: int, id1: string, id2: string)
    requires |Filter(ratings, ByPhone(Phone.Format(rawPhone)))| > 0
    ensures ListRatings(ratings, rawPhone, a, offset, now, id1, id2).1.ratings
          + ListRatings(ratings, rawPhone, b, offset + a, now, id1, id2).1.ratings
         == ListRatings(ratings, rawPhone, a + b, offset, now, id1, id2).1.ratings
  {
    var sorted := NewestRatingsFirst(Filter(ratings, ByPhone(Phone.Format(rawPhone))));
    ListedRatingsPage(ratings, rawPhone, a, offset, now, id1, id2);
    ListedRatingsPage(ratings, rawPhone, b, offset + a, now, id1, id2);
    ListedRatingsPage(ratings, rawPhone, a + b, offset, now, id1, id2);
    PagesTile(sorted, offset, a, b);
  }

  /** Inventing the example ratings keeps at most one rating per order and
      customer: they are added only for a phone that has no rating yet, and
      name two different orders. */
  lemma ListingKeepsOnePerOrder(ratings: seq<Rating>, rawPhone: string, limit: nat, offset: nat,
                                now: int, id1: string, id2: string)
    requires OnePerOrderAndCustomer(ratings)
    ensures OnePerOrderAndCustomer(ListRatings(ratings, rawPhone, limit, offset, now, id1, id2).0)
  {
    var phone := Phone.Format(rawPhone);
    var ratings' := ListRatings(ratings, rawPhone, limit, offset, now, id1, id2).0;
    if |Filter(ratings, ByPhone(phone))| == 0 {
      FilterMembers(ratings, ByPhone(phone));
      var d := DummyRatings(phone, now, id1, id2);
      assert d[0].orderId != d[1].orderId by {
        assert d[0].orderId[10] == '1' && d[1].orderId[10] == '2';
      }
      forall i, j | 0 <= i < j < |ratings'|
        ensures ratings'[i].orderId != ratings'[j].orderId || ratings'[i].customerPhone != ratings'[j].customerPhone
      {
        if j >= |ratings| && i < |ratings| {
          assert ratings'[i] == ratings[i];
          assert ratings[i] !in Filter(ratings, ByPhone(phone));
        }
      }
    }
  }
}
