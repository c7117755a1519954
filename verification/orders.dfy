/** Orders: `POST /order` (item validation, totals, recording) and
    `GET /orders/:phone` (filtering, newest-first order, pagination and
    the customer's statistics). The order store is threaded through
    explicitly; order ids and the clock are parameters. */
module Orders {
  import opened Common
  import Sorting
  import Phone
  import Menu

  const DayMs: int := 24 * 60 * 60 * 1000

  /** One entry of the request's `items` array. */
  datatype ItemRequest = ItemRequest(id: Option<string>, quantity: Option<int>, notes: Option<string>)

  /** The request body; `items` is `None` when absent or not an array. */
  datatype OrderRequest = OrderRequest(
    items: Option<seq<ItemRequest>>,
    phone: Option<string>,
    notes: Option<string>,
    deliveryAddress: Option<string>)

  datatype OrderError =
    | MissingFields
    | BadItem
    | UnknownItem(id: string)
    | Unavailable(id: string)

  /** An item that passed validation, with the catalog entry it names. */
  datatype Validated = Validated(menuItem: Menu.MenuItem, quantity: int, notes: Option<string>)

  /** A stored order line. */
  datatype LineItem = LineItem(itemId: string, quantity: int, unitPrice: real, totalPrice: real, notes: Option<string>)

  /** A stored order; `rating` and `feedback` are set once the order is
      rated. */
  datatype Order = Order(
    id: string,
    customerPhone: string,
    items: seq<LineItem>,
    totalPrice: real,
    orderTime: int,
    status: string,
    notes: Option<string>,
    deliveryAddress: Option<string>,
    estimatedPreparationTime: int,
    paymentStatus: Option<string>,
    rating: Option<int>,
    feedback: Option<string>)

  /** `value || null` for an optional string. */
  function OrNull(s: Option<string>): (r: Option<string>)
    ensures r.Some? <==> Truthy(s)
    ensures r.Some? ==> r == s
  {
    if Truthy(s) then s else None
  }

  /** The checks one request item must pass, in the handler's order:
      an id and a quantity of at least one, then a catalog entry with that
      id, then availability of that entry. */
  function ItemError(menu: seq<Menu.MenuItem>, it: ItemRequest): (e: Option<OrderError>)
    ensures e != Some(MissingFields)
    ensures e == Some(BadItem) <==> !WellFormed(it)
    ensures e.Some? && e.value.UnknownItem? ==>
      forall k :: 0 <= k < |menu| ==> menu[k].id != it.id.value
    ensures WellFormed(it) ==>
      var found := FindIndex(menu, Menu.HasId(it.id.value));
      && (found.None? <==> e == Some(UnknownItem(it.id.value)))
      && (found.Some? && !menu[found.value].isAvailable ==> e == Some(Unavailable(menu[found.value].id)))
      && (found.Some? && menu[found.value].isAvailable ==> e.None?)
    ensures e.None? ==>
      && Truthy(it.id) && it.quantity.Some? && it.quantity.value >= 1
      && exists k :: 0 <= k < |menu| && menu[k].id == it.id.value && menu[k].isAvailable
                     && forall j :: 0 <= j < k ==> menu[j].id != it.id.value
  {
    if !WellFormed(it) then Some(BadItem)
    else
      match FindIndex(menu, Menu.HasId(it.id.value))
      case None => Some(UnknownItem(it.id.value))
      case Some(k) => if !menu[k].isAvailable then Some(Unavailable(menu[k].id)) else None
  }

  /** The first check: an id, and a quantity of at least one. */
  predicate WellFormed(it: ItemRequest) {
    Truthy(it.id) && it.quantity.Some? && it.quantity.value >= 1
  }

  /** `v` is what validation makes of the request item `it`: the first
      catalog entry with the requested id, the requested quantity and the
      item's own notes. */
  ghost predicate ValidatedFrom(menu: seq<Menu.MenuItem>, it: ItemRequest, v: Validated) {
    && it.id.Some? && it.quantity.Some?
    && v.menuItem.id == it.id.value
    && FindIndex(menu, Menu.HasId(it.id.value)).Some?
    && v.menuItem == menu[FindIndex(menu, Menu.HasId(it.id.value)).value]
    && v.menuItem.isAvailable
    && v.quantity == it.quantity.value >= 1
    && v.notes == OrNull(it.notes)
  }

  function LineTotal(v: Validated): real {
    v.menuItem.price * v.quantity as real
  }

  /** The sum of `price * quantity` over validated items. */
  function LinesTotal(vs: seq<Validated>): real {
    if |vs| == 0 then 0.0 else LinesTotal(vs[..|vs| - 1]) + LineTotal(vs[|vs| - 1])
  }

  /** One pass of the validation loop: the item's error, or the item
      validated against the first catalog entry with its id. */
  function ValidateOne(menu: seq<Menu.MenuItem>, it: ItemRequest): (r: Result<Validated, OrderError>)
    ensures r.Err? <==> ItemError(menu, it).Some?
    ensures r.Err? ==> ItemError(menu, it) == Some(r.error)
    ensures r.Ok? ==> ValidatedFrom(menu, it, r.value)
  {
    match ItemError(menu, it)
    case Some(e) => Err(e)
    case None =>
      var k := FindIndex(menu, Menu.HasId(it.id.value)).value;
      Ok(Validated(menu[k], it.quantity.value, OrNull(it.notes)))
  }

  /** Ordering an available catalog item by its id, in any positive
      quantity, passes validation and yields that catalog entry. */
  lemma AvailableItemAccepted(menu: seq<Menu.MenuItem>, k: int, quantity: int, notes: Option<string>)
    requires 0 <= k < |menu| && menu[k].id != "" && menu[k].isAvailable && quantity >= 1
    requires forall j :: 0 <= j < k ==> menu[j].id != menu[k].id
    ensures ItemError(menu, ItemRequest(Some(menu[k].id), Some(quantity), notes)).None?
    ensures ValidateOne(menu, ItemRequest(Some(menu[k].id), Some(quantity), notes))
         == Ok(Validated(menu[k], quantity, OrNull(notes)))
  {
    var found := FindIndex(menu, Menu.HasId(menu[k].id));
    assert Menu.HasId(menu[k].id)(menu[k]);
    assert found == Some(k);
  }

  /** Item `k` is the first that fails validation, and fails with `e`. */
  ghost predicate FirstFailure(menu: seq<Menu.MenuItem>, reqs: seq<ItemRequest>, k: int, e: OrderError) {
    && 0 <= k < |reqs| && ItemError(menu, reqs[k]) == Some(e)
    && forall j :: 0 <= j < k ==> ItemError(menu, reqs[j]).None?
  }

  /** `vs` validates `reqs` one for one. */
  ghost predicate AllValidated(menu: seq<Menu.MenuItem>, reqs: seq<ItemRequest>, vs: seq<Validated>) {
    |vs| == |reqs| && forall i :: 0 <= i < |vs| ==> ValidatedFrom(menu, reqs[i], vs[i])
  }

  /** No item before position `i` fails validation. */
  ghost predicate NoFailureBefore(menu: seq<Menu.MenuItem>, reqs: seq<ItemRequest>, i: int) {
    forall j :: 0 <= j < i && j < |reqs| ==> ItemError(menu, reqs[j]).None?
  }

  /** The loop's three steps, one item further on. */
  lemma NoFailureSnoc(menu: seq<Menu.MenuItem>, reqs: seq<ItemRequest>, i: int)
    requires 0 <= i < |reqs| && NoFailureBefore(menu, reqs, i) && ItemError(menu, reqs[i]).None?
    ensures NoFailureBefore(menu, reqs, i + 1)
  {
  }

  lemma LinesTotalSnoc(vs: seq<Validated>, v: Validated)
    ensures LinesTotal(vs + [v]) == LinesTotal(vs) + LineTotal(v)
  {
    assert (vs + [v])[..|vs|] == vs;
  }

  lemma AllValidatedSnoc(menu: seq<Menu.MenuItem>, reqs: seq<ItemRequest>, vs: seq<Validated>, v: Validated)
    requires |reqs| > 0 && AllValidated(menu, reqs[..|reqs| - 1], vs)
    requires ValidatedFrom(menu, reqs[|reqs| - 1], v)
    ensures AllValidated(menu, reqs, vs + [v])
  {
  }

  /** The validation loop: the first failing item decides the error; when
      every item passes, the validated items follow the request one for
      one and the running total is the sum of their line totals. */
  method ValidateItems(menu: seq<Menu.MenuItem>, reqs: seq<ItemRequest>)
    returns (r: Result<seq<Validated>, OrderError>, total: real)
    ensures r.Err? <==> exists k :: 0 <= k < |reqs| && ItemError(menu, reqs[k]).Some?
    ensures r.Err? ==> exists k :: FirstFailure(menu, reqs, k, r.error)
    ensures r.Ok? ==> AllValidated(menu, reqs, r.value)
    ensures r.Ok? ==> total == LinesTotal(r.value)
  {
    var out: seq<Validated> := [];
    total := 0.0;
    var i := 0;
    while i < |reqs|
      invariant 0 <= i <= |reqs|
      invariant NoFailureBefore(menu, reqs, i)
      invariant AllValidated(menu, reqs[..i], out)
      invariant total == LinesTotal(out)
    {
      var checked := ValidateOne(menu, reqs[i]);
      if checked.Err? {
        assert FirstFailure(menu, reqs, i, checked.error);
        return Err(checked.error), total;
      }
      var v := checked.value;
      NoFailureSnoc(menu, reqs, i);
      assert reqs[..i + 1][..i] == reqs[..i];
      AllValidatedSnoc(menu, reqs[..i + 1], out, v);
      LinesTotalSnoc(out, v);
      out := out + [v];
      total := total + LineTotal(v);
      i := i + 1;
    }
    assert reqs[..i] == reqs;
    return Ok(out), total;
  }

  /** `Math.max(...)` of the preparation times of a non-empty item list. */
  function MaxPreparation(vs: seq<Validated>): (m: int)
    requires |vs| > 0
    ensures forall i :: 0 <= i < |vs| ==> vs[i].menuItem.preparationTime <= m
    ensures exists i :: 0 <= i < |vs| && vs[i].menuItem.preparationTime == m
  {
    if |vs| == 1 then vs[0].menuItem.preparationTime
    else
      var rest := MaxPreparation(vs[1..]);
      assert forall i :: 1 <= i < |vs| ==> vs[i] == vs[1..][i - 1];
      if vs[0].menuItem.preparationTime >= rest then vs[0].menuItem.preparationTime else rest
  }

  function ToLine(v: Validated): LineItem {
    LineItem(v.menuItem.id, v.quantity, v.menuItem.price, LineTotal(v), v.notes)
  }

  /** The stored line items, one per validated item and in the same order. */
  function ToLines(vs: seq<Validated>): (lines: seq<LineItem>)
    ensures |lines| == |vs|
    ensures forall i :: 0 <= i < |vs| ==>
      lines[i].itemId == vs[i].menuItem.id && lines[i].quantity == vs[i].quantity
  {
    seq(|vs|, i requires 0 <= i < |vs| => ToLine(vs[i]))
  }

  /** The order's price and preparation time come from `vs`, the
      validation of the requested items: the total is the rounded sum of
      the line totals and the preparation time is the longest item's. */
  ghost predicate PricedFrom(menu: seq<Menu.MenuItem>, reqs: seq<ItemRequest>, vs: seq<Validated>, o: Order) {
    && |reqs| > 0 && AllValidated(menu, reqs, vs)
    && o.totalPrice == RoundCents(LinesTotal(vs))
    && (forall i :: 0 <= i < |vs| ==> vs[i].menuItem.preparationTime <= o.estimatedPreparationTime)
    && (exists i :: 0 <= i < |vs| && vs[i].menuItem.preparationTime == o.estimatedPreparationTime)
  }

  /** The order recorded for validated items `vs`: one line per item,
      pending and unpaid, not yet rated. */
  function NewOrder(menu: seq<Menu.MenuItem>, req: OrderRequest, vs: seq<Validated>, id: string, now: int): (o: Order)
    requires req.items.Some? && req.phone.Some? && |vs| > 0
    requires AllValidated(menu, req.items.value, vs)
    ensures PricedFrom(menu, req.items.value, vs, o)
    ensures |o.items| == |req.items.value|
    ensures forall i :: 0 <= i < |o.items| ==>
      && req.items.value[i].id == Some(o.items[i].itemId)
      && req.items.value[i].quantity == Some(o.items[i].quantity)
      && o.items[i].quantity >= 1
    ensures o.id == id && o.orderTime == now
    ensures o.customerPhone == Phone.Format(req.phone.value)
    ensures o.status == "pending" && o.paymentStatus == Some("pending") && o.rating.None?
    ensures o.notes == OrNull(req.notes) && o.deliveryAddress == OrNull(req.deliveryAddress)
  {
    Order(id, Phone.Format(req.phone.value), ToLines(vs), RoundCents(LinesTotal(vs)), now, "pending",
          OrNull(req.notes), OrNull(req.deliveryAddress), MaxPreparation(vs), Some("pending"),
          None, None)
  }

  /** `POST /order`. A missing phone or an absent or empty item list is
      refused outright; then the items are validated; a valid order is
      appended to the store exactly once, pending and unpaid, and nothing
      is stored on any error. */
  method PlaceOrder(store: seq<Order>, menu: seq<Menu.MenuItem>, req: OrderRequest, id: string, now: int)
    returns (store': seq<Order>, r: Result<Order, OrderError>)
    ensures r.Err? ==> store' == store
    ensures r == Err(MissingFields) <==> !Truthy(req.phone) || req.items.None? || |req.items.value| == 0
    ensures r.Ok? ==> store' == store + [r.value]
    ensures r.Ok? <==>
      && Truthy(req.phone) && req.items.Some? && |req.items.value| > 0
      && forall k :: 0 <= k < |req.items.value| ==> ItemError(menu, req.items.value[k]).None?
    ensures r.Ok? ==>
      var o := r.value;
      && req.items.Some? && |o.items| == |req.items.value| > 0
      && (forall i :: 0 <= i < |o.items| ==>
            && req.items.value[i].id == Some(o.items[i].itemId)
            && req.items.value[i].quantity == Some(o.items[i].quantity)
            && o.items[i].quantity >= 1)
      && o.id == id && o.orderTime == now
      && o.customerPhone == Phone.Format(req.phone.value)
      && o.status == "pending" && o.paymentStatus == Some("pending") && o.rating.None?
      && o.notes == OrNull(req.notes) && o.deliveryAddress == OrNull(req.deliveryAddress)
    ensures r.Ok? ==> exists vs: seq<Validated> :: PricedFrom(menu, req.items.value, vs, r.value)
    ensures r.Err? && r.error != MissingFields ==> exists k :: FirstFailure(menu, req.items.value, k, r.error)
  {
    if !Truthy(req.phone) || req.items.None? || |req.items.value| == 0 {
      return store, Err(MissingFields);
    }
    var checked, total := ValidateItems(menu, req.items.value);
    if checked.Err? {
      assert checked.error != MissingFields;
      return store, Err(checked.error);
    }
    var order := NewOrder(menu, req, checked.value, id, now);
    assert PricedFrom(menu, req.items.value, checked.value, order);
    return store + [order], Ok(order);
  }

  /** The listing's query: `status` may be absent; limit 20 and offset 0
      by default. */
  datatype OrdersQuery = OrdersQuery(status: Option<string>, limit: nat, offset: nat)

  function DefaultQuery(status: Option<string>): OrdersQuery {
    OrdersQuery(status, 20, 0)
  }

  datatype OrderStats = OrderStats(totalOrders: int, totalSpent: real, pendingOrders: int, lastOrderDate: Option<int>)

  datatype OrderListing = OrderListing(orders: seq<Order>, stats: OrderStats, limit: int, offset: int, total: int, hasMore: bool)

  function ForPhone(phone: string): Order -> bool {
    (o: Order) => o.customerPhone == phone
  }

  function WithStatus(status: string): Order -> bool {
    (o: Order) => o.status == status
  }

  predicate IsDelivered(o: Order) {
    o.status == "delivered"
  }

  /** The statuses the statistics count as still open. */
  predicate IsOpen(o: Order) {
    o.status in {"pending", "confirmed", "preparing"}
  }

  /** The comparator `b.orderTime - a.orderTime` is negative when `a` is newer. */
  predicate Newer(a: Order, b: Order) {
    a.orderTime > b.orderTime
  }

  lemma NewerIsStrictWeakOrder()
    ensures Sorting.StrictWeakOrder(Newer)
  {
  }

  /** `reduce((sum, o) => sum + o.totalPrice, 0)`. */
  function SumTotals(s: seq<Order>): real {
    if |s| == 0 then 0.0 else SumTotals(s[..|s| - 1]) + s[|s| - 1].totalPrice
  }

  lemma {:induction false} SumTotalsAppend(a: seq<Order>, b: seq<Order>)
    ensures SumTotals(a + b) == SumTotals(a) + SumTotals(b)
    decreases |b|
  {
    if |b| > 0 {
      assert (a + b)[..|a + b| - 1] == a + b[..|b| - 1];
      SumTotalsAppend(a, b[..|b| - 1]);
    } else {
      assert a + b == a;
    }
  }

  /** The two example orders the listing invents for a phone without any:
      both delivered, two and five days old. */
  function DummyOrders(phone: string, now: int, id1: string, id2: string): seq<Order> {
    [ Order(id1, phone, [LineItem("main_1", 1, 85.0, 85.0, None)], 85.0, now - 2 * DayMs,
            "delivered", None, None, 35, None, None, None),
      Order(id2, phone, [LineItem("grill_1", 2, 35.0, 70.0, None)], 70.0, now - 5 * DayMs,
            "delivered", None, None, 15, None, None, None) ]
  }

  /** The delivered spend and the open orders of one customer. */
  function SpentBy(store: seq<Order>, phone: string): real {
    SumTotals(Filter(Filter(store, ForPhone(phone)), IsDelivered))
  }

  function OpenCount(store: seq<Order>, phone: string): (n: nat)
    ensures n <= |Filter(store, ForPhone(phone))|
  {
    |Filter(Filter(store, ForPhone(phone)), IsOpen)|
  }

  /** The store and the phone's orders once the example orders were
      invented for a phone without any. */
  function WithExamples(store: seq<Order>, phone: string, now: int, id1: string, id2: string)
    : (res: (seq<Order>, seq<Order>))
    ensures |Filter(store, ForPhone(phone))| == 0 ==>
      res == (store + DummyOrders(phone, now, id1, id2), DummyOrders(phone, now, id1, id2))
    ensures |Filter(store, ForPhone(phone))| > 0 ==> res == (store, Filter(store, ForPhone(phone)))
    ensures forall o :: o in res.1 ==> o in res.0 && o.customerPhone == phone
    ensures res.1 == Filter(res.0, ForPhone(phone))
  {
    var mine := Filter(store, ForPhone(phone));
    FilterMembers(store, ForPhone(phone));
    if |mine| == 0 then
      ExamplesAreTheCustomersOrders(store, phone, now, id1, id2);
      (store + DummyOrders(phone, now, id1, id2), DummyOrders(phone, now, id1, id2))
    else (store, mine)
  }

  /** The optional status filter. */
  function SelectStatus(orders: seq<Order>, status: Option<string>): (r: seq<Order>)
    ensures forall o :: o in r ==> o in orders && (Truthy(status) ==> o.status == status.value)
    ensures forall o :: multiset(r)[o] == (if Truthy(status) && o.status != status.value then 0 else multiset(orders)[o])
    ensures !Truthy(status) ==> r == orders
    ensures Truthy(status) ==> r == Filter(orders, WithStatus(status.value))
  {
    FilterMembers(orders, WithStatus(status.GetOr("")));
    FilterCount(orders, WithStatus(status.GetOr("")));
    if Truthy(status) then Filter(orders, WithStatus(status.value)) else orders
  }

  /** The stable newest-first sort. */
  function NewestFirst(orders: seq<Order>): (r: seq<Order>)
    ensures |r| == |orders| && multiset(r) == multiset(orders)
    ensures forall o :: o in r ==> o in orders
    ensures forall i, j :: 0 <= i < j < |r| ==> r[i].orderTime >= r[j].orderTime
  {
    var r := Sorting.Sort(orders, Newer);
    NewerIsStrictWeakOrder();
    Sorting.SortSorted(orders, Newer);
    assert forall o :: o in r ==> o in orders by {
      forall o | o in r ensures o in orders {
        assert o in multiset(r);
      }
    }
    r
  }

  /** `GET /orders/:phone`. When the store has no order of the phone, the
      two example orders are appended to the store first. The page is the
      phone's orders, with the requested status if one is given, newest
      first; the statistics count over all of the phone's orders. */
  function ListOrders(store: seq<Order>, rawPhone: string, q: OrdersQuery, now: int, id1: string, id2: string)
    : (res: (seq<Order>, OrderListing))
    ensures var phone := Phone.Format(rawPhone);
      && (|Filter(store, ForPhone(phone))| == 0 ==> res.0 == store + DummyOrders(phone, now, id1, id2))
      && (|Filter(store, ForPhone(phone))| > 0 ==> res.0 == store)
    ensures var (store', l) := res;
      var phone := Phone.Format(rawPhone);
      && (forall o :: o in l.orders ==>
            o in store' && o.customerPhone == phone && (Truthy(q.status) ==> o.status == q.status.value))
      && |l.orders| <= q.limit
      && (forall i, j :: 0 <= i < j < |l.orders| ==> l.orders[i].orderTime >= l.orders[j].orderTime)
      && l.stats.totalOrders == l.total
      && l.total == |SelectStatus(Filter(store', ForPhone(phone)), q.status)|
      && l.orders == Page(NewestFirst(SelectStatus(Filter(store', ForPhone(phone)), q.status)), q.offset, q.limit)
      && (l.hasMore <==> q.offset + q.limit < l.total)
      && (q.offset < l.total ==> |l.orders| == if q.offset + q.limit <= l.total then q.limit else l.total - q.offset)
      && l.stats.totalSpent == SpentBy(store', phone)
      && l.stats.pendingOrders == OpenCount(store', phone)
      && (l.stats.lastOrderDate.Some? <==> |l.orders| > 0)
      && (|l.orders| > 0 ==> l.stats.lastOrderDate == Some(l.orders[0].orderTime))
  {
    var phone := Phone.Format(rawPhone);
    var (store', customer) := WithExamples(store, phone, now, id1, id2);
    var sorted := NewestFirst(SelectStatus(customer, q.status));
    (store', PageListing(sorted, q, SpentBy(store', phone), OpenCount(store', phone)))
  }

  /** The page, the pagination block and the statistics of a listing, from
      the sorted selection and the customer's spend and open orders. */
  function PageListing(sorted: seq<Order>, q: OrdersQuery, spent: real, open: nat): (l: OrderListing)
    requires forall i, j :: 0 <= i < j < |sorted| ==> sorted[i].orderTime >= sorted[j].orderTime
    ensures l.orders == Page(sorted, q.offset, q.limit)
    ensures forall o :: o in l.orders ==> o in sorted
    ensures |l.orders| <= q.limit
    ensures forall i, j :: 0 <= i < j < |l.orders| ==> l.orders[i].orderTime >= l.orders[j].orderTime
    ensures l.total == |sorted| && l.stats.totalOrders == l.total
    ensures l.hasMore <==> q.offset + q.limit < l.total
    ensures q.offset < l.total ==> |l.orders| == if q.offset + q.limit <= l.total then q.limit else l.total - q.offset
    ensures l.stats.totalSpent == spent && l.stats.pendingOrders == open
    ensures l.stats.lastOrderDate.Some? <==> |l.orders| > 0
    ensures |l.orders| > 0 ==> l.stats.lastOrderDate == Some(l.orders[0].orderTime)
  {
    var total := |sorted|;
    var page := Page(sorted, q.offset, q.limit);
    assert forall o :: o in page ==> o in sorted by {
      forall o | o in page ensures o in sorted {
        var i :| 0 <= i < |page| && page[i] == o;
        assert sorted[q.offset + i] == o;
      }
    }
    var stats := OrderStats(total, spent, open, if |page| > 0 then Some(page[0].orderTime) else None);
    OrderListing(page, stats, q.limit, q.offset, total, HasMore(total, q.offset, q.limit))
  }

  /** Paging through a customer's orders loses and repeats nothing: two
      consecutive pages together are the page of both sizes. */
  lemma ListingPagesTile(store: seq<Order>, rawPhone: string, status: Option<string>, offset: nat, a: nat, b: nat,
                         now: int, id1: string, id2: string)
    requires |Filter(store, ForPhone(Phone.Format(rawPhone)))| > 0
    ensures ListOrders(store, rawPhone, OrdersQuery(status, a, offset), now, id1, id2).1.orders
          + ListOrders(store, rawPhone, OrdersQuery(status, b, offset + a), now, id1, id2).1.orders
         == ListOrders(store, rawPhone, OrdersQuery(status, a + b, offset), now, id1, id2).1.orders
  {
    var sorted := NewestFirst(SelectStatus(Filter(store, ForPhone(Phone.Format(rawPhone))), status));
    ListedPage(store, rawPhone, OrdersQuery(status, a, offset), now, id1, id2);
    ListedPage(store, rawPhone, OrdersQuery(status, b, offset + a), now, id1, id2);
    ListedPage(store, rawPhone, OrdersQuery(status, a + b, offset), now, id1, id2);
    PagesTile(sorted, offset, a, b);
  }

  /** For a customer who already has orders, the listing's page is the
      slice of the customer's sorted selection. */
  lemma ListedPage(store: seq<Order>, rawPhone: string, q: OrdersQuery, now: int, id1: string, id2: string)
    requires |Filter(store, ForPhone(Phone.Format(rawPhone)))| > 0
    ensures ListOrders(store, rawPhone, q, now, id1, id2).1.orders
         == Page(NewestFirst(SelectStatus(Filter(store, ForPhone(Phone.Format(rawPhone))), q.status)), q.offset, q.limit)
  {
    var res := ListOrders(store, rawPhone, q, now, id1, id2);
    assert res.0 == store;
  }

  /** A page from the start that is large enough holds every order of the
      customer with the requested status, and says there is no more. */
  lemma WholeListing(store: seq<Order>, rawPhone: string, q: OrdersQuery, now: int, id1: string, id2: string)
    requires q.offset == 0
    requires q.limit >= ListOrders(store, rawPhone, q, now, id1, id2).1.total
    ensures var (store', l) := ListOrders(store, rawPhone, q, now, id1, id2);
      && multiset(l.orders) == multiset(SelectStatus(Filter(store', ForPhone(Phone.Format(rawPhone))), q.status))
      && !l.hasMore
  {
    var (store', l) := ListOrders(store, rawPhone, q, now, id1, id2);
    var sorted := NewestFirst(SelectStatus(Filter(store', ForPhone(Phone.Format(rawPhone))), q.status));
    assert Page(sorted, 0, q.limit) == sorted;
  }

  /** A phone's orders, appending one order of that phone. */
  lemma CustomerOrdersAppend(store: seq<Order>, o: Order)
    ensures Filter(store + [o], ForPhone(o.customerPhone)) == Filter(store, ForPhone(o.customerPhone)) + [o]
  {
    FilterAppend(store, [o], ForPhone(o.customerPhone));
    assert Filter([o], ForPhone(o.customerPhone)) == [o];
  }

  /** A newly placed order counts as open and does not count as spend:
      it raises the customer's open orders by one and leaves the delivered
      total as it was. */
  lemma PlacedOrderIsOpenNotSpent(store: seq<Order>, o: Order)
    requires o.status == "pending"
    ensures OpenCount(store + [o], o.customerPhone) == OpenCount(store, o.customerPhone) + 1
    ensures SpentBy(store + [o], o.customerPhone) == SpentBy(store, o.customerPhone)
  {
    var mine := Filter(store, ForPhone(o.customerPhone));
    CustomerOrdersAppend(store, o);
    FilterAppend(mine, [o], IsOpen);
    FilterAppend(mine, [o], IsDelivered);
    assert Filter([o], IsOpen) == [o];
    assert Filter([o], IsDelivered) == [];
    assert Filter(mine, IsDelivered) + [] == Filter(mine, IsDelivered);
  }

  /** The example orders are invented at most once per phone: after a
      listing, the store holds orders of the phone and a second listing
      leaves it as it is. */
  lemma DummyOrdersOnlyOnce(store: seq<Order>, rawPhone: string, q1: OrdersQuery, q2: OrdersQuery,
                            now1: int, now2: int, a1: string, a2: string, b1: string, b2: string)
    ensures var s1 := ListOrders(store, rawPhone, q1, now1, a1, a2).0;
      && |Filter(s1, ForPhone(Phone.Format(rawPhone)))| > 0
      && ListOrders(s1, rawPhone, q2, now2, b1, b2).0 == s1
  {
    var phone := Phone.Format(rawPhone);
    var s1 := ListOrders(store, rawPhone, q1, now1, a1, a2).0;
    if |Filter(store, ForPhone(phone))| == 0 {
      var d := DummyOrders(phone, now1, a1, a2);
      FilterMembers(s1, ForPhone(phone));
      assert d[0] in s1 && ForPhone(phone)(d[0]);
    }
  }

  lemma ExamplesAreNewestFirst(phone: string, now: int, id1: string, id2: string)
    ensures var d := DummyOrders(phone, now, id1, id2); NewestFirst(d) == d
  {
    var d := DummyOrders(phone, now, id1, id2);
    assert d[1..] == [d[1]];
    assert Sorting.Sort([d[1]], Newer) == [d[1]];
  }

  lemma ExamplesAreTheCustomersOrders(store: seq<Order>, phone: string, now: int, id1: string, id2: string)
    requires |Filter(store, ForPhone(phone))| == 0
    ensures Filter(store + DummyOrders(phone, now, id1, id2), ForPhone(phone)) == DummyOrders(phone, now, id1, id2)
  {
    var d := DummyOrders(phone, now, id1, id2);
    FilterAppend(store, d, ForPhone(phone));
    FilterKeepsAll(d, ForPhone(phone));
  }

  lemma ExamplesStats(phone: string, now: int, id1: string, id2: string)
    ensures var d := DummyOrders(phone, now, id1, id2);
      SumTotals(Filter(d, IsDelivered)) == 155.0 && |Filter(d, IsOpen)| == 0
  {
    var d := DummyOrders(phone, now, id1, id2);
    FilterKeepsAll(d, IsDelivered);
    assert d[..1] == [d[0]];
    assert [d[0]][..0] == [];
    assert SumTotals([d[0]]) == 85.0;
    assert SumTotals(d) == 155.0;
    assert !IsOpen(d[0]) && !IsOpen(d[1]);
    assert d[1..][1..] == [];
    assert Filter(d[1..], IsOpen) == [];
  }

  /** A customer with no orders is shown the two example orders, newest
      first, with 155 delivered and nothing open. */
  lemma FirstListingShowsExamples(store: seq<Order>, rawPhone: string, now: int, id1: string, id2: string)
    requires |Filter(store, ForPhone(Phone.Format(rawPhone)))| == 0
    ensures var l := ListOrders(store, rawPhone, DefaultQuery(None), now, id1, id2).1;
      && l.orders == DummyOrders(Phone.Format(rawPhone), now, id1, id2)
      && l.stats.totalSpent == 155.0 && l.stats.pendingOrders == 0
      && l.total == 2 && !l.hasMore
  {
    var phone := Phone.Format(rawPhone);
    var d := DummyOrders(phone, now, id1, id2);
    ExamplesAreNewestFirst(phone, now, id1, id2);
    ExamplesAreTheCustomersOrders(store, phone, now, id1, id2);
    ExamplesStats(phone, now, id1, id2);
    assert WithExamples(store, phone, now, id1, id2) == (store + d, d);
    assert SelectStatus(d, None) == d;
    assert Page(d, 0, 20) == d;
  }
}
