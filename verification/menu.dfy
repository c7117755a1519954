/** The menu endpoints: the filtered and popularity-ordered listing
    `GET /menu`, the item page `GET /menu/items/:id` with its similar items,
    and `GET /menu/popular`. */
module Menu {
  import opened Common
  import Sorting

  /** The fields of a menu item the endpoints read. `texts` are the names
      and descriptions in the three languages, the fields the search looks
      into. */
  datatype MenuItem = MenuItem(
    id: string,
    categoryId: string,
    texts: seq<string>,
    price: real,
    preparationTime: int,
    isAvailable: bool,
    isPopular: bool)

  /** `haystack.includes(needle)`. */
  predicate Includes(haystack: string, needle: string)
    decreases |haystack|
  {
    StartsWith(haystack, needle) || (|haystack| > 0 && Includes(haystack[1..], needle))
  }

  /** The query string of the listing; every field may be absent. */
  datatype MenuQuery = MenuQuery(category: Option<string>, search: Option<string>, availableOnly: Option<string>)

  predicate AvailableOnly(q: MenuQuery) {
    q.availableOnly == Some("true")
  }

  /** The search test: some name or description, lower-cased, contains
      the lower-cased search term. Lower-casing is a parameter. */
  predicate MatchesSearch(item: MenuItem, term: string, lower: string -> string) {
    exists k :: 0 <= k < |item.texts| && Includes(lower(item.texts[k]), lower(term))
  }

  /** What the three filters ask of an item, each only when its query field
      is truthy ('true', for `available_only`). */
  predicate Selected(item: MenuItem, q: MenuQuery, lower: string -> string) {
    && (Truthy(q.category) ==> item.categoryId == q.category.value)
    && (Truthy(q.search) ==> MatchesSearch(item, q.search.value, lower))
    && (AvailableOnly(q) ==> item.isAvailable)
  }

  function InCategory(category: string): MenuItem -> bool {
    (i: MenuItem) => i.categoryId == category
  }

  function MatchingSearch(term: string, lower: string -> string): MenuItem -> bool {
    (i: MenuItem) => MatchesSearch(i, term, lower)
  }

  predicate IsAvailable(i: MenuItem) {
    i.isAvailable
  }

  predicate IsPopular(i: MenuItem) {
    i.isPopular
  }

  predicate NotPopular(i: MenuItem) {
    !i.isPopular
  }

  /** The popularity comparator: popular before not popular, all else tied. */
  predicate PopularFirst(a: MenuItem, b: MenuItem) {
    a.isPopular && !b.isPopular
  }

  /** The three filters in the handler's order. */
  function FilterItems(items: seq<MenuItem>, q: MenuQuery, lower: string -> string): (r: seq<MenuItem>)
    ensures r == Filter(items, (x: MenuItem) => Selected(x, q, lower))
    ensures forall x :: multiset(r)[x] == if Selected(x, q, lower) then multiset(items)[x] else 0
    ensures forall x :: x in r <==> x in items && Selected(x, q, lower)
  {
    var r := ByAvailability(BySearch(ByCategory(items, q), q, lower), q);
    FilterItemsInOrder(items, q, lower);
    assert forall x :: multiset(r)[x] == if Selected(x, q, lower) then multiset(items)[x] else 0 by {
      forall x ensures multiset(r)[x] == if Selected(x, q, lower) then multiset(items)[x] else 0 {
        FilterItemsCount(items, q, lower, x);
      }
    }
    assert forall x :: x in r <==> x in items && Selected(x, q, lower) by {
      forall x ensures x in r <==> x in items && Selected(x, q, lower) {
        assert x in r <==> x in multiset(r);
        assert x in items <==> x in multiset(items);
      }
    }
    r
  }

  function ByCategory(items: seq<MenuItem>, q: MenuQuery): seq<MenuItem> {
    if Truthy(q.category) then Filter(items, InCategory(q.category.value)) else items
  }

  function BySearch(items: seq<MenuItem>, q: MenuQuery, lower: string -> string): seq<MenuItem> {
    if Truthy(q.search) then Filter(items, MatchingSearch(q.search.value, lower)) else items
  }

  function ByAvailability(items: seq<MenuItem>, q: MenuQuery): seq<MenuItem> {
    if AvailableOnly(q) then Filter(items, IsAvailable) else items
  }

  /** The three filters in a row are the single filter by `Selected`, so
      the selection keeps catalog order. */
  lemma FilterItemsInOrder(items: seq<MenuItem>, q: MenuQuery, lower: string -> string)
    ensures ByAvailability(BySearch(ByCategory(items, q), q, lower), q)
         == Filter(items, (x: MenuItem) => Selected(x, q, lower))
  {
    var cat := (x: MenuItem) => Truthy(q.category) ==> x.categoryId == q.category.value;
    var srch := (x: MenuItem) => Truthy(q.search) ==> MatchesSearch(x, q.search.value, lower);
    var avail := (x: MenuItem) => AvailableOnly(q) ==> x.isAvailable;
    var both := (x: MenuItem) => cat(x) && srch(x);
    var a := ByCategory(items, q);
    if Truthy(q.category) {
      FilterSame(items, InCategory(q.category.value), cat);
    } else {
      FilterKeepsAll(items, cat);
    }
    assert a == Filter(items, cat);
    var b := BySearch(a, q, lower);
    if Truthy(q.search) {
      FilterSame(a, MatchingSearch(q.search.value, lower), srch);
    } else {
      FilterKeepsAll(a, srch);
    }
    assert b == Filter(a, srch);
    FilterFilter(items, cat, srch, both);
    assert b == Filter(items, both);
    var c := ByAvailability(b, q);
    if AvailableOnly(q) {
      FilterSame(b, IsAvailable, avail);
    } else {
      FilterKeepsAll(b, avail);
    }
    assert c == Filter(b, avail);
    FilterFilter(items, both, avail, (x: MenuItem) => Selected(x, q, lower));
  }

  /** Filters by predicates that agree everywhere are equal. */
  lemma {:induction false} FilterSame(s: seq<MenuItem>, p: MenuItem -> bool, q: MenuItem -> bool)
    requires forall x :: p(x) == q(x)
    ensures Filter(s, p) == Filter(s, q)
  {
    if |s| > 0 {
      FilterSame(s[1..], p, q);
    }
  }

  lemma FilterItemsCount(items: seq<MenuItem>, q: MenuQuery, lower: string -> string, x: MenuItem)
    ensures multiset(ByAvailability(BySearch(ByCategory(items, q), q, lower), q))[x]
         == if Selected(x, q, lower) then multiset(items)[x] else 0
  {
    var a := ByCategory(items, q);
    var b := BySearch(a, q, lower);
    if Truthy(q.category) {
      FilterCount(items, InCategory(q.category.value));
    }
    if Truthy(q.search) {
      FilterCount(a, MatchingSearch(q.search.value, lower));
    }
    if AvailableOnly(q) {
      FilterCount(b, IsAvailable);
    }
  }

  /** The comparator ties exactly the items of equal popularity. */
  lemma PopularFirstIsStrictWeakOrder()
    ensures Sorting.StrictWeakOrder(PopularFirst)
  {
  }

  /** The tie class of an item under the comparator is its popularity group. */
  lemma {:induction false} TiedWithIsGroup(s: seq<MenuItem>, c: MenuItem)
    ensures Sorting.TiedWith(s, PopularFirst, c) == Filter(s, if c.isPopular then IsPopular else NotPopular)
  {
    if |s| > 0 {
      TiedWithIsGroup(s[1..], c);
    }
  }

  /** All popular items of `s` come before all its other items. */
  ghost predicate Grouped(s: seq<MenuItem>) {
    forall i, j :: 0 <= i < j < |s| && s[j].isPopular ==> s[i].isPopular
  }

  /** A sequence whose popular items all come first is its popular items
      followed by the others. */
  lemma {:induction false} GroupedIsPartition(s: seq<MenuItem>)
    requires Grouped(s)
    ensures s == Filter(s, IsPopular) + Filter(s, NotPopular)
  {
    if |s| > 0 {
      if s[0].isPopular {
        GroupedTail(s);
        var t := s[1..];
        GroupedIsPartition(t);
        assert Filter(s, IsPopular) == [s[0]] + Filter(t, IsPopular);
        assert Filter(s, NotPopular) == Filter(t, NotPopular);
        Associative([s[0]], Filter(t, IsPopular), Filter(t, NotPopular));
        assert s == [s[0]] + t;
      } else {
        NoneAfterUnpopular(s);
      }
    }
  }

  lemma Associative<T>(a: seq<T>, b: seq<T>, c: seq<T>)
    ensures (a + b) + c == a + (b + c)
  {
  }

  lemma GroupedTail(s: seq<MenuItem>)
    requires |s| > 0 && Grouped(s)
    ensures Grouped(s[1..])
  {
    var t := s[1..];
    forall i, j | 0 <= i < j < |t| && t[j].isPopular ensures t[i].isPopular {
      assert t[j] == s[j + 1] && t[i] == s[i + 1];
    }
  }

  lemma NoneAfterUnpopular(s: seq<MenuItem>)
    requires |s| > 0 && Grouped(s) && !s[0].isPopular
    ensures s == Filter(s, IsPopular) + Filter(s, NotPopular)
  {
    assert forall i :: 0 <= i < |s| ==> NotPopular(s[i]);
    FilterKeepsAll(s, NotPopular);
    assert |Filter(s, IsPopular)| == 0 by {
      if |Filter(s, IsPopular)| > 0 {
        assert false;
      }
    }
  }

  /** The popularity sort is the stable partition: popular items first,
      then the others, each group in its original order. */
  lemma PopularSortIsStablePartition(s: seq<MenuItem>)
    ensures Sorting.Sort(s, PopularFirst) == Filter(s, IsPopular) + Filter(s, NotPopular)
  {
    var r := Sorting.Sort(s, PopularFirst);
    PopularFirstIsStrictWeakOrder();
    Sorting.SortSorted(s, PopularFirst);
    assert Grouped(r) by {
      forall i, j | 0 <= i < j < |r| && r[j].isPopular ensures r[i].isPopular {
        assert !PopularFirst(r[j], r[i]);
      }
    }
    GroupedIsPartition(r);
    var p := MenuItem("", "", [], 0.0, 0, false, true);
    var n := p.(isPopular := false);
    Sorting.SortStable(s, PopularFirst, p);
    Sorting.SortStable(s, PopularFirst, n);
    TiedWithIsGroup(r, p);
    TiedWithIsGroup(s, p);
    TiedWithIsGroup(r, n);
    TiedWithIsGroup(s, n);
  }

  /** The `filters` block echoes the query. */
  datatype Filters = Filters(category: Option<string>, search: Option<string>, availableOnly: bool)

  datatype MenuListing = MenuListing(items: seq<MenuItem>, totalItems: int, filters: Filters)

  /** `GET /menu`: the selected items, popular ones first, each group in
      catalog order; `totalItems` counts what is returned. */
  function GetMenu(items: seq<MenuItem>, q: MenuQuery, lower: string -> string): (r: MenuListing)
    ensures r.totalItems == |r.items|
    ensures forall x :: x in r.items <==> x in items && Selected(x, q, lower)
    ensures multiset(r.items) == multiset(FilterItems(items, q, lower))
    ensures r.items == Filter(FilterItems(items, q, lower), IsPopular)
                     + Filter(FilterItems(items, q, lower), NotPopular)
    ensures r.filters.availableOnly <==> AvailableOnly(q)
    ensures r.filters.category.Some? <==> Truthy(q.category)
    ensures r.filters.search.Some? <==> Truthy(q.search)
    ensures Truthy(q.category) ==> r.filters.category == q.category
    ensures Truthy(q.search) ==> r.filters.search == q.search
  {
    var selected := FilterItems(items, q, lower);
    var sorted := Sorting.Sort(selected, PopularFirst);
    PopularSortIsStablePartition(selected);
    assert forall x :: x in sorted <==> x in selected by {
      forall x ensures x in sorted <==> x in selected {
        assert x in sorted <==> x in multiset(sorted);
      }
    }
    MenuListing(sorted, |sorted|,
      Filters(if Truthy(q.category) then q.category else None,
              if Truthy(q.search) then q.search else None,
              AvailableOnly(q)))
  }

  function HasId(id: string): MenuItem -> bool {
    (i: MenuItem) => i.id == id
  }

  /** The similar-items test: same category, another id. */
  function SimilarTo(item: MenuItem): MenuItem -> bool {
    (i: MenuItem) => i.categoryId == item.categoryId && i.id != item.id
  }

  const MaxSimilar: nat := 4
  const MaxPopular: nat := 8

  datatype ItemDetail = ItemDetail(item: MenuItem, similarItems: seq<MenuItem>)

  /** `GET /menu/items/:id`: the first item with the id, or not found; with
      up to four other items of its category, in catalog order. */
  function GetItem(items: seq<MenuItem>, id: string): (r: Option<ItemDetail>)
    ensures r.None? <==> forall k :: 0 <= k < |items| ==> items[k].id != id
    ensures r.Some? ==>
      exists k :: 0 <= k < |items| && r.value.item == items[k] && forall j :: 0 <= j < k ==> items[j].id != id
    ensures r.Some? ==>
      && r.value.item in items && r.value.item.id == id
      && |r.value.similarItems| <= MaxSimilar
      && (forall s :: s in r.value.similarItems ==>
            s in items && s.categoryId == r.value.item.categoryId && s.id != id)
      && r.value.similarItems <= Filter(items, SimilarTo(r.value.item))
      && (|r.value.similarItems| == MaxSimilar
          || r.value.similarItems == Filter(items, SimilarTo(r.value.item)))
  {
    match FindIndex(items, HasId(id))
    case None => None
    case Some(k) =>
      var item := items[k];
      var similar := Take(Filter(items, SimilarTo(item)), MaxSimilar);
      FilterMembers(items, SimilarTo(item));
      assert forall s :: s in similar ==> s in Filter(items, SimilarTo(item)) by {
        forall s | s in similar ensures s in Filter(items, SimilarTo(item)) {
          var j :| 0 <= j < |similar| && similar[j] == s;
          assert Filter(items, SimilarTo(item))[j] == s;
        }
      }
      Some(ItemDetail(item, similar))
  }

  predicate PopularAndAvailable(i: MenuItem) {
    i.isPopular && i.isAvailable
  }

  /** `GET /menu/popular`: the first eight items that are popular and
      available, in catalog order. */
  function Popular(items: seq<MenuItem>): (r: seq<MenuItem>)
    ensures |r| <= MaxPopular
    ensures forall x :: x in r ==> x in items && x.isPopular && x.isAvailable
    ensures r <= Filter(items, PopularAndAvailable)
    ensures |r| < MaxPopular ==> forall x :: x in items && x.isPopular && x.isAvailable ==> x in r
    ensures |r| == MaxPopular || r == Filter(items, PopularAndAvailable)
  {
    var all := Filter(items, PopularAndAvailable);
    var r := Take(all, MaxPopular);
    FilterMembers(items, PopularAndAvailable);
    assert forall x :: x in r ==> x in all by {
      forall x | x in r ensures x in all {
        var j :| 0 <= j < |r| && r[j] == x;
        assert all[j] == x;
      }
    }
    r
  }

  /** Every catalog item a query selects is listed by the menu, and can be
      fetched by its id: the item page shows an item with that id. */
  lemma ListedItemsCanBeFetched(items: seq<MenuItem>, q: MenuQuery, lower: string -> string, x: MenuItem)
    requires x in items && Selected(x, q, lower)
    ensures x in GetMenu(items, q, lower).items
    ensures GetItem(items, x.id).Some? && GetItem(items, x.id).value.item.id == x.id
  {
    var k :| 0 <= k < |items| && items[k] == x;
    assert items[k].id == x.id;
  }

  /** The popular endpoint shows the head of the menu listed with
      `available_only=true`: the popular available items come first there,
      in catalog order, and the endpoint keeps the first eight of them. */
  lemma PopularHeadsAvailableMenu(items: seq<MenuItem>, lower: string -> string)
    ensures Popular(items) <= GetMenu(items, MenuQuery(None, None, Some("true")), lower).items
  {
    var q := MenuQuery(None, None, Some("true"));
    var selected := FilterItems(items, q, lower);
    assert selected == Filter(items, IsAvailable);
    FilterFilter(items, IsAvailable, IsPopular, PopularAndAvailable);
    var head := Filter(selected, IsPopular);
    var listed := GetMenu(items, q, lower).items;
    assert listed == head + Filter(selected, NotPopular);
    assert Popular(items) <= head;
  }
}
