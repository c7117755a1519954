/** `Array.prototype.sort` with a comparator, as every listing of the
    system uses it. Since ECMAScript 2019 the sort is stable, so for a
    comparator that is a strict weak order the result is the stable
    insertion sort below: `lt(a, b)` is "the comparator returns a negative
    number for (a, b)". */
module Sorting {
  import opened Common

  /** The comparator is a strict weak order: asymmetric, and "not before"
      is transitive. */
  ghost predicate StrictWeakOrder<T(!new)>(lt: (T, T) -> bool) {
    && (forall a, b :: lt(a, b) ==> !lt(b, a))
    && (forall a, b, c :: lt(a, c) ==> lt(a, b) || lt(b, c))
  }

  /** Neither element goes before the other: the comparator returns 0. */
  predicate Tied<T>(lt: (T, T) -> bool, a: T, b: T) {
    !lt(a, b) && !lt(b, a)
  }

  ghost predicate SortedBy<T>(lt: (T, T) -> bool, s: seq<T>) {
    forall i, j :: 0 <= i < j < |s| ==> !lt(s[j], s[i])
  }

  /** Places `x` in front of the first element that does not go strictly
      before it; so `x` stays ahead of the elements it is tied with. */
  function Insert<T>(x: T, ys: seq<T>, lt: (T, T) -> bool): (r: seq<T>)
    ensures |r| == |ys| + 1
    ensures multiset(r) == multiset(ys) + multiset{x}
  {
    if |ys| == 0 then [x]
    else if lt(ys[0], x) then
      var rest := Insert(x, ys[1..], lt);
      assert ys == [ys[0]] + ys[1..];
      [ys[0]] + rest
    else [x] + ys
  }

  function Sort<T>(s: seq<T>, lt: (T, T) -> bool): (r: seq<T>)
    ensures |r| == |s|
    ensures multiset(r) == multiset(s)
  {
    if |s| == 0 then []
    else
      var rest := Sort(s[1..], lt);
      assert s == [s[0]] + s[1..];
      Insert(s[0], rest, lt)
  }

  /** The elements of `s` tied with `c`, in order. */
  function TiedWith<T>(s: seq<T>, lt: (T, T) -> bool, c: T): (r: seq<T>)
    ensures |r| <= |s|
    ensures forall i :: 0 <= i < |r| ==> Tied(lt, r[i], c)
  {
    if |s| == 0 then []
    else if Tied(lt, s[0], c) then [s[0]] + TiedWith(s[1..], lt, c)
    else TiedWith(s[1..], lt, c)
  }

  lemma {:induction false} InsertSorted<T(!new)>(x: T, ys: seq<T>, lt: (T, T) -> bool)
    requires StrictWeakOrder(lt)
    requires SortedBy(lt, ys)
    ensures SortedBy(lt, Insert(x, ys, lt))
  {
    if |ys| > 0 {
      var r := Insert(x, ys, lt);
      if lt(ys[0], x) {
        var rest := Insert(x, ys[1..], lt);
        InsertSorted(x, ys[1..], lt);
        forall j | 0 <= j < |rest|
          ensures !lt(rest[j], ys[0])
        {
          assert rest[j] in multiset(rest);
          if rest[j] != x {
            assert rest[j] in multiset(ys[1..]);
            var k :| 0 <= k < |ys[1..]| && ys[1..][k] == rest[j];
            assert ys[k + 1] == rest[j];
          }
        }
      } else {
        forall j | 0 <= j < |ys|
          ensures !lt(ys[j], x)
        {
          if j > 0 {
            assert !lt(ys[j], ys[0]);
          }
        }
      }
    }
  }

  /** The sort orders its result by the comparator. */
  lemma {:induction false} SortSorted<T(!new)>(s: seq<T>, lt: (T, T) -> bool)
    requires StrictWeakOrder(lt)
    ensures SortedBy(lt, Sort(s, lt))
  {
    if |s| > 0 {
      SortSorted(s[1..], lt);
      InsertSorted(s[0], Sort(s[1..], lt), lt);
    }
  }

  lemma {:induction false} InsertTiedWith<T(!new)>(x: T, ys: seq<T>, lt: (T, T) -> bool, c: T)
    requires StrictWeakOrder(lt)
    ensures TiedWith(Insert(x, ys, lt), lt, c)
         == (if Tied(lt, x, c) then [x] else []) + TiedWith(ys, lt, c)
  {
    if |ys| > 0 && lt(ys[0], x) {
      InsertTiedWith(x, ys[1..], lt, c);
      var r := Insert(x, ys, lt);
      assert r[0] == ys[0] && r[1..] == Insert(x, ys[1..], lt);
      if Tied(lt, x, c) {
        // ys[0] goes strictly before x, and x is tied with c, so ys[0] is not.
        assert !Tied(lt, ys[0], c);
      }
    } else if |ys| > 0 {
      var r := Insert(x, ys, lt);
      assert r[0] == x && r[1..] == ys;
    }
  }

  /** Stability: for every class of tied elements, the sort keeps their
      relative order from the input. */
  lemma {:induction false} SortStable<T(!new)>(s: seq<T>, lt: (T, T) -> bool, c: T)
    requires StrictWeakOrder(lt)
    ensures TiedWith(Sort(s, lt), lt, c) == TiedWith(s, lt, c)
  {
    if |s| > 0 {
      SortStable(s[1..], lt, c);
      InsertTiedWith(s[0], Sort(s[1..], lt), lt, c);
    }
  }
}
