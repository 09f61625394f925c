/** The stable library sort, as insertion of each element after those it does not precede. */
module Sorting {
  ghost predicate StrictWeakOrder<T(!new)>(less: (T, T) -> bool) {
    && (forall a, b :: less(a, b) ==> !less(b, a))
    && (forall a, b, c :: !less(b, a) && !less(c, b) ==> !less(c, a))
  }

  ghost predicate Sorted<T>(s: seq<T>, less: (T, T) -> bool) {
    forall i, j :: 0 <= i < j < |s| ==> !less(s[j], s[i])
  }

  function Insert<T>(x: T, s: seq<T>, less: (T, T) -> bool): seq<T> {
    if s == [] then [x]
    else if less(x, s[0]) then [x] + s
    else [s[0]] + Insert(x, s[1..], less)
  }

  function Sort<T>(s: seq<T>, less: (T, T) -> bool): seq<T> {
    if s == [] then [] else Insert(s[|s| - 1], Sort(s[..|s| - 1], less), less)
  }

  lemma {:induction false} InsertKeepsElements<T>(x: T, s: seq<T>, less: (T, T) -> bool)
    ensures multiset(Insert(x, s, less)) == multiset(s) + multiset{x}
  {
    if s != [] && !less(x, s[0]) {
      InsertKeepsElements(x, s[1..], less);
      assert s == [s[0]] + s[1..];
    }
  }

  lemma {:induction false} SortKeepsElements<T>(s: seq<T>, less: (T, T) -> bool)
    ensures multiset(Sort(s, less)) == multiset(s)
  {
    if s != [] {
      SortKeepsElements(s[..|s| - 1], less);
      InsertKeepsElements(s[|s| - 1], Sort(s[..|s| - 1], less), less);
      assert s == s[..|s| - 1] + [s[|s| - 1]];
    }
  }

  lemma {:induction false} InsertSorts<T(!new)>(x: T, s: seq<T>, less: (T, T) -> bool)
    requires StrictWeakOrder(less) && Sorted(s, less)
    ensures Sorted(Insert(x, s, less), less)
  {
    if s != [] && !less(x, s[0]) {
      var rest := Insert(x, s[1..], less);
      InsertSorts(x, s[1..], less);
      InsertKeepsElements(x, s[1..], less);
      forall j | 0 <= j < |rest| ensures !less(rest[j], s[0]) {
        assert rest[j] in multiset(rest);
        assert rest[j] == x || rest[j] in s[1..];
      }
    }
  }

  lemma {:induction false} SortSorts<T(!new)>(s: seq<T>, less: (T, T) -> bool)
    requires StrictWeakOrder(less)
    ensures Sorted(Sort(s, less), less)
  {
    if s != [] {
      SortSorts(s[..|s| - 1], less);
      InsertSorts(s[|s| - 1], Sort(s[..|s| - 1], less), less);
    }
  }

  function Filter<T>(s: seq<T>, keep: T -> bool): seq<T> {
    if s == [] then [] else (if keep(s[0]) then [s[0]] else []) + Filter(s[1..], keep)
  }

  /** Elements none of which precedes another. */
  ghost predicate Tied<T(!new)>(less: (T, T) -> bool, keep: T -> bool) {
    forall a, b :: keep(a) && keep(b) ==> !less(a, b)
  }

  lemma {:induction false} FilterNothing<T>(s: seq<T>, keep: T -> bool)
    requires forall i :: 0 <= i < |s| ==> !keep(s[i])
    ensures Filter(s, keep) == []
  {
    if s != [] {
      FilterNothing(s[1..], keep);
    }
  }

  lemma {:induction false} FilterAppends<T>(s: seq<T>, x: T, keep: T -> bool)
    ensures Filter(s + [x], keep) == Filter(s, keep) + if keep(x) then [x] else []
  {
    if s == [] {
      assert s + [x] == [x];
    } else {
      FilterAppends(s[1..], x, keep);
      assert (s + [x])[1..] == s[1..] + [x];
    }
  }

  lemma FilterCons<T>(x: T, s: seq<T>, keep: T -> bool)
    ensures Filter([x] + s, keep) == (if keep(x) then [x] else []) + Filter(s, keep)
  {
    assert ([x] + s)[1..] == s;
  }

  /** An element that precedes the first of a sorted sequence ties with none of it. */
  lemma NoneTies<T(!new)>(x: T, s: seq<T>, less: (T, T) -> bool, keep: T -> bool)
    requires StrictWeakOrder(less) && Sorted(s, less) && Tied(less, keep) && s != [] && less(x, s[0]) && keep(x)
    ensures Filter(s, keep) == []
  {
    forall i | 0 <= i < |s| ensures !keep(s[i]) {
      assert i > 0 ==> !less(s[i], s[0]);
      assert less(x, s[i]);
    }
    FilterNothing(s, keep);
  }

  lemma {:induction false} InsertIsStable<T(!new)>(x: T, s: seq<T>, less: (T, T) -> bool, keep: T -> bool)
    requires StrictWeakOrder(less) && Sorted(s, less) && Tied(less, keep)
    ensures Filter(Insert(x, s, less), keep) == Filter(s, keep) + if keep(x) then [x] else []
  {
    if s == [] {
      FilterCons(x, [], keep);
    } else if less(x, s[0]) {
      FilterCons(x, s, keep);
      if keep(x) {
        NoneTies(x, s, less, keep);
      }
    } else {
      InsertIsStable(x, s[1..], less, keep);
      FilterCons(s[0], Insert(x, s[1..], less), keep);
      Regroup(if keep(s[0]) then [s[0]] else [], Filter(s[1..], keep), if keep(x) then [x] else []);
    }
  }

  lemma Regroup<T>(a: seq<T>, b: seq<T>, c: seq<T>)
    ensures a + (b + c) == a + b + c
  {
  }

  /** Elements that tie keep their order. */
  lemma {:induction false} SortIsStable<T(!new)>(s: seq<T>, less: (T, T) -> bool, keep: T -> bool)
    requires StrictWeakOrder(less) && Tied(less, keep)
    ensures Filter(Sort(s, less), keep) == Filter(s, keep)
  {
    if s != [] {
      var n := |s| - 1;
      SortIsStable(s[..n], less, keep);
      SortSorts(s[..n], less);
      InsertIsStable(s[n], Sort(s[..n], less), less, keep);
      FilterAppends(s[..n], s[n], keep);
      assert s == s[..n] + [s[n]];
    }
  }
}
