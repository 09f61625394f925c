/** How often elements occur in sequences, and sequences shared out between two others. */
module Bags {
  /** How often an element occurs. */
  function Tally<T(==)>(s: seq<T>, x: T): nat {
    if s == [] then 0 else Tally(s[..|s| - 1], x) + (if s[|s| - 1] == x then 1 else 0)
  }

  lemma {:induction false} TallyOfSum<T>(a: seq<T>, b: seq<T>, x: T)
    ensures Tally(a + b, x) == Tally(a, x) + Tally(b, x)
  {
    if b == [] {
      assert a + b == a;
    } else {
      var n := |b| - 1;
      TallyOfSum(a, b[..n], x);
      assert (a + b)[..|a + b| - 1] == a + b[..n];
    }
  }

  lemma {:induction false} TallyIsMultiplicity<T>(s: seq<T>, x: T)
    ensures Tally(s, x) == multiset(s)[x]
  {
    if s != [] {
      var n := |s| - 1;
      TallyIsMultiplicity(s[..n], x);
      assert s == s[..n] + [s[n]];
    }
  }

  /** Every element of `whole` is in `a` or in `b`, as often as it occurs. */
  ghost predicate Shares<T(!new)>(a: seq<T>, b: seq<T>, whole: seq<T>) {
    forall x :: Tally(a, x) + Tally(b, x) == Tally(whole, x)
  }

  lemma SharesElements<T(!new)>(a: seq<T>, b: seq<T>, whole: seq<T>)
    requires Shares(a, b, whole)
    ensures multiset(a) + multiset(b) == multiset(whole)
  {
    forall x ensures (multiset(a) + multiset(b))[x] == multiset(whole)[x] {
      TallyIsMultiplicity(a, x);
      TallyIsMultiplicity(b, x);
      TallyIsMultiplicity(whole, x);
    }
  }

  /** Adding the same elements on one side and to the whole. */
  lemma SharesMore<T(!new)>(a: seq<T>, b: seq<T>, whole: seq<T>, c: seq<T>, d: seq<T>, more: seq<T>)
    requires Shares(a, b, whole) && Shares(c, d, more)
    ensures Shares(a + c, b + d, whole + more)
  {
    forall x ensures Tally(a + c, x) + Tally(b + d, x) == Tally(whole + more, x) {
      TallyOfSum(a, c, x);
      TallyOfSum(b, d, x);
      TallyOfSum(whole, more, x);
    }
  }

  /** What is left over may be shared out further. */
  lemma SharesAgain<T(!new)>(a: seq<T>, b: seq<T>, part: seq<T>, tail: seq<T>, whole: seq<T>, c: seq<T>, d: seq<T>)
    requires Shares(a, b + (part + tail), whole) && Shares(c, d, part)
    ensures Shares(a + c, b + d + tail, whole)
  {
    forall x ensures Tally(a + c, x) + Tally(b + d + tail, x) == Tally(whole, x) {
      TallyOfSum(a, c, x);
      TallyOfSum(b, d, x);
      TallyOfSum(b + d, tail, x);
      TallyOfSum(b, part + tail, x);
      TallyOfSum(part, tail, x);
    }
  }

  /** How many numbers below `n` count. */
  function CountBelow(n: nat, counts: nat -> bool): nat {
    if n == 0 then 0 else CountBelow(n - 1, counts) + if counts(n - 1) then 1 else 0
  }

  lemma {:induction false} CountIsCardinality(n: nat, counts: nat -> bool)
    ensures CountBelow(n, counts) == |set i: nat | i < n && counts(i)|
  {
    if n > 0 {
      CountIsCardinality(n - 1, counts);
      var before, after := set i: nat | i < n - 1 && counts(i), set i: nat | i < n && counts(i);
      assert after == before + if counts(n - 1) then {n - 1} else {};
    }
  }
}
