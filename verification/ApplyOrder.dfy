/**
 Ordering of writes and deletes under a space bound. Writes keep their order; the largest pending
 delete is done whenever the next write would not fit. The schedule is optimal: no schedule of the
 same writes does fewer deletes before any write, and if any schedule fits, this one does.
 */
module ApplyOrder {
  import Sorting
  import opened Bags
  import Text

  datatype Write = Write(path: string, needed: int)
  datatype Delete = Delete(path: string, freed: int)
  datatype Step = WriteStep(write: Write) | DeleteStep(delete: Delete)

  // ---------------------------------------------------------------- schedules

  function WritesOf(steps: seq<Step>): seq<Write> {
    if steps == [] then []
    else (if steps[0].WriteStep? then [steps[0].write] else []) + WritesOf(steps[1..])
  }

  function DeletesOf(steps: seq<Step>): seq<Delete> {
    if steps == [] then []
    else (if steps[0].DeleteStep? then [steps[0].delete] else []) + DeletesOf(steps[1..])
  }

  function DeleteSteps(ds: seq<Delete>): seq<Step> {
    seq(|ds|, i requires 0 <= i < |ds| => DeleteStep(ds[i]))
  }

  /** No write finds less space than it needs. */
  predicate Fits(steps: seq<Step>, available: int) {
    |steps| == 0 ||
    match steps[0]
    case WriteStep(w) => w.needed <= available && Fits(steps[1..], available - w.needed)
    case DeleteStep(d) => Fits(steps[1..], available + d.freed)
  }

  /** How many deletes come before write number `i`. */
  function DeletesBefore(steps: seq<Step>, i: nat): nat {
    if |steps| == 0 then 0
    else match steps[0]
         case WriteStep(_) => if i == 0 then 0 else DeletesBefore(steps[1..], i - 1)
         case DeleteStep(_) => 1 + DeletesBefore(steps[1..], i)
  }

  /** A schedule of these writes, in this order, with at most these deletes. */
  ghost predicate Schedules(steps: seq<Step>, writes: seq<Write>, deletes: seq<Delete>) {
    WritesOf(steps) == writes && multiset(DeletesOf(steps)) <= multiset(deletes)
  }

  /** What the first `n` of these deletes free. */
  function Sum(ds: seq<Delete>, n: nat): int
    requires n <= |ds|
  {
    if n == 0 then 0 else Sum(ds, n - 1) + ds[n - 1].freed
  }

  // ---------------------------------------------------------------- largest first

  function BestIndex(ds: seq<Delete>): (best: nat)
    requires ds != []
    ensures best < |ds|
    ensures forall i :: 0 <= i < |ds| ==> ds[i].freed <= ds[best].freed
    ensures forall i :: 0 <= i < best ==> ds[i].freed < ds[best].freed
  {
    if |ds| == 1 then 0
    else
      var n := |ds| - 1;
      var best := BestIndex(ds[..n]);
      if ds[n].freed > ds[best].freed then n else best
  }

  method BestDeleteIndex(ds: seq<Delete>) returns (best: nat)
    requires ds != []
    ensures best == BestIndex(ds)
  {
    best := 0;
    for i := 1 to |ds|
      invariant best < i && best == BestIndex(ds[..i])
    {
      assert ds[..i + 1][..i] == ds[..i];
      if ds[i].freed > ds[best].freed {
        best := i;
      }
    }
    assert ds[..|ds|] == ds;
  }

  function RemoveAt<T>(s: seq<T>, i: nat): seq<T>
    requires i < |s|
  {
    s[..i] + s[i + 1..]
  }

  /** The deletes in the order in which the largest is picked first. */
  function Ranked(ds: seq<Delete>): seq<Delete>
    decreases |ds|
  {
    if ds == [] then [] else [ds[BestIndex(ds)]] + Ranked(RemoveAt(ds, BestIndex(ds)))
  }

  lemma RemoveAtElements<T>(s: seq<T>, i: nat)
    requires i < |s|
    ensures multiset(RemoveAt(s, i)) == multiset(s) - multiset{s[i]}
    ensures forall x :: x in RemoveAt(s, i) ==> x in s
  {
    assert s == s[..i] + [s[i]] + s[i + 1..];
  }

  lemma {:induction false} SumOfPrefix(a: seq<Delete>, b: seq<Delete>, n: nat)
    requires n <= |a| && n <= |b| && forall k :: 0 <= k < n ==> a[k] == b[k]
    ensures Sum(a, n) == Sum(b, n)
  {
    if n > 0 {
      SumOfPrefix(a, b, n - 1);
    }
  }

  lemma {:induction false} SumWithout(ds: seq<Delete>, i: nat, n: nat)
    requires i < n <= |ds|
    ensures Sum(RemoveAt(ds, i), n - 1) == Sum(ds, n) - ds[i].freed
  {
    if n == i + 1 {
      SumOfPrefix(RemoveAt(ds, i), ds, i);
    } else {
      SumWithout(ds, i, n - 1);
    }
  }

  lemma DropTop(ds: seq<Delete>, best: nat, chosen: seq<Delete>, i: nat)
    requires best < |ds| && i < |chosen| && multiset(chosen) <= multiset(ds)
    requires chosen[i] == ds[best] || ds[best] !in chosen
    ensures multiset(RemoveAt(chosen, i)) <= multiset(RemoveAt(ds, best))
  {
    RemoveAtElements(chosen, i);
    RemoveAtElements(ds, best);
    assert ds[best] in multiset(ds);
    assert chosen[i] != ds[best] ==> multiset(chosen)[ds[best]] == 0;
  }

  lemma SumFromTop(ds: seq<Delete>, n: nat)
    requires 0 < n <= |Ranked(ds)|
    ensures ds != [] && n - 1 <= |Ranked(RemoveAt(ds, BestIndex(ds)))|
    ensures Sum(Ranked(ds), n) == ds[BestIndex(ds)].freed + Sum(Ranked(RemoveAt(ds, BestIndex(ds))), n - 1)
  {
    var ranked := Ranked(ds);
    SumWithout(ranked, 0, n);
    assert RemoveAt(ranked, 0) == ranked[1..];
  }

  /** Any deletes free at most what as many of the largest ones free. */
  lemma {:induction false} LargestFreeMost(ds: seq<Delete>, chosen: seq<Delete>)
    requires multiset(chosen) <= multiset(ds)
    ensures |chosen| <= |Ranked(ds)| && Sum(chosen, |chosen|) <= Sum(Ranked(ds), |chosen|)
    decreases |ds|
  {
    if chosen != [] {
      assert chosen[0] in multiset(chosen) && chosen[0] in ds;
      var best := BestIndex(ds);
      var i := if ds[best] in chosen then Position(chosen, ds[best]) else 0;
      DropTop(ds, best, chosen, i);
      LargestFreeMost(RemoveAt(ds, best), RemoveAt(chosen, i));
      SumWithout(chosen, i, |chosen|);
      SumFromTop(ds, |chosen|);
      assert chosen[i] in multiset(chosen) && chosen[i] in ds;
    }
  }

  function Position<T(==)>(s: seq<T>, x: T): (i: nat)
    requires x in s
    ensures i < |s| && s[i] == x
  {
    if s[0] == x then 0 else 1 + Position(s[1..], x)
  }

  // ---------------------------------------------------------------- the greedy schedule

  /** The steps up to the last write: the largest pending delete whenever the next write does not fit. */
  function Greedy(writes: seq<Write>, pending: seq<Delete>, available: int): seq<Step>
    decreases |writes| + |pending|
  {
    if |writes| == 0 then []
    else if available < writes[0].needed && |pending| > 0 then
      var best := BestIndex(pending);
      [DeleteStep(pending[best])] + Greedy(writes, RemoveAt(pending, best), available + pending[best].freed)
    else [WriteStep(writes[0])] + Greedy(writes[1..], pending, available - writes[0].needed)
  }

  lemma RankedHead(rest: seq<Delete>, ranked: seq<Delete>, k: nat)
    requires rest != [] && k <= |ranked| && Ranked(rest) == ranked[k..]
    ensures k < |ranked| && ranked[k] == rest[BestIndex(rest)] &&
            ranked[k + 1..] == Ranked(RemoveAt(rest, BestIndex(rest)))
  {
  }

  /** The plan fits and does no more deletes than the other before write number `i` of `n`. */
  ghost predicate AtMost(plan: seq<Step>, available: int, n: nat, i: nat, other: seq<Step>) {
    Fits(plan, available) && (i < n ==> DeletesBefore(plan, i) <= DeletesBefore(other, i))
  }

  /** Whether the greedy schedule fits. */
  ghost predicate GreedyFits(writes: seq<Write>, pending: seq<Delete>, available: int)
    decreases |writes| + |pending|
  {
    if |writes| == 0 then true
    else if available < writes[0].needed && |pending| > 0 then
      var best := BestIndex(pending);
      GreedyFits(writes, RemoveAt(pending, best), available + pending[best].freed)
    else writes[0].needed <= available && GreedyFits(writes[1..], pending, available - writes[0].needed)
  }

  /** How many deletes it does before write number `i`. */
  ghost function GreedyBefore(writes: seq<Write>, pending: seq<Delete>, available: int, i: nat): nat
    decreases |writes| + |pending|
  {
    if |writes| == 0 then 0
    else if available < writes[0].needed && |pending| > 0 then
      var best := BestIndex(pending);
      1 + GreedyBefore(writes, RemoveAt(pending, best), available + pending[best].freed, i)
    else if i == 0 then 0
    else GreedyBefore(writes[1..], pending, available - writes[0].needed, i - 1)
  }

  lemma FitsStep(step: Step, plan: seq<Step>, available: int)
    ensures Fits([step] + plan, available) ==
            match step
            case DeleteStep(d) => Fits(plan, available + d.freed)
            case WriteStep(w) => w.needed <= available && Fits(plan, available - w.needed)
  {
    assert ([step] + plan)[1..] == plan;
  }

  lemma BeforeStep(step: Step, plan: seq<Step>, i: nat)
    ensures DeletesBefore([step] + plan, i) ==
            match step
            case DeleteStep(_) => 1 + DeletesBefore(plan, i)
            case WriteStep(_) => if i == 0 then 0 else DeletesBefore(plan, i - 1)
  {
    assert ([step] + plan)[1..] == plan;
  }

  lemma FitsAfterDelete(writes: seq<Write>, pending: seq<Delete>, available: int)
    requires |writes| > 0 && available < writes[0].needed && |pending| > 0
    requires var best := BestIndex(pending);
             var more := available + pending[best].freed;
             Fits(Greedy(writes, RemoveAt(pending, best), more), more)
    ensures Fits(Greedy(writes, pending, available), available)
  {
    var best := BestIndex(pending);
    var plan := Greedy(writes, RemoveAt(pending, best), available + pending[best].freed);
    FitsStep(DeleteStep(pending[best]), plan, available);
  }

  lemma FitsAfterWrite(writes: seq<Write>, pending: seq<Delete>, available: int)
    requires |writes| > 0 && writes[0].needed <= available
    requires var left := available - writes[0].needed; Fits(Greedy(writes[1..], pending, left), left)
    ensures Fits(Greedy(writes, pending, available), available)
  {
    FitsStep(WriteStep(writes[0]), Greedy(writes[1..], pending, available - writes[0].needed), available);
  }

  lemma {:induction false} GreedyFitsIndeed(writes: seq<Write>, pending: seq<Delete>, available: int)
    requires GreedyFits(writes, pending, available)
    ensures Fits(Greedy(writes, pending, available), available)
    decreases |writes| + |pending|
  {
    if |writes| > 0 {
      if available < writes[0].needed && |pending| > 0 {
        var best := BestIndex(pending);
        GreedyFitsIndeed(writes, RemoveAt(pending, best), available + pending[best].freed);
        FitsAfterDelete(writes, pending, available);
      } else {
        GreedyFitsIndeed(writes[1..], pending, available - writes[0].needed);
        FitsAfterWrite(writes, pending, available);
      }
    }
  }

  lemma {:induction false} GreedyBeforeIs(writes: seq<Write>, pending: seq<Delete>, available: int, i: nat)
    ensures DeletesBefore(Greedy(writes, pending, available), i) == GreedyBefore(writes, pending, available, i)
    decreases |writes| + |pending|
  {
    if writes != [] {
      if available < writes[0].needed && pending != [] {
        var best := BestIndex(pending);
        var rest, more := RemoveAt(pending, best), available + pending[best].freed;
        GreedyBeforeIs(writes, rest, more, i);
        BeforeStep(DeleteStep(pending[best]), Greedy(writes, rest, more), i);
      } else {
        var left := available - writes[0].needed;
        GreedyBeforeIs(writes[1..], pending, left, if i > 0 then i - 1 else 0);
        BeforeStep(WriteStep(writes[0]), Greedy(writes[1..], pending, left), i);
      }
    }
  }

  /** The greedy schedule fits and, with `g` deletes done before it against the other's `d`, does no more
      deletes before write number `i`. */
  ghost predicate KeepsUp(writes: seq<Write>, pending: seq<Delete>, available: int, i: nat, g: nat, d: nat,
                          other: seq<Step>) {
    && GreedyFits(writes, pending, available)
    && (i < |writes| ==> g + GreedyBefore(writes, pending, available, i) <= d + DeletesBefore(other, i))
  }

  /** The rest of a schedule that fits: it has done `d` deletes, which freed `freed`, and never frees
      more than as many of the largest would. */
  ghost predicate Rival(other: seq<Step>, writes: seq<Write>, ranked: seq<Delete>, d: nat, freed: int, space: int) {
    && d <= |ranked| && freed <= Sum(ranked, d)
    && if other == [] then writes == []
       else match other[0]
       case WriteStep(w) =>
         writes != [] && writes[0] == w && w.needed <= space &&
         Rival(other[1..], writes[1..], ranked, d, freed, space - w.needed)
       case DeleteStep(x) => Rival(other[1..], writes, ranked, d + 1, freed + x.freed, space + x.freed)
  }

  /** Having done `done`, which frees `freed`, a schedule has these steps left. */
  ghost predicate Doing(other: seq<Step>, deletes: seq<Delete>, done: seq<Delete>, freed: int) {
    Leaves(other, deletes, done) && freed == Sum(done, |done|)
  }

  /** The deletes done and still to do are among those there are. */
  ghost predicate Leaves(other: seq<Step>, deletes: seq<Delete>, done: seq<Delete>) {
    forall x :: Tally(done, x) + Tally(DeletesOf(other), x) <= Tally(deletes, x)
  }

  lemma ScheduleLeaves(other: seq<Step>, deletes: seq<Delete>)
    requires multiset(DeletesOf(other)) <= multiset(deletes)
    ensures Leaves(other, deletes, [])
  {
    forall x ensures Tally<Delete>([], x) + Tally(DeletesOf(other), x) <= Tally(deletes, x) {
      TallyIsMultiplicity(DeletesOf(other), x);
      TallyIsMultiplicity(deletes, x);
    }
  }

  lemma DoingIsBounded(other: seq<Step>, deletes: seq<Delete>, done: seq<Delete>, freed: int)
    requires Doing(other, deletes, done, freed)
    ensures |done| <= |Ranked(deletes)| && freed <= Sum(Ranked(deletes), |done|)
  {
    forall x ensures multiset(done)[x] <= multiset(deletes)[x] {
      TallyIsMultiplicity(done, x);
      TallyIsMultiplicity(deletes, x);
      assert Tally(done, x) + Tally(DeletesOf(other), x) <= Tally(deletes, x);
    }
    LargestFreeMost(deletes, done);
  }

  lemma DoingDelete(other: seq<Step>, deletes: seq<Delete>, done: seq<Delete>, freed: int)
    requires Doing(other, deletes, done, freed) && other != [] && other[0].DeleteStep?
    ensures Doing(other[1..], deletes, done + [other[0].delete], freed + other[0].delete.freed)
    ensures WritesOf(other) == WritesOf(other[1..])
  {
    var d := other[0].delete;
    SumOfPrefix(done, done + [d], |done|);
    forall x ensures Tally(done + [d], x) + Tally(DeletesOf(other[1..]), x) <= Tally(deletes, x) {
      TallyOfSum(done, [d], x);
      TallyOfSum([d], DeletesOf(other[1..]), x);
      assert DeletesOf(other) == [d] + DeletesOf(other[1..]);
    }
  }

  lemma DoingWrite(other: seq<Step>, deletes: seq<Delete>, done: seq<Delete>, freed: int)
    requires Doing(other, deletes, done, freed) && other != [] && other[0].WriteStep?
    ensures Doing(other[1..], deletes, done, freed)
    ensures WritesOf(other) == [other[0].write] + WritesOf(other[1..])
  {
    assert DeletesOf(other) == DeletesOf(other[1..]);
  }

  lemma {:induction false} ScheduleIsRival(other: seq<Step>, writes: seq<Write>, deletes: seq<Delete>,
                                           done: seq<Delete>, freed: int, space: int)
    requires Doing(other, deletes, done, freed) && Fits(other, space) && writes == WritesOf(other)
    ensures Rival(other, writes, Ranked(deletes), |done|, freed, space)
    decreases |other|
  {
    DoingIsBounded(other, deletes, done, freed);
    if other != [] {
      match other[0]
      case WriteStep(w) => {
        DoingWrite(other, deletes, done, freed);
        ScheduleIsRival(other[1..], writes[1..], deletes, done, freed, space - w.needed);
      }
      case DeleteStep(x) => {
        DoingDelete(other, deletes, done, freed);
        ScheduleIsRival(other[1..], writes, deletes, done + [x], freed + x.freed, space + x.freed);
      }
    }
  }

  /** Greedy against the rest of any other schedule that fits. Both have done the same writes, so
      their free space differs by what was freed. */
  lemma {:induction false} GreedyIsOptimal(writes: seq<Write>, pending: seq<Delete>, ranked: seq<Delete>, g: nat,
                                           available: int, other: seq<Step>, d: nat, freed: int, space: int, i: nat)
    requires g <= |ranked| && Ranked(pending) == ranked[g..]
    requires g <= d && space - freed == available - Sum(ranked, g) && Rival(other, writes, ranked, d, freed, space)
    ensures KeepsUp(writes, pending, available, i, g, d, other)
    decreases |other|, |pending|, 1
  {
    if other != [] {
      match other[0]
      case DeleteStep(x) => {
        GreedyIsOptimal(writes, pending, ranked, g, available, other[1..], d + 1, freed + x.freed, space + x.freed, i);
      }
      case WriteStep(w) => {
        if available < w.needed {
          GreedyDeletesFirst(writes, pending, ranked, g, available, other, d, freed, space, i);
        } else {
          GreedyWritesToo(writes, pending, ranked, g, available, other, d, freed, space, i);
        }
      }
    }
  }

  /** Both write next. */
  lemma {:induction false} GreedyWritesToo(writes: seq<Write>, pending: seq<Delete>, ranked: seq<Delete>, g: nat,
                                           available: int, other: seq<Step>, d: nat, freed: int, space: int, i: nat)
    requires g <= |ranked| && Ranked(pending) == ranked[g..]
    requires g <= d && space - freed == available - Sum(ranked, g) && Rival(other, writes, ranked, d, freed, space)
    requires other != [] && other[0].WriteStep? && available >= other[0].write.needed
    ensures KeepsUp(writes, pending, available, i, g, d, other)
    decreases |other|, |pending|, 0
  {
    var w := other[0].write;
    var left, j := available - w.needed, if i > 0 then i - 1 else 0;
    GreedyIsOptimal(writes[1..], pending, ranked, g, left, other[1..], d, freed, space - w.needed, j);
  }

  /** The other writes and greedy has to delete first. */
  lemma {:induction false} GreedyDeletesFirst(writes: seq<Write>, pending: seq<Delete>, ranked: seq<Delete>, g: nat,
                                              available: int, other: seq<Step>, d: nat, freed: int, space: int, i: nat)
    requires g <= |ranked| && Ranked(pending) == ranked[g..]
    requires g <= d && space - freed == available - Sum(ranked, g) && Rival(other, writes, ranked, d, freed, space)
    requires other != [] && other[0].WriteStep? && available < other[0].write.needed
    ensures KeepsUp(writes, pending, available, i, g, d, other)
    decreases |other|, |pending|, 0
  {
    RivalIsAhead(writes, pending, ranked, g, available, other, d, freed, space);
    var best := BestIndex(pending);
    var rest, more := RemoveAt(pending, best), available + pending[best].freed;
    GreedyIsOptimal(writes, rest, ranked, g + 1, more, other, d, freed, space, i);
  }

  /** If the other has the space to write and greedy has not, it has done more deletes, and one is pending. */
  lemma RivalIsAhead(writes: seq<Write>, pending: seq<Delete>, ranked: seq<Delete>, g: nat, available: int,
                     other: seq<Step>, d: nat, freed: int, space: int)
    requires g <= |ranked| && Ranked(pending) == ranked[g..]
    requires g <= d && space - freed == available - Sum(ranked, g) && Rival(other, writes, ranked, d, freed, space)
    requires other != [] && other[0].WriteStep? && available < other[0].write.needed
    ensures g < d && writes != [] && available < writes[0].needed && pending != []
    ensures var best := BestIndex(pending);
            && g < |ranked| && Ranked(RemoveAt(pending, best)) == ranked[g + 1..]
            && Sum(ranked, g + 1) == Sum(ranked, g) + pending[best].freed
  {
    assert freed <= Sum(ranked, d) && g < d && pending != [];
    RankedHead(pending, ranked, g);
  }

  lemma GreedyDeletes(writes: seq<Write>, rest: seq<Delete>, available: int)
    requires writes != [] && available < writes[0].needed && rest != []
    ensures var best := BestIndex(rest);
            Greedy(writes, rest, available) ==
            [DeleteStep(rest[best])] + Greedy(writes, RemoveAt(rest, best), available + rest[best].freed)
  {
  }

  lemma GreedyWrites(writes: seq<Write>, rest: seq<Delete>, available: int)
    requires writes != [] && (available >= writes[0].needed || rest == [])
    ensures Greedy(writes, rest, available) ==
            [WriteStep(writes[0])] + Greedy(writes[1..], rest, available - writes[0].needed)
  {
  }

  // ---------------------------------------------------------------- the loops

  /** No schedule of these writes that fits does fewer deletes before any of them, and if one fits,
      so does this plan. */
  ghost predicate Optimal(plan: seq<Step>, writes: seq<Write>, deletes: seq<Delete>, space: int) {
    forall other, i: nat :: Schedules(other, writes, deletes) && Fits(other, space) ==>
      AtMost(plan, space, |writes|, i, other)
  }

  lemma {:induction false} WritesOfAppended(steps: seq<Step>, last: Step)
    ensures WritesOf(steps + [last]) == WritesOf(steps) + (if last.WriteStep? then [last.write] else [])
  {
    var more := steps + [last];
    if steps == [] {
      assert more[1..] == [];
    } else {
      WritesOfAppended(steps[1..], last);
      assert more[0] == steps[0] && more[1..] == steps[1..] + [last];
    }
  }

  lemma {:induction false} DeletesOfAppended(steps: seq<Step>, last: Step)
    ensures DeletesOf(steps + [last]) == DeletesOf(steps) + (if last.DeleteStep? then [last.delete] else [])
  {
    var more := steps + [last];
    if steps == [] {
      assert more[1..] == [];
    } else {
      DeletesOfAppended(steps[1..], last);
      assert more[0] == steps[0] && more[1..] == steps[1..] + [last];
    }
  }

  lemma Append(steps: seq<Step>, last: Step)
    ensures WritesOf(steps + [last]) == WritesOf(steps) + (if last.WriteStep? then [last.write] else [])
    ensures DeletesOf(steps + [last]) == DeletesOf(steps) + (if last.DeleteStep? then [last.delete] else [])
  {
    WritesOfAppended(steps, last);
    DeletesOfAppended(steps, last);
  }

  lemma {:induction false} AppendDelete(steps: seq<Step>, d: Delete, available: int, i: nat)
    ensures Fits(steps + [DeleteStep(d)], available) == Fits(steps, available)
    ensures i < |WritesOf(steps)| ==> DeletesBefore(steps + [DeleteStep(d)], i) == DeletesBefore(steps, i)
  {
    var more := steps + [DeleteStep(d)];
    if steps == [] {
      assert more[1..] == [];
    } else {
      assert more[1..] == steps[1..] + [DeleteStep(d)];
      match steps[0]
      case WriteStep(w) => AppendDelete(steps[1..], d, available - w.needed, if i > 0 then i - 1 else 0);
      case DeleteStep(x) => AppendDelete(steps[1..], d, available + x.freed, i);
    }
  }

  lemma OptimalAppend(plan: seq<Step>, d: Delete, writes: seq<Write>, deletes: seq<Delete>, space: int)
    requires Optimal(plan, writes, deletes, space) && WritesOf(plan) == writes
    ensures Optimal(plan + [DeleteStep(d)], writes, deletes, space)
  {
    forall other, i: nat | Schedules(other, writes, deletes) && Fits(other, space)
      ensures AtMost(plan + [DeleteStep(d)], space, |writes|, i, other)
    {
      assert AtMost(plan, space, |writes|, i, other);
      AppendDelete(plan, d, space, i);
    }
  }

  lemma GreedyPlanIsOptimal(writes: seq<Write>, deletes: seq<Delete>, space: int)
    ensures Optimal(Greedy(writes, deletes, space), writes, deletes, space)
  {
    forall other, i: nat | Schedules(other, writes, deletes) && Fits(other, space)
      ensures AtMost(Greedy(writes, deletes, space), space, |writes|, i, other)
    {
      ScheduleLeaves(other, deletes);
      ScheduleIsRival(other, writes, deletes, [], 0, space);
      GreedyIsOptimal(writes, deletes, Ranked(deletes), 0, space, other, 0, 0, space, i);
      GreedyFitsIndeed(writes, deletes, space);
      GreedyBeforeIs(writes, deletes, space, i);
    }
  }

  lemma Regroup<T>(a: seq<T>, b: seq<T>, c: seq<T>)
    ensures a + b + c == a + (b + c)
  {
  }

  predicate ByPath(a: Delete, b: Delete) {
    Text.Less(a.path, b.path)
  }

  lemma ByPathIsAnOrder()
    ensures Sorting.StrictWeakOrder(ByPath)
  {
    forall a: Delete, b: Delete ensures ByPath(a, b) ==> !ByPath(b, a) {
      Text.LessIsAsymmetric(a.path, b.path);
    }
    forall a: Delete, b: Delete, c: Delete ensures !ByPath(b, a) && !ByPath(c, b) ==> !ByPath(c, a) {
      Text.NotLessIsTransitive(a.path, b.path, c.path);
    }
  }

  /** What the loops keep: the steps so far and the greedy schedule of what is left make up the
      greedy schedule of everything, and nothing is lost. */
  ghost predicate Underway(plan: seq<Step>, n: nat, rest: seq<Delete>, available: int,
                           writes: seq<Write>, deletes: seq<Delete>, space: int)
  {
    && n <= |writes|
    && plan + Greedy(writes[n..], rest, available) == Greedy(writes, deletes, space)
    && WritesOf(plan) == writes[..n]
    && Shares(DeletesOf(plan), rest, deletes)
  }

  lemma DeleteKeepsUnderway(plan: seq<Step>, n: nat, rest: seq<Delete>, available: int,
                            writes: seq<Write>, deletes: seq<Delete>, space: int)
    requires Underway(plan, n, rest, available, writes, deletes, space)
    requires n < |writes| && available < writes[n].needed && rest != []
    ensures var best := BestIndex(rest);
            Underway(plan + [DeleteStep(rest[best])], n, RemoveAt(rest, best), available + rest[best].freed, writes,
                     deletes, space)
  {
    DeleteGoesOn(plan, writes[n..], rest, available, Greedy(writes, deletes, space));
    MoveStep(plan, rest, BestIndex(rest), deletes);
  }

  lemma DeleteGoesOn(plan: seq<Step>, writes: seq<Write>, rest: seq<Delete>, available: int, whole: seq<Step>)
    requires writes != [] && available < writes[0].needed && rest != []
    requires plan + Greedy(writes, rest, available) == whole
    ensures var best := BestIndex(rest);
            plan + [DeleteStep(rest[best])] + Greedy(writes, RemoveAt(rest, best), available + rest[best].freed) ==
              whole
  {
    var best := BestIndex(rest);
    GreedyDeletes(writes, rest, available);
    Regroup(plan, [DeleteStep(rest[best])], Greedy(writes, RemoveAt(rest, best), available + rest[best].freed));
  }

  lemma MoveStep(plan: seq<Step>, rest: seq<Delete>, i: nat, deletes: seq<Delete>)
    requires i < |rest| && Shares(DeletesOf(plan), rest, deletes)
    ensures var more := plan + [DeleteStep(rest[i])];
            WritesOf(more) == WritesOf(plan) && Shares(DeletesOf(more), RemoveAt(rest, i), deletes)
  {
    Append(plan, DeleteStep(rest[i]));
    MoveElement(DeletesOf(plan), rest, i, deletes);
  }

  lemma MoveElement<T(!new)>(done: seq<T>, rest: seq<T>, i: nat, whole: seq<T>)
    requires i < |rest| && Shares(done, rest, whole)
    ensures Shares(done + [rest[i]], RemoveAt(rest, i), whole)
  {
    forall x ensures Tally(done + [rest[i]], x) + Tally(RemoveAt(rest, i), x) == Tally(whole, x) {
      assert rest == rest[..i] + ([rest[i]] + rest[i + 1..]);
      TallyOfSum(done, [rest[i]], x);
      TallyOfSum(rest[..i], rest[i + 1..], x);
      TallyOfSum(rest[..i], [rest[i]] + rest[i + 1..], x);
      TallyOfSum([rest[i]], rest[i + 1..], x);
    }
  }

  lemma WriteKeepsUnderway(plan: seq<Step>, n: nat, rest: seq<Delete>, available: int,
                           writes: seq<Write>, deletes: seq<Delete>, space: int)
    requires Underway(plan, n, rest, available, writes, deletes, space)
    requires n < |writes| && (available >= writes[n].needed || rest == [])
    ensures Underway(plan + [WriteStep(writes[n])], n + 1, rest, available - writes[n].needed, writes, deletes, space)
  {
    var w := writes[n];
    assert WritesOf(plan + [WriteStep(w)]) == writes[..n + 1] &&
           DeletesOf(plan + [WriteStep(w)]) == DeletesOf(plan) by {
      Append(plan, WriteStep(w));
      assert DeletesOf(plan) + [] == DeletesOf(plan);
    }
    assert writes[n..][1..] == writes[n + 1..];
    WriteGoesOn(plan, writes[n..], rest, available, Greedy(writes, deletes, space));
  }

  lemma WriteGoesOn(plan: seq<Step>, writes: seq<Write>, rest: seq<Delete>, available: int, whole: seq<Step>)
    requires writes != [] && (available >= writes[0].needed || rest == [])
    requires plan + Greedy(writes, rest, available) == whole
    ensures plan + [WriteStep(writes[0])] + Greedy(writes[1..], rest, available - writes[0].needed) == whole
  {
    GreedyWrites(writes, rest, available);
    Regroup(plan, [WriteStep(writes[0])], Greedy(writes[1..], rest, available - writes[0].needed));
  }

  lemma UnderwayStarts(writes: seq<Write>, deletes: seq<Delete>, space: int)
    ensures Underway([], 0, deletes, space, writes, deletes, space)
  {
  }

  lemma UnderwayEnds(plan: seq<Step>, rest: seq<Delete>, available: int, writes: seq<Write>, deletes: seq<Delete>,
                     space: int)
    requires Underway(plan, |writes|, rest, available, writes, deletes, space)
    ensures plan == Greedy(writes, deletes, space) && WritesOf(plan) == writes
    ensures Shares(DeletesOf(plan), rest, deletes)
  {
    assert writes[|writes|..] == [] && writes[..|writes|] == writes;
    assert plan + [] == plan;
  }

  /** The deletes that no write needed, done last and by path. */
  ghost predicate EndsByPath(plan: seq<Step>, head: seq<Step>, tail: seq<Delete>) {
    && plan == head + DeleteSteps(tail)
    && forall i, j :: 0 <= i < j < |tail| ==> !Text.Less(tail[j].path, tail[i].path)
  }

  /** What the loop over the sorted rest keeps. */
  ghost predicate Tailed(plan: seq<Step>, head: seq<Step>, done: seq<Delete>, writes: seq<Write>, deletes: seq<Delete>,
                         space: int) {
    && plan == head + DeleteSteps(done)
    && WritesOf(plan) == writes && DeletesOf(plan) == DeletesOf(head) + done
    && Optimal(plan, writes, deletes, space)
  }

  lemma TailedGrows(plan: seq<Step>, head: seq<Step>, done: seq<Delete>, d: Delete, writes: seq<Write>,
                    deletes: seq<Delete>, space: int)
    requires Tailed(plan, head, done, writes, deletes, space)
    ensures Tailed(plan + [DeleteStep(d)], head, done + [d], writes, deletes, space)
  {
    Append(plan, DeleteStep(d));
    OptimalAppend(plan, d, writes, deletes, space);
    OneMore(head, done, d);
    Regroup(DeletesOf(head), done, [d]);
  }

  lemma OneMore(head: seq<Step>, done: seq<Delete>, d: Delete)
    ensures head + DeleteSteps(done) + [DeleteStep(d)] == head + DeleteSteps(done + [d])
  {
  }

  method Order(writes: seq<Write>, deletes: seq<Delete>, space: int) returns (plan: seq<Step>)
    ensures WritesOf(plan) == writes && multiset(DeletesOf(plan)) == multiset(deletes)
    ensures Optimal(plan, writes, deletes, space)
    ensures exists tail :: EndsByPath(plan, Greedy(writes, deletes, space), tail)
  {
    var rest;
    plan, rest := OrderWrites(writes, deletes, space);
    var tail := Sorting.Sort(rest, ByPath);
    ghost var head := plan;
    plan := AppendDeletes(plan, tail);
    DeletesKeepTailed(head, tail, |tail|, writes, deletes, space);
    assert tail[..|tail|] == tail;
    SortedTail(plan, head, rest, tail, writes, deletes, space);
  }

  method OrderWrites(writes: seq<Write>, deletes: seq<Delete>, space: int) returns (plan: seq<Step>, rest: seq<Delete>)
    ensures plan == Greedy(writes, deletes, space) && WritesOf(plan) == writes
    ensures Shares(DeletesOf(plan), rest, deletes)
  {
    var available := space;
    plan, rest := [], deletes;
    UnderwayStarts(writes, deletes, space);
    for n := 0 to |writes|
      invariant Underway(plan, n, rest, available, writes, deletes, space)
    {
      plan, rest, available := MakeRoom(plan, n, rest, available, writes, deletes, space);
      WriteKeepsUnderway(plan, n, rest, available, writes, deletes, space);
      plan := plan + [WriteStep(writes[n])];
      available := available - writes[n].needed;
    }
    UnderwayEnds(plan, rest, available, writes, deletes, space);
  }

  /** Deletes the largest files until the next write fits or nothing is left to delete. */
  method MakeRoom(before: seq<Step>, n: nat, pending: seq<Delete>, free: int, writes: seq<Write>,
                  ghost deletes: seq<Delete>, ghost space: int)
    returns (plan: seq<Step>, rest: seq<Delete>, available: int)
    requires n < |writes| && Underway(before, n, pending, free, writes, deletes, space)
    ensures Underway(plan, n, rest, available, writes, deletes, space)
    ensures available >= writes[n].needed || rest == []
  {
    plan, rest, available := before, pending, free;
    while available < writes[n].needed && |rest| > 0
      invariant Underway(plan, n, rest, available, writes, deletes, space)
      decreases |rest|
    {
      ghost var pending := |rest|;
      plan, rest, available := DeleteLargest(plan, n, rest, available, writes, deletes, space);
      assert |rest| < pending;
    }
  }

  method DeleteLargest(before: seq<Step>, ghost n: nat, pending: seq<Delete>, free: int, ghost writes: seq<Write>,
                       ghost deletes: seq<Delete>, ghost space: int)
    returns (plan: seq<Step>, rest: seq<Delete>, available: int)
    requires n < |writes| && Underway(before, n, pending, free, writes, deletes, space)
    requires free < writes[n].needed && pending != []
    ensures Underway(plan, n, rest, available, writes, deletes, space) && |rest| < |pending|
  {
    DeleteKeepsUnderway(before, n, pending, free, writes, deletes, space);
    var idx := BestDeleteIndex(pending);
    plan := before + [DeleteStep(pending[idx])];
    available := free + pending[idx].freed;
    rest := RemoveAt(pending, idx);
  }

  method AppendDeletes(head: seq<Step>, tail: seq<Delete>) returns (plan: seq<Step>)
    ensures plan == head + DeleteSteps(tail)
  {
    plan := head;
    for i := 0 to |tail|
      invariant plan == head + DeleteSteps(tail[..i])
    {
      OneMore(head, tail[..i], tail[i]);
      assert tail[..i + 1] == tail[..i] + [tail[i]];
      plan := plan + [DeleteStep(tail[i])];
    }
    assert tail[..|tail|] == tail;
  }

  lemma {:induction false} DeletesKeepTailed(head: seq<Step>, tail: seq<Delete>, n: nat, writes: seq<Write>,
                                             deletes: seq<Delete>, space: int)
    requires head == Greedy(writes, deletes, space) && WritesOf(head) == writes && n <= |tail|
    ensures Tailed(head + DeleteSteps(tail[..n]), head, tail[..n], writes, deletes, space)
  {
    if n == 0 {
      TailedStarts(head, writes, deletes, space);
      assert head + DeleteSteps(tail[..0]) == head;
    } else {
      DeletesKeepTailed(head, tail, n - 1, writes, deletes, space);
      TailedGrows(head + DeleteSteps(tail[..n - 1]), head, tail[..n - 1], tail[n - 1], writes, deletes, space);
      OneMore(head, tail[..n - 1], tail[n - 1]);
      assert tail[..n] == tail[..n - 1] + [tail[n - 1]];
    }
  }

  lemma TailedStarts(head: seq<Step>, writes: seq<Write>, deletes: seq<Delete>, space: int)
    requires head == Greedy(writes, deletes, space) && WritesOf(head) == writes
    ensures Tailed(head, head, [], writes, deletes, space)
  {
    GreedyPlanIsOptimal(writes, deletes, space);
    assert head + DeleteSteps([]) == head;
  }

  lemma SortedTail(plan: seq<Step>, head: seq<Step>, rest: seq<Delete>, tail: seq<Delete>,
                   writes: seq<Write>, deletes: seq<Delete>, space: int)
    requires tail == Sorting.Sort(rest, ByPath) && Tailed(plan, head, tail, writes, deletes, space)
    requires Shares(DeletesOf(head), rest, deletes)
    ensures EndsByPath(plan, head, tail) && multiset(DeletesOf(plan)) == multiset(deletes)
  {
    SharesElements(DeletesOf(head), rest, deletes);
    Sorting.SortKeepsElements(rest, ByPath);
    ByPathIsAnOrder();
    Sorting.SortSorts(rest, ByPath);
  }
}
