/** When a retention run completes, and where complete runs come to rest. */
module RetentionCompletion {
  import opened Outcomes
  import opened ArchiveBlocks
  import opened Manifests
  import opened Retention
  import opened RetentionRun
  import opened RetentionTheorems

  // ---------------------------------------------------------------- which paths a cursor shows

  /** Every cursor shows the same paths, whatever their manifests. */
  ghost predicate SameShown(s: Store, t: Store) {
    forall f, path :: SameShownPath(s, t, f, path)
  }

  ghost predicate SameShownPath(s: Store, t: Store, f: FolderId, path: Path) {
    && (path in FolderOf(s, f) <==> path in FolderOf(t, f))
    && (path in FolderOf(s, f) ==>
          forall cursor :: View(FolderOf(s, f)[path], cursor).Some? <==> View(FolderOf(t, f)[path], cursor).Some?)
  }

  /** Recording a manifest where the path is shown changes at no cursor whether it is shown. */
  lemma RecordKeepsShown(p: PathState, revision: nat, m: Manifest, cursor: nat)
    requires revision > 0 && View(p, revision).Some?
    ensures View(Recorded(p, revision, m), cursor).Some? <==> View(p, cursor).Some?
  {
    LatestStays(p.history, revision, m, cursor);
    if revision <= cursor && Latest(p.history, cursor) <= revision {
      LatestBelow(p.history, revision, cursor);
    }
  }

  lemma PromoteKeepsShown(s: Store, d: Disk, p: Promotion, to: Marker)
    requires SameShown(s, d.store) && Promotes(s, p) && Promoted(d.store, p).Some?
    requires Find(d.store.markers, p.heir.to.id) == Some(to) && to.cursor == p.heir.to.cursor
    ensures SameShown(s, PromoteOne(d.store, p))
  {
    var f, t := p.heir.from.folder, PromoteOne(d.store, p);
    assert SameShownPath(s, d.store, f, p.path);
    var state, m := FolderOf(d.store, f)[p.path], Promoted(d.store, p).value;
    forall g, path ensures SameShownPath(s, t, g, path) {
      assert SameShownPath(s, d.store, g, path);
      if g == f && path == p.path {
        forall cursor ensures View(FolderOf(t, g)[path], cursor).Some? <==> View(FolderOf(s, g)[path], cursor).Some? {
          RecordKeepsShown(state, to.cursor, m, cursor);
        }
      }
    }
  }

  /** What a run keeps, step by step: who the markers are and what is shown. */
  ghost predicate Underway(s: Store, d: Disk) {
    SameShown(s, d.store) && forall x :: x in d.store.markers ==> StemsFrom(x, s.markers)
  }

  lemma HeirFound(s: Store, keep: nat, plan: Plan, d: Disk, p: Promotion)
    requires OneEach(s.markers) && Plans(s, keep, plan) && p in plan.promotions && Underway(s, d)
    ensures p.heir.from in s.markers && p.heir.to in s.markers
    ensures var x := Find(d.store.markers, p.heir.from.id);
            x.Some? ==> x.value.folder == p.heir.from.folder && x.value.cursor == p.heir.from.cursor
    ensures var x := Find(d.store.markers, p.heir.to.id); x.Some? ==> x.value.cursor == p.heir.to.cursor
  {
    var i :| 0 <= i < |plan.heirs| && plan.heirs[i] == p.heir;
    HeirIsStored(s.markers, keep, p.heir);
    if Find(d.store.markers, p.heir.from.id).Some? {
      FindStems(s.markers, d.store.markers, p.heir.from);
    }
    if Find(d.store.markers, p.heir.to.id).Some? {
      FindStems(s.markers, d.store.markers, p.heir.to);
    }
  }

  lemma StepKeepsShown(s: Store, keep: nat, plan: Plan, d: Disk, step: Step)
    requires OneEach(s.markers) && Plans(s, keep, plan) && Underway(s, d) && Do(d, step).Some?
    requires step.Promote? ==> step.promotion in plan.promotions
    ensures SameShown(s, Do(d, step).value.store)
  {
    if step.Promote? {
      HeirFound(s, keep, plan, d, step.promotion);
      PromoteKeepsShown(s, d, step.promotion, Find(d.store.markers, step.promotion.heir.to.id).value);
    } else {
      forall f, path ensures SameShownPath(s, Do(d, step).value.store, f, path) {
        assert SameShownPath(s, d.store, f, path);
      }
    }
  }

  /** A retention run as planned: the steps come from a plan of the store. */
  ghost predicate Runs(s: Store, keep: nat, plan: Plan, script: Script) {
    OneEach(s.markers) && Plans(s, keep, plan) && Enumerates(script, plan)
  }

  /** Only planned promotions are done. */
  ghost predicate FromPlan(plan: Plan, steps: seq<Step>) {
    forall i :: 0 <= i < |steps| && steps[i].Promote? ==> steps[i].promotion in plan.promotions
  }

  lemma ScriptIsFromPlan(script: Script, plan: Plan)
    requires Enumerates(script, plan)
    ensures FromPlan(plan, Steps(script))
  {
    forall i | 0 <= i < |Steps(script)| && Steps(script)[i].Promote?
      ensures Steps(script)[i].promotion in plan.promotions
    {
      assert Steps(script)[i].promotion in script.promotions;
    }
  }

  lemma {:induction false} StepsKeepShown(s: Store, archive: Archive, keep: nat, plan: Plan, steps: seq<Step>, n: nat)
    requires OneEach(s.markers) && Plans(s, keep, plan) && FromPlan(plan, steps)
    requires n <= |steps| && After(Disk(s, archive), steps, n).Some?
    ensures Underway(s, After(Disk(s, archive), steps, n).value)
  {
    if n > 0 {
      StepsKeepShown(s, archive, keep, plan, steps, n - 1);
      StepKeepsShown(s, keep, plan, After(Disk(s, archive), steps, n - 1).value, steps[n - 1]);
    }
    forall x | x in After(Disk(s, archive), steps, n).value.store.markers ensures StemsFrom(x, s.markers) {
      RunStems(Disk(s, archive), steps, n, x);
    }
  }

  lemma RunKeepsShown(s: Store, archive: Archive, keep: nat, plan: Plan, script: Script, n: nat)
    requires Runs(s, keep, plan, script) && n <= |Steps(script)| && After(Disk(s, archive), Steps(script), n).Some?
    ensures Underway(s, After(Disk(s, archive), Steps(script), n).value)
  {
    ScriptIsFromPlan(script, plan);
    StepsKeepShown(s, archive, keep, plan, Steps(script), n);
  }

  // ---------------------------------------------------------------- when a run completes

  /** The deleted snapshot shows the path, and its heir has a cursor to record it at. */
  ghost predicate CanPromote(s: Store, p: Promotion) {
    && p.heir.to.cursor > 0 && p.path in FolderOf(s, p.heir.from.folder)
    && View(FolderOf(s, p.heir.from.folder)[p.path], p.heir.from.cursor).Some?
  }

  ghost predicate Completable(s: Store, plan: Plan) {
    forall p :: p in plan.promotions ==> CanPromote(s, p)
  }

  /** While both markers are stored, a promotion succeeds exactly when it could at the start. */
  lemma PromotionSucceeds(s: Store, keep: nat, plan: Plan, d: Disk, p: Promotion)
    requires OneEach(s.markers) && Plans(s, keep, plan) && p in plan.promotions && Underway(s, d)
    requires Find(d.store.markers, p.heir.from.id).Some? && Find(d.store.markers, p.heir.to.id).Some?
    ensures Promoted(d.store, p).Some? <==> CanPromote(s, p)
  {
    HeirFound(s, keep, plan, d, p);
    assert SameShownPath(s, d.store, p.heir.from.folder, p.path);
  }

  lemma {:induction false} UpdateHolds(ms: seq<Marker>, flagged: set<Id>, dropped: set<Id>, m: Marker)
    requires m in ms && m.id !in dropped
    ensures Find(Update(ms, flagged, dropped), m.id).Some?
  {
    var n := |ms| - 1;
    var before := Update(ms[..n], flagged, dropped);
    if ms[n].id == m.id {
      assert (before + Fate(ms[n], flagged, dropped))[|before|].id == m.id;
    } else {
      assert m in ms[..n];
      UpdateHolds(ms[..n], flagged, dropped, m);
      FindInPrefix(before, Fate(ms[n], flagged, dropped), m.id);
    }
  }

  lemma {:induction false} FindInPrefix(a: seq<Marker>, b: seq<Marker>, id: Id)
    requires Find(a, id).Some?
    ensures Find(a + b, id).Some?
  {
    if b == [] {
      assert a + b == a;
    } else {
      FindInPrefix(a, b[..|b| - 1], id);
      assert (a + b)[..|a + b| - 1] == a + b[..|b| - 1];
    }
  }

  /** Until the removals begin every marker is there to be found. */
  lemma MarkerStays(s: Store, archive: Archive, script: Script, n: nat, m: Marker)
    requires n <= |script.deprecate| + |script.promotions| && m in s.markers
    requires After(Disk(s, archive), Steps(script), n).Some?
    ensures Find(After(Disk(s, archive), Steps(script), n).value.store.markers, m.id).Some?
  {
    var steps := Steps(script);
    RunUpdatesMarkers(Disk(s, archive), steps, n);
    assert DroppedBy(steps, n) == {};
    UpdateHolds(s.markers, FlaggedBy(steps, n), {}, m);
  }

  lemma AgingIsStored(ms: seq<Marker>, m: Marker, keep: nat)
    requires Aging(ms, m, keep)
    ensures m in ms
  {
    SelectElements(Old(ms, m.folder, keep), Ages);
    OldIsOfFolder(ms, m.folder, keep, m);
  }

  /** A step that is due goes through exactly when it is no promotion or one that can be done. */
  lemma NextStepSucceeds(s: Store, archive: Archive, keep: nat, plan: Plan, script: Script, n: nat)
    requires Runs(s, keep, plan, script) && n < |Steps(script)| && After(Disk(s, archive), Steps(script), n).Some?
    ensures var step := Steps(script)[n];
            After(Disk(s, archive), Steps(script), n + 1).Some? <==> (step.Promote? ==> CanPromote(s, step.promotion))
  {
    var start, steps := Disk(s, archive), Steps(script);
    var d, step := After(start, steps, n).value, steps[n];
    match step
    case Deprecate(id) =>
      assert id in script.deprecate;
      var m :| m in plan.deprecate && m.id == id;
      AgingIsStored(s.markers, m, keep);
      MarkerStays(s, archive, script, n, m);
    case Promote(p) =>
      assert p in script.promotions;
      RunKeepsShown(s, archive, keep, plan, script, n);
      HeirFound(s, keep, plan, d, p);
      MarkerStays(s, archive, script, n, p.heir.from);
      MarkerStays(s, archive, script, n, p.heir.to);
      PromotionSucceeds(s, keep, plan, d, p);
    case Remove(_) =>
    case Sweep(_) =>
  }

  lemma NextStepIsReached(s: Store, archive: Archive, keep: nat, plan: Plan, script: Script, n: nat)
    requires Runs(s, keep, plan, script) && Completable(s, plan) && n < |Steps(script)|
    requires After(Disk(s, archive), Steps(script), n).Some?
    ensures After(Disk(s, archive), Steps(script), n + 1).Some?
  {
    NextStepSucceeds(s, archive, keep, plan, script, n);
    ScriptIsFromPlan(script, plan);
  }

  lemma {:induction false} CompletableReaches(s: Store, archive: Archive, keep: nat, plan: Plan, script: Script, n: nat)
    requires Runs(s, keep, plan, script) && Completable(s, plan) && n <= |Steps(script)|
    ensures After(Disk(s, archive), Steps(script), n).Some?
  {
    if n > 0 {
      CompletableReaches(s, archive, keep, plan, script, n - 1);
      NextStepIsReached(s, archive, keep, plan, script, n - 1);
    }
  }

  lemma {:induction false} ReachedBefore(d: Disk, steps: seq<Step>, n: nat, k: nat)
    requires k <= n <= |steps| && After(d, steps, n).Some?
    ensures After(d, steps, k).Some?
  {
    if k < n {
      ReachedOneBefore(d, steps, n);
      ReachedBefore(d, steps, n - 1, k);
    }
  }

  /** Every promotion that was done could be done. */
  lemma ReachedPromotion(s: Store, archive: Archive, keep: nat, plan: Plan, script: Script, n: nat, k: nat)
    requires Runs(s, keep, plan, script) && k < n <= |Steps(script)| && Steps(script)[k].Promote?
    requires After(Disk(s, archive), Steps(script), n).Some?
    ensures CanPromote(s, Steps(script)[k].promotion)
  {
    var start, steps := Disk(s, archive), Steps(script);
    assert After(start, steps, k + 1).Some? by {
      ReachedBefore(start, steps, n, k + 1);
    }
    LastPromotion(s, archive, keep, plan, script, k);
  }

  lemma LastPromotion(s: Store, archive: Archive, keep: nat, plan: Plan, script: Script, k: nat)
    requires Runs(s, keep, plan, script) && k < |Steps(script)| && Steps(script)[k].Promote?
    requires After(Disk(s, archive), Steps(script), k + 1).Some?
    ensures CanPromote(s, Steps(script)[k].promotion)
  {
    ReachedOneBefore(Disk(s, archive), Steps(script), k + 1);
    NextStepSucceeds(s, archive, keep, plan, script, k);
  }

  lemma ReachedOneBefore(d: Disk, steps: seq<Step>, n: nat)
    requires 0 < n <= |steps| && After(d, steps, n).Some?
    ensures After(d, steps, n - 1).Some?
  {
  }

  /** Every planned promotion is one of the steps before the removals. */
  lemma PromotionStep(script: Script, plan: Plan, p: Promotion) returns (k: nat)
    requires Enumerates(script, plan) && p in plan.promotions
    ensures k < |script.deprecate| + |script.promotions| && Steps(script)[k] == Promote(p)
  {
    assert p in script.promotions;
    var i :| 0 <= i < |script.promotions| && script.promotions[i] == p;
    k := |script.deprecate| + i;
  }

  /** Getting past the promotions means that every one of them could be done. */
  lemma ReachedIsCompletable(s: Store, archive: Archive, keep: nat, plan: Plan, script: Script, n: nat)
    requires Runs(s, keep, plan, script) && |script.deprecate| + |script.promotions| <= n <= |Steps(script)|
    requires After(Disk(s, archive), Steps(script), n).Some?
    ensures Completable(s, plan)
  {
    forall p | p in plan.promotions ensures CanPromote(s, p) {
      var k := PromotionStep(script, plan, p);
      ReachedPromotion(s, archive, keep, plan, script, n, k);
    }
  }

  /** A run completes if and only if every planned promotion has a manifest to promote. */
  lemma CompletesExactlyWhen(s: Store, archive: Archive, keep: nat, plan: Plan, script: Script)
    requires Runs(s, keep, plan, script)
    ensures After(Disk(s, archive), Steps(script), |Steps(script)|).Some? <==> Completable(s, plan)
  {
    if Completable(s, plan) {
      CompletableReaches(s, archive, keep, plan, script, |Steps(script)|);
    }
    if After(Disk(s, archive), Steps(script), |Steps(script)|).Some? {
      ReachedIsCompletable(s, archive, keep, plan, script, |Steps(script)|);
    }
  }

  /** A run that cannot complete stops before it deletes any marker or block. */
  lemma IncompleteRunDeletesNothing(s: Store, archive: Archive, keep: nat, plan: Plan, script: Script, n: nat)
    requires Runs(s, keep, plan, script) && !Completable(s, plan)
    requires n <= |Steps(script)| && After(Disk(s, archive), Steps(script), n).Some?
    ensures var d := After(Disk(s, archive), Steps(script), n).value;
            && d.archive == archive && forall m :: m in s.markers ==> Find(d.store.markers, m.id).Some?
  {
    if n >= |script.deprecate| + |script.promotions| {
      ReachedIsCompletable(s, archive, keep, plan, script, n);
    }
    forall m | m in s.markers ensures Find(After(Disk(s, archive), Steps(script), n).value.store.markers, m.id).Some? {
      MarkerStays(s, archive, script, n, m);
    }
    ArchiveUntilSweeps(Disk(s, archive), script, n);
  }

  lemma {:induction false} ArchiveUntilSweeps(d: Disk, script: Script, n: nat)
    requires n <= |script.deprecate| + |script.promotions| && After(d, Steps(script), n).Some?
    ensures After(d, Steps(script), n).value.archive == d.archive
  {
    if n > 0 {
      ArchiveUntilSweeps(d, script, n - 1);
    }
  }

  // ---------------------------------------------------------------- where retention comes to rest

  /** A folder's markers past the newest, one round later. */
  function Age(ms: seq<Marker>): seq<Marker> {
    if ms == [] then []
    else
      var m := ms[|ms| - 1];
      Age(ms[..|ms| - 1]) + (if Expires(m) then [] else if Ages(m) then [m.(deprecated := true)] else [m])
  }

  /** A folder's markers after one complete run. */
  function Round(ms: seq<Marker>, keep: nat): seq<Marker> {
    Age(ms[..Cutoff(|ms|, keep)]) + ms[Cutoff(|ms|, keep)..]
  }

  predicate Pinned(m: Marker) {
    m.pinned
  }

  /** The newest `keep` markers and the pinned ones. */
  function Kept(ms: seq<Marker>, keep: nat): seq<Marker> {
    Select(ms[..Cutoff(|ms|, keep)], Pinned) + ms[Cutoff(|ms|, keep)..]
  }

  lemma {:induction false} AgedTwice(ms: seq<Marker>)
    ensures Age(Age(ms)) == Select(ms, Pinned) && Age(Select(ms, Pinned)) == Select(ms, Pinned)
  {
    if ms != [] {
      var n, m := |ms| - 1, ms[|ms| - 1];
      AgedTwice(ms[..n]);
      var aged, pinned := Age(ms[..n]), Select(ms[..n], Pinned);
      if Expires(m) {
        assert aged + [] == aged && pinned + [] == pinned;
      } else if Ages(m) {
        assert (aged + [m.(deprecated := true)])[..|aged|] == aged && pinned + [] == pinned;
        assert Age(Age(ms)) == Age(aged) + [];
      } else {
        assert (aged + [m])[..|aged|] == aged && (pinned + [m])[..|pinned|] == pinned;
      }
    }
  }

  lemma CutOfSum(a: seq<Marker>, b: seq<Marker>, keep: nat)
    requires |b| == keep || (a == [] && |b| < keep)
    ensures Cutoff(|a + b|, keep) == |a| && (a + b)[..|a|] == a && (a + b)[|a|..] == b
  {
  }

  /** Two complete runs leave a folder exactly its newest `keep` markers and its pinned ones, and a
      further run changes nothing. */
  lemma TwoRoundsReachTheFixedPoint(ms: seq<Marker>, keep: nat)
    ensures Round(Round(ms, keep), keep) == Kept(ms, keep) && Round(Kept(ms, keep), keep) == Kept(ms, keep)
  {
    var c := Cutoff(|ms|, keep);
    var aged, recent := ms[..c], ms[c..];
    assert c == 0 ==> Age(aged) == [] && Select(aged, Pinned) == [];
    CutOfSum(Age(aged), recent, keep);
    CutOfSum(Select(aged, Pinned), recent, keep);
    AgedTwice(aged);
  }

  // ---------------------------------------------------------------- a complete run is one round

  lemma SelectAppends(a: seq<Marker>, m: Marker, choose: Marker -> bool)
    ensures Select(a + [m], choose) == Select(a, choose) + (if choose(m) then [m] else []) &&
            Select(a + [], choose) == Select(a, choose)
  {
    assert (a + [m])[..|a|] == a && a + [] == a;
  }

  lemma {:induction false} UpdateOfFolder(ms: seq<Marker>, flagged: set<Id>, dropped: set<Id>, f: FolderId)
    ensures OfFolder(Update(ms, flagged, dropped), f) == Update(OfFolder(ms, f), flagged, dropped)
  {
    if ms != [] {
      var n, m := |ms| - 1, ms[|ms| - 1];
      UpdateOfFolder(ms[..n], flagged, dropped, f);
      var before := Update(ms[..n], flagged, dropped);
      SelectAppends(before, if m.id in flagged then m.(deprecated := true) else m, (x: Marker) => x.folder == f);
      var here := OfFolder(ms[..n], f);
      assert (here + [m])[..|here|] == here && here + [] == here;
    }
  }

  lemma {:induction false} UpdateOfSum(a: seq<Marker>, b: seq<Marker>, flagged: set<Id>, dropped: set<Id>)
    ensures Update(a + b, flagged, dropped) == Update(a, flagged, dropped) + Update(b, flagged, dropped)
  {
    if b == [] {
      assert a + b == a;
    } else {
      var n := |b| - 1;
      UpdateOfSum(a, b[..n], flagged, dropped);
      LastOfSum(a, b);
      UpdateOfOneMore(a + b[..n], b[n], flagged, dropped);
      Regroup(Update(a, flagged, dropped), Update(b[..n], flagged, dropped), Fate(b[n], flagged, dropped));
    }
  }

  lemma LastOfSum<T>(a: seq<T>, b: seq<T>)
    requires b != []
    ensures a + b == a + b[..|b| - 1] + [b[|b| - 1]]
  {
  }

  lemma Regroup<T>(a: seq<T>, b: seq<T>, c: seq<T>)
    ensures a + b + c == a + (b + c)
  {
  }

  lemma UpdateOfOneMore(ms: seq<Marker>, m: Marker, flagged: set<Id>, dropped: set<Id>)
    ensures Update(ms + [m], flagged, dropped) == Update(ms, flagged, dropped) + Fate(m, flagged, dropped)
  {
    assert (ms + [m])[..|ms|] == ms;
  }

  lemma {:induction false} UpdateAges(ms: seq<Marker>, flagged: set<Id>, dropped: set<Id>)
    requires forall m :: m in ms ==> (m.id in flagged <==> Ages(m)) && (m.id in dropped <==> Expires(m))
    ensures Update(ms, flagged, dropped) == Age(ms)
  {
    if ms != [] {
      UpdateAges(ms[..|ms| - 1], flagged, dropped);
    }
  }

  lemma {:induction false} UpdateSkips(ms: seq<Marker>, flagged: set<Id>, dropped: set<Id>)
    requires forall m :: m in ms ==> m.id !in flagged && m.id !in dropped
    ensures Update(ms, flagged, dropped) == ms
  {
    if ms != [] {
      UpdateSkips(ms[..|ms| - 1], flagged, dropped);
      assert ms == ms[..|ms| - 1] + [ms[|ms| - 1]];
    }
  }

  ghost predicate UniqueIds(ms: seq<Marker>) {
    forall i, j :: 0 <= i < j < |ms| ==> ms[i].id != ms[j].id
  }

  lemma {:induction false} SelectIsUnique(ms: seq<Marker>, choose: Marker -> bool)
    requires UniqueIds(ms)
    ensures UniqueIds(Select(ms, choose))
  {
    if ms != [] {
      var n := |ms| - 1;
      SelectIsUnique(ms[..n], choose);
      SelectElements(ms[..n], choose);
      var before := Select(ms[..n], choose);
      forall i | 0 <= i < |before| ensures before[i].id != ms[n].id {
        assert before[i] in ms[..n];
      }
    }
  }

  lemma UniqueIsOneEach(ms: seq<Marker>)
    requires UniqueIds(ms)
    ensures OneEach(ms)
  {
    forall m | m in ms ensures Find(ms, m.id) == Some(m) {
      FindFinds(ms, m.id);
      var i :| 0 <= i < |ms| && ms[i] == m;
      var j :| 0 <= j < |ms| && Some(ms[j]) == Find(ms, m.id);
      assert i == j;
    }
  }

  /** Which ids a complete run flags and drops. */
  lemma ScriptIds(script: Script)
    ensures forall id :: id in FlaggedBy(Steps(script), |Steps(script)|) <==> id in script.deprecate
    ensures forall id :: id in DroppedBy(Steps(script), |Steps(script)|) <==> id in script.delete
  {
    var steps := Steps(script);
    Parts(script);
    forall id | id in script.deprecate ensures id in FlaggedBy(steps, |steps|) {
      var i :| 0 <= i < |script.deprecate| && script.deprecate[i] == id;
      assert DeprecateAt(steps, 0 + i, script.deprecate[i]);
    }
    forall id | id in script.delete ensures id in DroppedBy(steps, |steps|) {
      var i :| 0 <= i < |script.delete| && script.delete[i] == id;
      assert RemoveAt(steps, |script.deprecate| + |script.promotions| + i, script.delete[i]);
    }
  }

  /** The plan flags and drops exactly the folder's old unpinned markers, by whether they were deprecated. */
  lemma PlanIdsOf(s: Store, keep: nat, plan: Plan, script: Script, m: Marker)
    requires UniqueIds(s.markers) && Plans(s, keep, plan) && Enumerates(script, plan) && m in s.markers
    ensures m.id in script.deprecate <==> Aging(s.markers, m, keep)
    ensures m.id in script.delete <==> Expiring(s.markers, m, keep)
  {
    UniqueIsOneEach(s.markers);
    forall x | (Aging(s.markers, x, keep) || Expiring(s.markers, x, keep)) && x.id == m.id ensures x == m {
      SelectElements(Old(s.markers, x.folder, keep), Ages);
      SelectElements(Old(s.markers, x.folder, keep), Expires);
      OldIsOfFolder(s.markers, x.folder, keep, x);
    }
  }

  /** The store after the whole script, if it completes. */
  ghost function Final(s: Store, archive: Archive, script: Script): Option<Disk> {
    After(Disk(s, archive), Steps(script), |Steps(script)|)
  }

  /** A run whose promotions can all be done completes, and takes every folder's markers through one round. */
  lemma CompleteRunIsOneRound(s: Store, archive: Archive, keep: nat, plan: Plan, script: Script, f: FolderId)
    requires UniqueIds(s.markers) && Plans(s, keep, plan) && Enumerates(script, plan) && Completable(s, plan)
    ensures Final(s, archive, script).Some?
    ensures OfFolder(Final(s, archive, script).value.store.markers, f) == Round(OfFolder(s.markers, f), keep)
  {
    var steps := Steps(script);
    UniqueIsOneEach(s.markers);
    CompletesExactlyWhen(s, archive, keep, plan, script);
    var flagged, dropped := FlaggedBy(steps, |steps|), DroppedBy(steps, |steps|);
    RunUpdatesMarkers(Disk(s, archive), steps, |steps|);
    UpdateOfFolder(s.markers, flagged, dropped, f);
    ScriptIds(script);
    var here := OfFolder(s.markers, f);
    var c := Cutoff(|here|, keep);
    SelectIsUnique(s.markers, (m: Marker) => m.folder == f);
    SelectElements(s.markers, (m: Marker) => m.folder == f);
    SelectElements(here[..c], Ages);
    SelectElements(here[..c], Expires);
    forall m | m in here
      ensures (m.id in flagged <==> m in here[..c] && Ages(m)) && (m.id in dropped <==> m in here[..c] && Expires(m))
    {
      PlanIdsOf(s, keep, plan, script, m);
    }
    FolderRound(here, c, flagged, dropped);
  }

  lemma FolderRound(here: seq<Marker>, c: nat, flagged: set<Id>, dropped: set<Id>)
    requires UniqueIds(here) && c <= |here|
    requires forall m :: m in here ==>
               (m.id in flagged <==> m in here[..c] && Ages(m)) && (m.id in dropped <==> m in here[..c] && Expires(m))
    ensures Update(here, flagged, dropped) == Age(here[..c]) + here[c..]
  {
    UpdateOfSum(here[..c], here[c..], flagged, dropped);
    assert here == here[..c] + here[c..];
    UpdateAges(here[..c], flagged, dropped);
    forall m | m in here[c..] ensures m !in here[..c] {
      var j :| 0 <= j < |here[c..]| && here[c..][j] == m;
      assert here[c + j] == m;
    }
    UpdateSkips(here[c..], flagged, dropped);
  }

  /** A plan deletes only markers that were already deprecated, never a pinned or recent one, and each
      hands its files on to a later marker of its folder that the plan does not delete. */
  lemma HeirsSurvive(s: Store, keep: nat, plan: Plan, k: nat)
    requires UniqueIds(s.markers) && Plans(s, keep, plan) && k < |plan.heirs|
    ensures var heir := plan.heirs[k];
            && heir.from in s.markers && heir.from.deprecated && !heir.from.pinned
            && heir.to in s.markers && heir.to.folder == heir.from.folder && !Expiring(s.markers, heir.to, keep)
            && exists i, j :: 0 <= i < j < |s.markers| && s.markers[i] == heir.from && s.markers[j] == heir.to
  {
    var heir := plan.heirs[k];
    var f := heir.from.folder;
    var here := OfFolder(s.markers, f);
    var c := Cutoff(|here|, keep);
    HeirIsStored(s.markers, keep, heir);
    SelectIsUnique(s.markers, (m: Marker) => m.folder == f);
    var i, j :| 0 <= i < j < |here| && here[i] == heir.from && here[j] == heir.to && i < c
                && Expires(heir.from) && NextSurvivor(here, i, j, keep);
    SelectElements(here[..c], Expires);
    if heir.to in here[..c] {
      var x :| 0 <= x < c && here[x] == heir.to;
      assert x == j;
    }
    SelectKeepsOrder(s.markers, (m: Marker) => m.folder == f, i, j);
  }

  lemma {:induction false} SelectKeepsOrder(ms: seq<Marker>, choose: Marker -> bool, i: nat, j: nat)
    requires i < j < |Select(ms, choose)|
    ensures exists x, y :: 0 <= x < y < |ms| && ms[x] == Select(ms, choose)[i] && ms[y] == Select(ms, choose)[j]
  {
    var n := |ms| - 1;
    var before := Select(ms[..n], choose);
    if j < |before| {
      SelectKeepsOrder(ms[..n], choose, i, j);
      var x, y :| 0 <= x < y < n && ms[..n][x] == before[i] && ms[..n][y] == before[j];
      assert ms[x] == before[i] && ms[y] == before[j];
    } else {
      SelectElements(ms[..n], choose);
      assert before[i] in ms[..n];
      var x :| 0 <= x < n && ms[..n][x] == before[i];
      assert ms[x] == before[i] && ms[n] == Select(ms, choose)[j];
    }
  }

  lemma {:induction false} UpdateIsUnique(ms: seq<Marker>, flagged: set<Id>, dropped: set<Id>)
    requires UniqueIds(ms)
    ensures UniqueIds(Update(ms, flagged, dropped))
  {
    if ms != [] {
      var n := |ms| - 1;
      UpdateIsUnique(ms[..n], flagged, dropped);
      var before := Update(ms[..n], flagged, dropped);
      forall i | 0 <= i < |before| ensures before[i].id != ms[n].id {
        UpdateStems(ms[..n], flagged, dropped, before[i]);
      }
    }
  }

  lemma CompleteRunKeepsIdsUnique(s: Store, archive: Archive, script: Script)
    requires UniqueIds(s.markers) && Final(s, archive, script).Some?
    ensures UniqueIds(Final(s, archive, script).value.store.markers)
  {
    var steps := Steps(script);
    RunUpdatesMarkers(Disk(s, archive), steps, |steps|);
    UpdateIsUnique(s.markers, FlaggedBy(steps, |steps|), DroppedBy(steps, |steps|));
  }

  /** Whatever else happens to the archive, two runs with the same `keep` whose planned promotions can all
      be done bring every folder to its newest `keep` markers and its pinned ones. */
  lemma TwoRunsReachTheFixedPoint(s: Store, a: Archive, plan: Plan, script: Script, t: Store, b: Archive, next: Plan,
                                  rest: Script, keep: nat, f: FolderId)
    requires UniqueIds(s.markers) && Plans(s, keep, plan) && Enumerates(script, plan) && Completable(s, plan)
    requires Final(s, a, script).Some? ==> t == Final(s, a, script).value.store
    requires Plans(t, keep, next) && Enumerates(rest, next) && Completable(t, next)
    ensures Final(t, b, rest).Some?
    ensures OfFolder(Final(t, b, rest).value.store.markers, f) == Kept(OfFolder(s.markers, f), keep)
  {
    CompleteRunIsOneRound(s, a, keep, plan, script, f);
    CompleteRunKeepsIdsUnique(s, a, script);
    CompleteRunIsOneRound(t, b, keep, next, rest, f);
    TwoRoundsReachTheFixedPoint(OfFolder(s.markers, f), keep);
  }
}
