/** How a path's history decides what a promotion does to the snapshots. */
module RetentionHistory {
  import opened Outcomes
  import opened Bytes
  import opened ArchiveBlocks
  import opened Manifests
  import opened Retention
  import opened RetentionRun
  import opened RetentionTheorems
  import opened RetentionCompletion

  // ---------------------------------------------------------------- when snapshots agree

  /** A path was written between the two snapshots, and written again or deleted after the later one, so
      the change list, which knows only the last change, does not name it. */
  ghost predicate HiddenChange(p: PathState, after: nat, upTo: nat) {
    && (exists r :: after < r <= upTo && r in p.history)
    && (p.live.None? || p.live.value.revision > upTo)
  }

  /** The current manifest is the latest written one; any later record is a copy of it. */
  ghost predicate Tracked(p: PathState) {
    p.live.Some? ==>
      && p.live.value.revision > 0 && p.live.value.revision in p.history
      && forall r :: r in p.history && r >= p.live.value.revision ==> p.history[r] == p.live.value.manifest
  }

  lemma {:induction false} LatestReaches(history: map<nat, Manifest>, cursor: nat, r: nat)
    requires 0 < r <= cursor && r in history
    ensures Latest(history, cursor) >= r
  {
    if r < cursor {
      LatestReaches(history, cursor - 1, r);
    }
  }

  /** A promoted path is the same in both snapshots without a hidden change; with one, the later snapshot
      shows the last hidden record. */
  lemma AgreesUnlessHidden(p: PathState, after: nat, upTo: nat)
    requires after <= upTo && Tracked(p) && View(p, upTo).Some? && !ChangeListed(p, after, upTo)
    ensures !HiddenChange(p, after, upTo) ==> View(p, after) == View(p, upTo)
    ensures HiddenChange(p, after, upTo) ==>
              Latest(p.history, upTo) > after && View(p, upTo) == Some(p.history[Latest(p.history, upTo)])
  {
    var b := Latest(p.history, upTo);
    if HiddenChange(p, after, upTo) {
      var r :| after < r <= upTo && r in p.history;
      LatestReaches(p.history, upTo, r);
    } else if b <= after {
      LatestBelow(p.history, after, upTo);
    } else {
      var r := p.live.value.revision;
      LatestReaches(p.history, after, r);
      LatestReaches(p.history, upTo, r);
    }
  }

  // ---------------------------------------------------------------- where histories come from

  /** What happens to a path while its folder's cursor advances. A promotion takes what one cursor shows to
      a later one between which no change is listed. */
  datatype PathOp = Write(manifest: Manifest) | Delete | Elsewhere | PromoteFrom(from: nat, to: nat)

  ghost predicate OpAllowed(p: PathState, top: nat, op: PathOp) {
    op.PromoteFrom? ==>
      && op.from <= op.to <= top && op.to > 0 && View(p, op.from).Some? && View(p, op.to).Some?
      && !ChangeListed(p, op.from, op.to)
  }

  ghost function AfterOp(p: PathState, top: nat, op: PathOp): PathState
    requires OpAllowed(p, top, op)
  {
    match op
    case Write(m) => PathState(p.history[top + 1 := m], Some(Version(top + 1, m)), None)
    case Delete => PathState(p.history, None, Some(top + 1))
    case Elsewhere => p
    case PromoteFrom(from, to) => Recorded(p, to, View(p, from).value)
  }

  ghost function TopAfter(top: nat, op: PathOp): nat {
    if op.PromoteFrom? then top else top + 1
  }

  ghost predicate Historic(p: PathState, top: nat) {
    && Tracked(p) && (forall r :: r in p.history ==> r <= top)
    && (p.live.Some? ==> p.live.value.revision <= top)
  }

  lemma OpKeepsHistoric(p: PathState, top: nat, op: PathOp)
    requires Historic(p, top) && OpAllowed(p, top, op)
    ensures Historic(AfterOp(p, top, op), TopAfter(top, op))
  {
    if op.PromoteFrom? && p.live.Some? && p.live.value.revision <= op.to {
      LatestReaches(p.history, op.from, p.live.value.revision);
    }
  }

  /** Every path that was written, deleted and promoted in any order from nothing is tracked. */
  lemma {:induction false} EveryHistoryIsTracked(states: seq<PathState>, tops: seq<nat>, ops: seq<PathOp>, n: nat)
    requires |states| == |tops| == |ops| + 1 && states[0] == PathState(map[], None, None) && tops[0] == 0
    requires forall i :: 0 <= i < |ops| ==>
               && OpAllowed(states[i], tops[i], ops[i])
               && states[i + 1] == AfterOp(states[i], tops[i], ops[i]) && tops[i + 1] == TopAfter(tops[i], ops[i])
    requires n <= |ops|
    ensures Historic(states[n], tops[n])
  {
    if n > 0 {
      EveryHistoryIsTracked(states, tops, ops, n - 1);
      OpKeepsHistoric(states[n - 1], tops[n - 1], ops[n - 1]);
      assert states[n - 1 + 1] == AfterOp(states[n - 1], tops[n - 1], ops[n - 1]);
    }
  }

  // ---------------------------------------------------------------- exactly when views are kept

  /** Every state up to the `n`-th shows what the store showed. */
  ghost predicate KeepsViews(s: Store, archive: Archive, steps: seq<Step>, n: nat)
    requires n <= |steps|
  {
    forall m :: 0 <= m <= n ==> ShowsSame(s, archive, steps, m)
  }

  /** The state after `m` steps, if they can be done, shows what the store showed. */
  ghost predicate ShowsSame(s: Store, archive: Archive, steps: seq<Step>, m: nat)
    requires m <= |steps|
  {
    After(Disk(s, archive), steps, m).Some? ==> SameViews(s, After(Disk(s, archive), steps, m).value.store)
  }

  ghost predicate StepAgrees(s: Store, step: Step) {
    step.Promote? ==> Agrees(s, step.promotion)
  }

  /** Both snapshots of every promotion among the first `n` steps show the same. */
  ghost predicate AllAgree(s: Store, steps: seq<Step>, n: nat)
    requires n <= |steps|
  {
    forall k :: 0 <= k < n ==> StepAgrees(s, steps[k])
  }

  lemma OneMoreStep(s: Store, archive: Archive, steps: seq<Step>, n: nat)
    requires n < |steps|
    ensures KeepsViews(s, archive, steps, n + 1) <==>
              KeepsViews(s, archive, steps, n) && ShowsSame(s, archive, steps, n + 1)
    ensures AllAgree(s, steps, n + 1) <==> AllAgree(s, steps, n) && StepAgrees(s, steps[n])
    ensures KeepsViews(s, archive, steps, n) ==> ShowsSame(s, archive, steps, n)
  {
  }

  /** From a state that shows the same, the next one does so exactly if its step agrees. */
  ghost predicate StepDecides(s: Store, archive: Archive, steps: seq<Step>, n: nat)
    requires n < |steps|
  {
    After(Disk(s, archive), steps, n + 1).Some? && ShowsSame(s, archive, steps, n) ==>
      (ShowsSame(s, archive, steps, n + 1) <==> StepAgrees(s, steps[n]))
  }

  lemma PlannedStepDecides(s: Store, archive: Archive, keep: nat, plan: Plan, steps: seq<Step>, n: nat)
    requires OneEach(s.markers) && Plans(s, keep, plan) && FromPlan(plan, steps) && n < |steps|
    ensures StepDecides(s, archive, steps, n)
  {
    if After(Disk(s, archive), steps, n + 1).Some? && ShowsSame(s, archive, steps, n) {
      var d := After(Disk(s, archive), steps, n).value;
      StepsKeepShown(s, archive, keep, plan, steps, n);
      if StepAgrees(s, steps[n]) {
        StepKeepsViews(s, keep, plan, d, steps[n]);
      } else if ShowsSame(s, archive, steps, n + 1) {
        PromotionDone(Disk(s, archive), steps, n, steps[n].promotion);
        KeptStepAgrees(s, keep, plan, d, steps[n].promotion);
      }
    }
  }

  lemma {:induction false} StepsDecide(s: Store, archive: Archive, steps: seq<Step>, n: nat)
    requires n <= |steps| && After(Disk(s, archive), steps, n).Some?
    requires forall k :: 0 <= k < n ==> StepDecides(s, archive, steps, k)
    ensures KeepsViews(s, archive, steps, n) <==> AllAgree(s, steps, n)
  {
    if n == 0 {
      assert ShowsSame(s, archive, steps, 0);
    } else {
      ReachedOneBefore(Disk(s, archive), steps, n);
      StepsDecide(s, archive, steps, n - 1);
      OneMoreStep(s, archive, steps, n - 1);
      assert StepDecides(s, archive, steps, n - 1);
    }
  }

  /** However far a run gets, whether it completes, fails or is stopped: every snapshot has shown the same all
      along exactly when both snapshots of every promotion done so far agree. */
  lemma StoppedRunKeepsViewsExactlyWhen(s: Store, archive: Archive, keep: nat, plan: Plan, script: Script, n: nat)
    requires Runs(s, keep, plan, script) && n <= |Steps(script)| && After(Disk(s, archive), Steps(script), n).Some?
    ensures KeepsViews(s, archive, Steps(script), n) <==> AllAgree(s, Steps(script), n)
  {
    var steps := Steps(script);
    ScriptIsFromPlan(script, plan);
    forall k | 0 <= k < n ensures StepDecides(s, archive, steps, k) {
      PlannedStepDecides(s, archive, keep, plan, steps, k);
    }
    StepsDecide(s, archive, steps, n);
  }

  /** If the snapshots agree on every promoted path, every snapshot shows the same after any number of
      steps, so what it still shows it can still restore. */
  lemma StoppedRetentionKeepsViews(s: Store, archive: Archive, keep: nat, plan: Plan, script: Script, n: nat)
    requires Runs(s, keep, plan, script) && forall p :: p in plan.promotions ==> Agrees(s, p)
    requires n <= |Steps(script)| && After(Disk(s, archive), Steps(script), n).Some?
    ensures SameViews(s, After(Disk(s, archive), Steps(script), n).value.store)
  {
    ScriptIsFromPlan(script, plan);
    StoppedRunKeepsViewsExactlyWhen(s, archive, keep, plan, script, n);
    assert ShowsSame(s, archive, Steps(script), n);
  }

  /** A run that completes keeps every view throughout exactly when both snapshots of every promotion agree. */
  lemma CompleteRunKeepsViewsExactlyWhen(s: Store, archive: Archive, keep: nat, plan: Plan, script: Script)
    requires Runs(s, keep, plan, script) && Completable(s, plan)
    ensures KeepsViews(s, archive, Steps(script), |Steps(script)|) <==>
              forall p :: p in plan.promotions ==> Agrees(s, p)
  {
    CompletesExactlyWhen(s, archive, keep, plan, script);
    StoppedRunKeepsViewsExactlyWhen(s, archive, keep, plan, script, |Steps(script)|);
    ScriptIsFromPlan(script, plan);
    if AllAgree(s, Steps(script), |Steps(script)|) {
      forall p | p in plan.promotions ensures Agrees(s, p) {
        var k := PromotionStep(script, plan, p);
        assert StepAgrees(s, Steps(script)[k]);
      }
    }
  }

  lemma PromotionDone(start: Disk, steps: seq<Step>, k: nat, p: Promotion)
    requires k < |steps| && steps[k] == Promote(p) && After(start, steps, k).Some? && After(start, steps, k + 1).Some?
    ensures var d := After(start, steps, k).value;
            Promoted(d.store, p).Some? && After(start, steps, k + 1).value.store == PromoteOne(d.store, p)
  {
  }

  lemma KeptStepAgrees(s: Store, keep: nat, plan: Plan, d: Disk, p: Promotion)
    requires OneEach(s.markers) && Plans(s, keep, plan) && p in plan.promotions && Underway(s, d)
    requires Promoted(d.store, p).Some? && SameViews(s, d.store) && SameViews(s, PromoteOne(d.store, p))
    ensures Agrees(s, p)
  {
    HeirFound(s, keep, plan, d, p);
    KeptByPromotion(s, d, p, Find(d.store.markers, p.heir.from.id).value, Find(d.store.markers, p.heir.to.id).value);
  }

  lemma KeptByPromotion(s: Store, d: Disk, p: Promotion, from: Marker, to: Marker)
    requires Promoted(d.store, p).Some? && SameViews(s, d.store) && SameViews(s, PromoteOne(d.store, p)) &&
             Promotes(s, p)
    requires Find(d.store.markers, p.heir.from.id) == Some(from) && Find(d.store.markers, p.heir.to.id) == Some(to)
    requires from.folder == p.heir.from.folder && from.cursor == p.heir.from.cursor && to.cursor == p.heir.to.cursor
    ensures Agrees(s, p)
  {
    var f := p.heir.from.folder;
    assert SamePath(s, d.store, f, p.path) && SamePath(s, PromoteOne(d.store, p), f, p.path);
    PromotionKeepsViews(FolderOf(d.store, f)[p.path], to.cursor, Promoted(d.store, p).value);
  }

  // ---------------------------------------------------------------- runs without a hidden change

  /** A promoted path is tracked, its heir is no older by its cursor, and no change in between is hidden. */
  ghost predicate Plain(s: Store, p: Promotion) {
    && p.path in FolderOf(s, p.heir.from.folder) && p.heir.from.cursor <= p.heir.to.cursor
    && Tracked(FolderOf(s, p.heir.from.folder)[p.path])
    && !HiddenChange(FolderOf(s, p.heir.from.folder)[p.path], p.heir.from.cursor, p.heir.to.cursor)
  }

  lemma PlainAgrees(s: Store, p: Promotion)
    requires Promotes(s, p) && Plain(s, p)
    ensures Agrees(s, p) && CanPromote(s, p)
  {
    AgreesUnlessHidden(FolderOf(s, p.heir.from.folder)[p.path], p.heir.from.cursor, p.heir.to.cursor);
  }

  lemma SameViewsSameBlocks(s: Store, t: Store, m: Marker)
    requires SameViews(s, t)
    ensures BlocksOf(s, m) == BlocksOf(t, m)
  {
    var a, b := FolderOf(s, m.folder), FolderOf(t, m.folder);
    forall h ensures h in BlocksOf(s, m) <==> h in BlocksOf(t, m) {
      if h in BlocksOf(s, m) {
        var path :| path in a && View(a[path], m.cursor).Some? && h in Hashes(View(a[path], m.cursor).value);
        assert SamePath(s, t, m.folder, path);
      }
      if h in BlocksOf(t, m) {
        var path :| path in b && View(b[path], m.cursor).Some? && h in Hashes(View(b[path], m.cursor).value);
        assert SamePath(s, t, m.folder, path);
      }
    }
  }

  /** With plain promotions a run completes, and wherever it stops every snapshot shows what it showed, and
      every stored one keeps the archive blocks of all that it now shows. */
  lemma PlainRunKeepsEverything(s: Store, archive: Archive, keep: nat, plan: Plan, script: Script, n: nat, h: Digest)
    requires Runs(s, keep, plan, script) && (forall p :: p in plan.promotions ==> Plain(s, p)) && n <= |Steps(script)|
    ensures After(Disk(s, archive), Steps(script), n).Some?
    ensures var d := After(Disk(s, archive), Steps(script), n).value;
            && SameViews(s, d.store)
            && (h in archive ==> forall m :: m in d.store.markers && h in BlocksOf(d.store, m) ==>
                  h in d.archive && d.archive[h] == archive[h])
  {
    forall p | p in plan.promotions ensures Agrees(s, p) && CanPromote(s, p) {
      PlainAgrees(s, p);
    }
    CompletableReaches(s, archive, keep, plan, script, n);
    StoppedRetentionKeepsViews(s, archive, keep, plan, script, n);
    var d := After(Disk(s, archive), Steps(script), n).value;
    if h in archive {
      StoppedRetentionKeepsBlocks(s, archive, keep, plan, script, n, h);
      forall m | m in d.store.markers && h in BlocksOf(d.store, m)
        ensures h in d.archive && d.archive[h] == archive[h]
      {
        SameViewsSameBlocks(s, d.store, m);
      }
    }
  }

  // ---------------------------------------------------------------- two stores on which retention goes wrong

  /** Two markers of one folder; the older marker is deprecated and only one is to be kept. */
  ghost predicate TwoMarkers(s: Store, f: FolderId, first: Marker, heir: Marker) {
    && first == Marker("1", f, 1, false, true) && heir == Marker("2", f, heir.cursor, false, false)
    && s.markers == [first, heir] && f in s.folders
  }

  /** The same with a single path. */
  ghost predicate TwoSnapshots(s: Store, f: FolderId, path: Path, first: Marker, heir: Marker, state: PathState) {
    TwoMarkers(s, f, first, heir) && heir.cursor == 2 && s.folders == map[f := map[path := state]]
  }

  lemma OldOfTwo(ms: seq<Marker>, f: FolderId, first: Marker, heir: Marker, g: FolderId)
    requires ms == [first, heir] && first.folder == f && heir.folder == f
    ensures OfFolder(ms, g) == (if g == f then ms else []) && Old(ms, g, 1) == if g == f then [first] else []
  {
    var here := (m: Marker) => m.folder == g;
    assert ms[..1] == [first] && [first][..0] == [];
    assert Select([], here) == [] && Select([first], here) == if g == f then [first] else [];
  }

  lemma OnlyFirstExpires(ms: seq<Marker>, f: FolderId, first: Marker, heir: Marker, m: Marker)
    requires ms == [first, heir] && first.folder == f && heir.folder == f && Expires(first)
    ensures !Aging(ms, m, 1) && (Expiring(ms, m, 1) <==> m == first)
  {
    OldOfTwo(ms, f, first, heir, m.folder);
    SelectElements(Old(ms, m.folder, 1), Ages);
    SelectElements(Old(ms, m.folder, 1), Expires);
  }

  lemma FirstIsElement<T>(s: seq<T>)
    ensures s != [] ==> s[0] in s
  {
  }

  /** The only possible plan: the older marker goes, with the newer as its heir. */
  lemma PlanOfTwo(s: Store, f: FolderId, first: Marker, heir: Marker, plan: Plan, script: Script)
    requires TwoMarkers(s, f, first, heir) && Runs(s, 1, plan, script)
    ensures script.deprecate == [] && first.id in script.delete && heir.id !in script.delete
    ensures forall p :: p in plan.promotions <==> p.heir == Heir(first, heir) && Promotes(s, p)
  {
    forall m ensures m !in plan.deprecate && (m in Froms(plan.heirs) <==> m == first) {
      OnlyFirstExpires(s.markers, f, first, heir, m);
    }
    FirstIsElement(script.deprecate);
    OldOfTwo(s.markers, f, first, heir, f);
    forall h | h in plan.heirs ensures h == Heir(first, heir) {
      var i :| 0 <= i < |plan.heirs| && plan.heirs[i] == h;
      assert Froms(plan.heirs)[i] in Froms(plan.heirs);
    }
    assert first in Froms(plan.heirs);
    var k :| 0 <= k < |plan.heirs| && Froms(plan.heirs)[k] == first;
    assert plan.heirs[k] in plan.heirs;
  }

  /** A path created between the two snapshots and changed after the later one is planned for promotion, but
      the older snapshot has nothing to promote: no run completes, and none changes anything. */
  lemma HiddenCreationStopsRetention(s: Store, f: FolderId, path: Path, first: Marker, heir: Marker, b: Manifest,
                                     c: Manifest, archive: Archive, plan: Plan, script: Script, n: nat)
    requires TwoSnapshots(s, f, path, first, heir, PathState(map[2 := b, 3 := c], Some(Version(3, c)), None))
    requires Runs(s, 1, plan, script) && n <= |Steps(script)|
    ensures Tracked(FolderOf(s, f)[path]) && !Completable(s, plan) && Final(s, archive, script).None?
    ensures After(Disk(s, archive), Steps(script), n).Some? ==>
              After(Disk(s, archive), Steps(script), n).value == Disk(s, archive)
  {
    var state, p := FolderOf(s, f)[path], Promotion(Heir(first, heir), path);
    PlanOfTwo(s, f, first, heir, plan, script);
    assert Latest(state.history, 2) == 2 && Latest(state.history, 0) == 0;
    assert Latest(state.history, 1) == 0;
    assert Promotes(s, p) && !CanPromote(s, p);
    CompletesExactlyWhen(s, archive, 1, plan, script);
    if n > 0 && After(Disk(s, archive), Steps(script), n).Some? {
      assert p in script.promotions;
      assert Steps(script)[0].promotion in script.promotions;
      ReachedPromotion(s, archive, 1, plan, script, n, 0);
    }
  }

  /** A path with a hidden change, and a later one with a hidden creation. */
  ghost predicate ChangedAndCreated(s: Store, f: FolderId, x: Path, y: Path, first: Marker, heir: Marker, a: Manifest,
                                    b: Manifest, c: Manifest)
  {
    && TwoMarkers(s, f, first, heir) && heir.cursor == 3 && x != y
    && s.folders == map[f := map[x := PathState(map[1 := a, 2 := b, 4 := c], Some(Version(4, c)), None),
                                 y := PathState(map[3 := b, 5 := c], Some(Version(5, c)), None)]]
  }

  lemma ChangedAndCreatedViews(s: Store, f: FolderId, x: Path, y: Path, first: Marker, heir: Marker, a: Manifest,
                               b: Manifest, c: Manifest)
    requires ChangedAndCreated(s, f, x, y, first, heir, a, b, c)
    ensures var changed, created := FolderOf(s, f)[x], FolderOf(s, f)[y];
            && View(changed, 1) == Some(a) && View(changed, 3) == Some(b) && View(created, 1).None?
            && View(Recorded(changed, 3, a), 3) == Some(a)
  {
    var changed, created := FolderOf(s, f)[x], FolderOf(s, f)[y];
    assert Latest(changed.history, 1) == 1 && Latest(changed.history, 2) == 2 && Latest(changed.history, 3) == 2;
    assert Latest(created.history, 0) == 0 && Latest(created.history, 1) == 0;
    assert Latest(Recorded(changed, 3, a).history, 3) == 3;
  }

  lemma StopsAtTheSecond(s: Store, f: FolderId, x: Path, y: Path, first: Marker, heir: Marker, a: Manifest,
                         b: Manifest, c: Manifest, archive: Archive, plan: Plan, script: Script)
    requires ChangedAndCreated(s, f, x, y, first, heir, a, b, c) && a != b && Runs(s, 1, plan, script)
    requires script.promotions == [Promotion(Heir(first, heir), x), Promotion(Heir(first, heir), y)]
    ensures var steps, start := Steps(script), Disk(s, archive);
            && |steps| >= 2 && steps[0] == Promote(script.promotions[0]) && After(start, steps, 1).Some?
            && After(start, steps, 2).None? && Final(s, archive, script).None?
  {
    var steps, p, q := Steps(script), Promotion(Heir(first, heir), x), Promotion(Heir(first, heir), y);
    PlanOfTwo(s, f, first, heir, plan, script);
    ChangedAndCreatedViews(s, f, x, y, first, heir, a, b, c);
    assert steps[0] == Promote(p) && steps[1] == Promote(q);
    assert q in script.promotions && !CanPromote(s, q) && CanPromote(s, p);
    CompletesExactlyWhen(s, archive, 1, plan, script);
    NextStepSucceeds(s, archive, 1, plan, script, 0);
    NextStepSucceeds(s, archive, 1, plan, script, 1);
  }

  /** A run that fails can have changed a snapshot before: with the promotions in the order of their paths it
      records the older manifest of the first path and then stops at the second, with both markers still there. */
  lemma FailedRunChangesASnapshot(s: Store, f: FolderId, x: Path, y: Path, first: Marker, heir: Marker, a: Manifest,
                                  b: Manifest, c: Manifest, archive: Archive, plan: Plan, script: Script)
    requires ChangedAndCreated(s, f, x, y, first, heir, a, b, c) && a != b && Runs(s, 1, plan, script)
    requires script.promotions == [Promotion(Heir(first, heir), x), Promotion(Heir(first, heir), y)]
    ensures Final(s, archive, script).None? && View(FolderOf(s, f)[x], 3) == Some(b)
    ensures |Steps(script)| >= 2 && After(Disk(s, archive), Steps(script), 2).None?
    ensures var stop := After(Disk(s, archive), Steps(script), 1);
            && stop.Some? && stop.value.store.markers == s.markers
            && x in FolderOf(stop.value.store, f) && View(FolderOf(stop.value.store, f)[x], 3) == Some(a)
    ensures !KeepsViews(s, archive, Steps(script), 1)
  {
    StopsAtTheSecond(s, f, x, y, first, heir, a, b, c, archive, plan, script);
    ChangedAndCreatedViews(s, f, x, y, first, heir, a, b, c);
    assert Find(s.markers[..1], first.id) == Some(first) && Find(s.markers, first.id) == Some(first);
    StoppedRunKeepsViewsExactlyWhen(s, archive, 1, plan, script, 1);
    assert !StepAgrees(s, Steps(script)[0]);
  }

  /** The state of the path when the older manifest has been recorded at the newer snapshot's cursor. */
  ghost predicate PathIs(d: Disk, f: FolderId, path: Path, state: PathState) {
    FolderOf(d.store, f) == map[path := state]
  }

  lemma RecordedOnce(s: Store, f: FolderId, path: Path, first: Marker, heir: Marker, a: Manifest, b: Manifest,
                     c: Manifest, plan: Plan, d: Disk, state: PathState)
    requires TwoSnapshots(s, f, path, first, heir, PathState(map[1 := a, 2 := b, 3 := c], Some(Version(3, c)), None))
    requires OneEach(s.markers) && Plans(s, 1, plan) && Underway(s, d) &&
             Promotion(Heir(first, heir), path) in plan.promotions
    requires state in {FolderOf(s, f)[path], Recorded(FolderOf(s, f)[path], 2, a)} && PathIs(d, f, path, state)
    requires Promoted(d.store, Promotion(Heir(first, heir), path)).Some?
    ensures PathIs(d.(store := PromoteOne(d.store, Promotion(Heir(first, heir), path))), f, path,
                   Recorded(FolderOf(s, f)[path], 2, a))
  {
    var p := Promotion(Heir(first, heir), path);
    HeirFound(s, 1, plan, d, p);
    assert Latest(state.history, 1) == 1 && View(state, 1) == Some(a);
    assert Recorded(Recorded(FolderOf(s, f)[path], 2, a), 2, a) == Recorded(FolderOf(s, f)[path], 2, a);
  }

  function AnyPromoted(steps: seq<Step>, n: nat): bool
    requires n <= |steps|
  {
    n > 0 && (steps[n - 1].Promote? || AnyPromoted(steps, n - 1))
  }

  /** Before the promotion the path is as it was, after it as recorded. */
  lemma {:induction false} RunRecords(s: Store, f: FolderId, path: Path, first: Marker, heir: Marker, a: Manifest,
                                      b: Manifest, c: Manifest, archive: Archive, plan: Plan, steps: seq<Step>, n: nat)
    requires TwoSnapshots(s, f, path, first, heir, PathState(map[1 := a, 2 := b, 3 := c], Some(Version(3, c)), None))
    requires OneEach(s.markers) && Plans(s, 1, plan) && FromPlan(plan, steps)
    requires forall p :: p in plan.promotions ==> p == Promotion(Heir(first, heir), path)
    requires n <= |steps| && After(Disk(s, archive), steps, n).Some?
    ensures PathIs(After(Disk(s, archive), steps, n).value, f, path,
                   if AnyPromoted(steps, n) then Recorded(FolderOf(s, f)[path], 2, a) else FolderOf(s, f)[path])
  {
    if n > 0 {
      RunRecords(s, f, path, first, heir, a, b, c, archive, plan, steps, n - 1);
      StepsKeepShown(s, archive, 1, plan, steps, n - 1);
      StepRecords(s, f, path, first, heir, a, b, c, plan, After(Disk(s, archive), steps, n - 1).value, steps[n - 1]);
    }
  }

  lemma StepRecords(s: Store, f: FolderId, path: Path, first: Marker, heir: Marker, a: Manifest, b: Manifest,
                    c: Manifest, plan: Plan, d: Disk, step: Step)
    requires TwoSnapshots(s, f, path, first, heir, PathState(map[1 := a, 2 := b, 3 := c], Some(Version(3, c)), None))
    requires OneEach(s.markers) && Plans(s, 1, plan) && Underway(s, d) && Do(d, step).Some?
    requires PathIs(d, f, path, FolderOf(s, f)[path]) || PathIs(d, f, path, Recorded(FolderOf(s, f)[path], 2, a))
    requires step.Promote? ==> step.promotion == Promotion(Heir(first, heir), path) && step.promotion in plan.promotions
    ensures PathIs(Do(d, step).value, f, path,
                   if step.Promote? then Recorded(FolderOf(s, f)[path], 2, a) else FolderOf(d.store, f)[path])
  {
    if step.Promote? {
      RecordedOnce(s, f, path, first, heir, a, b, c, plan, d, FolderOf(d.store, f)[path]);
    } else {
      StepKeepsFolders(d, step);
    }
  }

  lemma {:induction false} StepIsPromoted(steps: seq<Step>, n: nat, k: nat)
    requires k < n <= |steps| && steps[k].Promote?
    ensures AnyPromoted(steps, n)
  {
    if k < n - 1 {
      StepIsPromoted(steps, n - 1, k);
    }
  }

  lemma StepKeepsFolders(d: Disk, step: Step)
    requires Do(d, step).Some? && !step.Promote?
    ensures Do(d, step).value.store.folders == d.store.folders
  {
  }

  lemma {:induction false} SweptIsGone(d: Disk, steps: seq<Step>, n: nat, i: nat, h: Digest)
    requires i < n <= |steps| && steps[i] == Sweep(h) && After(d, steps, n).Some?
    ensures h !in After(d, steps, n).value.archive
  {
    if i < n - 1 {
      SweptIsGone(d, steps, n - 1, i, h);
      StepAddsNoBlock(After(d, steps, n - 1).value, steps[n - 1], h);
    }
  }

  lemma StepAddsNoBlock(d: Disk, step: Step, h: Digest)
    requires Do(d, step).Some? && h !in d.archive
    ensures h !in Do(d, step).value.archive
  {
  }

  /** A path changed between the two snapshots and again after the later one: every run completes, and ends
      with the kept snapshot showing the older manifest and without that manifest's own block. */
  lemma HiddenChangeLosesASnapshot(s: Store, f: FolderId, path: Path, first: Marker, heir: Marker, a: Manifest,
                                   b: Manifest, c: Manifest, archive: Archive, plan: Plan, script: Script, h: Digest)
    requires TwoSnapshots(s, f, path, first, heir, PathState(map[1 := a, 2 := b, 3 := c], Some(Version(3, c)), None))
    requires Runs(s, 1, plan, script) && h in Hashes(a) && h !in Hashes(b) && h !in Hashes(c)
    ensures Tracked(FolderOf(s, f)[path]) && HiddenChange(FolderOf(s, f)[path], 1, 2)
    ensures View(FolderOf(s, f)[path], 2) == Some(b) && Final(s, archive, script).Some?
    ensures var d := Final(s, archive, script).value;
            && Find(d.store.markers, heir.id).Some?
            && path in FolderOf(d.store, f) && View(FolderOf(d.store, f)[path], 2) == Some(a)
            && h in BlocksOf(d.store, heir) && h !in d.archive
  {
    var state, p := FolderOf(s, f)[path], Promotion(Heir(first, heir), path);
    PlanOfTwo(s, f, first, heir, plan, script);
    assert 2 in state.history;
    assert Latest(state.history, 1) == 1 && Latest(state.history, 2) == 2;
    assert Promotes(s, p) && CanPromote(s, p);
    CompletesExactlyWhen(s, archive, 1, plan, script);
    LossAtTheEnd(s, f, path, first, heir, a, b, c, archive, plan, script, h);
  }

  lemma LossAtTheEnd(s: Store, f: FolderId, path: Path, first: Marker, heir: Marker, a: Manifest, b: Manifest,
                     c: Manifest, archive: Archive, plan: Plan, script: Script, h: Digest)
    requires TwoSnapshots(s, f, path, first, heir, PathState(map[1 := a, 2 := b, 3 := c], Some(Version(3, c)), None))
    requires Runs(s, 1, plan, script) && h in Hashes(a) && h !in Hashes(b) && h !in Hashes(c)
    requires Final(s, archive, script).Some? && Promotion(Heir(first, heir), path) in plan.promotions
    ensures var d := Final(s, archive, script).value;
            && Find(d.store.markers, heir.id).Some?
            && path in FolderOf(d.store, f) && View(FolderOf(d.store, f)[path], 2) == Some(a)
            && h in BlocksOf(d.store, heir) && h !in d.archive
  {
    var steps, state := Steps(script), FolderOf(s, f)[path];
    var d := Final(s, archive, script).value;
    var k := PromotionStep(script, plan, Promotion(Heir(first, heir), path));
    PlanOfTwo(s, f, first, heir, plan, script);
    ScriptIsFromPlan(script, plan);
    RunRecords(s, f, path, first, heir, a, b, c, archive, plan, steps, |steps|);
    StepIsPromoted(steps, |steps|, k);
    var after := Recorded(state, 2, a);
    assert Latest(after.history, 2) == 2;
    OneFileBlocks(FolderOf(d.store, f), path, after, 2, h);
    HeirIsKept(s, archive, script, heir);
    FirstAloneNeeds(s, f, path, first, heir, state, h);
    SweepHappens(s, archive, 1, plan, script, h);
  }

  lemma HeirIsKept(s: Store, archive: Archive, script: Script, heir: Marker)
    requires Final(s, archive, script).Some? && heir in s.markers && heir.id !in script.delete
    ensures Find(Final(s, archive, script).value.store.markers, heir.id).Some?
  {
    RunUpdatesMarkers(Disk(s, archive), Steps(script), |Steps(script)|);
    ScriptIds(script);
    UpdateHolds(s.markers, FlaggedBy(Steps(script), |Steps(script)|), DroppedBy(Steps(script), |Steps(script)|), heir);
  }

  lemma FirstAloneNeeds(s: Store, f: FolderId, path: Path, first: Marker, heir: Marker, state: PathState, h: Digest)
    requires TwoSnapshots(s, f, path, first, heir, state)
    requires View(state, 1).Some? && h in Hashes(View(state, 1).value)
    requires View(state, 2).Some? && h !in Hashes(View(state, 2).value)
    requires state.live.Some? && h !in Hashes(state.live.value.manifest)
    ensures Sweepable(s, 1, h)
  {
    OnlyFirstExpires(s.markers, f, first, heir, first);
    OnlyFirstExpires(s.markers, f, first, heir, heir);
    OneFileBlocks(FolderOf(s, f), path, state, 1, h);
    OneFileBlocks(FolderOf(s, f), path, state, 2, h);
    assert first in s.markers && h in BlocksOf(s, first);
  }

  lemma SweepHappens(s: Store, archive: Archive, keep: nat, plan: Plan, script: Script, h: Digest)
    requires Runs(s, keep, plan, script) && Final(s, archive, script).Some? && Sweepable(s, keep, h)
    ensures h !in Final(s, archive, script).value.archive
  {
    Parts(script);
    assert h in script.sweep;
    var i :| 0 <= i < |script.sweep| && script.sweep[i] == h;
    var k := |script.deprecate| + |script.promotions| + |script.delete| + i;
    assert SweepAt(Steps(script), k, script.sweep[i]);
    SweptIsGone(Disk(s, archive), Steps(script), |Steps(script)|, k, h);
  }

  lemma OneFileBlocks(folder: Folder, path: Path, state: PathState, cursor: nat, h: Digest)
    requires folder == map[path := state]
    ensures h in BlocksAt(folder, cursor) <==> View(state, cursor).Some? && h in Hashes(View(state, cursor).value)
    ensures h in LiveBlocks(folder) <==> state.live.Some? && h in Hashes(state.live.value.manifest)
  {
    assert path in folder && folder[path] == state;
  }
}
