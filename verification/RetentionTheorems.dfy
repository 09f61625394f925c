/** What retention keeps wherever it stops: the blocks of stored snapshots, and what they show. */
module RetentionTheorems {
  import opened Outcomes
  import opened Bytes
  import opened ArchiveBlocks
  import opened Manifests
  import opened Retention
  import opened RetentionRun

  // ---------------------------------------------------------------- markers

  function Fate(m: Marker, flagged: set<Id>, dropped: set<Id>): seq<Marker> {
    if m.id in dropped then [] else if m.id in flagged then [m.(deprecated := true)] else [m]
  }

  function Update(ms: seq<Marker>, flagged: set<Id>, dropped: set<Id>): seq<Marker> {
    if ms == [] then [] else Update(ms[..|ms| - 1], flagged, dropped) + Fate(ms[|ms| - 1], flagged, dropped)
  }

  lemma FlagAppends(a: seq<Marker>, m: Marker, id: Id)
    ensures Flag(a + [m], id) == Flag(a, id) + [if m.id == id then m.(deprecated := true) else m] &&
            Flag(a + [], id) == Flag(a, id)
  {
    assert (a + [m])[..|a|] == a && a + [] == a;
  }

  lemma DropAppends(a: seq<Marker>, m: Marker, id: Id)
    ensures Drop(a + [m], id) == Drop(a, id) + (if m.id == id then [] else [m]) && Drop(a + [], id) == Drop(a, id)
  {
    assert (a + [m])[..|a|] == a && a + [] == a;
  }

  lemma {:induction false} UpdateFlags(ms: seq<Marker>, flagged: set<Id>, dropped: set<Id>, id: Id)
    ensures Flag(Update(ms, flagged, dropped), id) == Update(ms, flagged + {id}, dropped)
  {
    if ms != [] {
      var n, m := |ms| - 1, ms[|ms| - 1];
      UpdateFlags(ms[..n], flagged, dropped, id);
      FlagsFate(Update(ms[..n], flagged, dropped), m, flagged, dropped, id);
    }
  }

  lemma FlagsFate(before: seq<Marker>, m: Marker, flagged: set<Id>, dropped: set<Id>, id: Id)
    ensures Flag(before + Fate(m, flagged, dropped), id) == Flag(before, id) + Fate(m, flagged + {id}, dropped)
  {
    if m.id in dropped {
      FlagAppends(before, m, id);
    } else {
      FlagAppends(before, Fate(m, flagged, dropped)[0], id);
    }
  }

  lemma {:induction false} UpdateDrops(ms: seq<Marker>, flagged: set<Id>, dropped: set<Id>, id: Id)
    ensures Drop(Update(ms, flagged, dropped), id) == Update(ms, flagged, dropped + {id})
  {
    if ms != [] {
      var n, m := |ms| - 1, ms[|ms| - 1];
      UpdateDrops(ms[..n], flagged, dropped, id);
      var before := Update(ms[..n], flagged, dropped);
      DropAppends(before, if m.id in flagged then m.(deprecated := true) else m, id);
    }
  }

  function FlaggedBy(steps: seq<Step>, n: nat): set<Id>
    requires n <= |steps|
  {
    set i | 0 <= i < n && steps[i].Deprecate? :: steps[i].id
  }

  function DroppedBy(steps: seq<Step>, n: nat): set<Id>
    requires n <= |steps|
  {
    set i | 0 <= i < n && steps[i].Remove? :: steps[i].id
  }

  lemma {:induction false} UpdateOfNothing(ms: seq<Marker>)
    ensures Update(ms, {}, {}) == ms
  {
    if ms != [] {
      UpdateOfNothing(ms[..|ms| - 1]);
      assert ms == ms[..|ms| - 1] + [ms[|ms| - 1]];
    }
  }

  /** What a step does to the markers. */
  function StepMarkers(ms: seq<Marker>, step: Step): seq<Marker> {
    match step
    case Deprecate(id) => Flag(ms, id)
    case Remove(id) => Drop(ms, id)
    case Promote(_) => ms
    case Sweep(_) => ms
  }

  lemma StepChangesMarkers(d: Disk, step: Step)
    requires Do(d, step).Some?
    ensures Do(d, step).value.store.markers == StepMarkers(d.store.markers, step)
  {
  }

  lemma StepUpdates(ms: seq<Marker>, steps: seq<Step>, n: nat)
    requires 0 < n <= |steps|
    ensures StepMarkers(Update(ms, FlaggedBy(steps, n - 1), DroppedBy(steps, n - 1)), steps[n - 1])
            == Update(ms, FlaggedBy(steps, n), DroppedBy(steps, n))
  {
    var a, b, step := FlaggedBy(steps, n - 1), DroppedBy(steps, n - 1), steps[n - 1];
    assert FlaggedBy(steps, n) == if step.Deprecate? then a + {step.id} else a;
    assert DroppedBy(steps, n) == if step.Remove? then b + {step.id} else b;
    if step.Deprecate? {
      UpdateFlags(ms, a, b, step.id);
    } else if step.Remove? {
      UpdateDrops(ms, a, b, step.id);
    }
  }

  /** After any number of steps the markers are the first ones, flagged and dropped as the steps say. */
  lemma {:induction false} RunUpdatesMarkers(d: Disk, steps: seq<Step>, n: nat)
    requires n <= |steps| && After(d, steps, n).Some?
    ensures After(d, steps, n).value.store.markers == Update(d.store.markers, FlaggedBy(steps, n), DroppedBy(steps, n))
  {
    if n == 0 {
      UpdateOfNothing(d.store.markers);
      assert FlaggedBy(steps, 0) == {} && DroppedBy(steps, 0) == {};
    } else {
      RunUpdatesMarkers(d, steps, n - 1);
      StepChangesMarkers(After(d, steps, n - 1).value, steps[n - 1]);
      StepUpdates(d.store.markers, steps, n);
    }
  }

  /** The marker is one of these but for its deprecation. */
  ghost predicate StemsFrom(m: Marker, ms: seq<Marker>) {
    exists o :: o in ms && m == o.(deprecated := m.deprecated)
  }

  lemma {:induction false} UpdateStems(ms: seq<Marker>, flagged: set<Id>, dropped: set<Id>, m: Marker)
    requires m in Update(ms, flagged, dropped)
    ensures StemsFrom(m, ms) && m.id !in dropped
  {
    var n := |ms| - 1;
    if m in Update(ms[..n], flagged, dropped) {
      UpdateStems(ms[..n], flagged, dropped, m);
      var o :| o in ms[..n] && m == o.(deprecated := m.deprecated);
      assert o in ms;
    } else {
      assert ms[n] in ms && m == ms[n].(deprecated := m.deprecated);
    }
  }

  /** Markers only go; a removed one does not come back. */
  lemma RunStems(d: Disk, steps: seq<Step>, n: nat, m: Marker)
    requires n <= |steps| && After(d, steps, n).Some? && m in After(d, steps, n).value.store.markers
    ensures StemsFrom(m, d.store.markers) && m.id !in DroppedBy(steps, n)
  {
    RunUpdatesMarkers(d, steps, n);
    UpdateStems(d.store.markers, FlaggedBy(steps, n), DroppedBy(steps, n), m);
  }

  // ---------------------------------------------------------------- blocks

  lemma StepKeepsBlock(d: Disk, step: Step, h: Digest)
    requires Do(d, step).Some? && h in d.archive && step != Sweep(h)
    ensures var e := Do(d, step).value; h in e.archive && e.archive[h] == d.archive[h]
  {
  }

  lemma {:induction false} RunKeepsBlock(d: Disk, steps: seq<Step>, n: nat, h: Digest)
    requires n <= |steps| && After(d, steps, n).Some? && h in d.archive
    requires forall i :: 0 <= i < n ==> steps[i] != Sweep(h)
    ensures var e := After(d, steps, n).value; h in e.archive && e.archive[h] == d.archive[h]
  {
    if n > 0 {
      RunKeepsBlock(d, steps, n - 1, h);
      StepKeepsBlock(After(d, steps, n - 1).value, steps[n - 1], h);
    }
  }

  /** Blocks are swept only after every marker to be deleted is gone. */
  lemma SweepsComeLast(script: Script, n: nat, i: nat, id: Id)
    requires i < n <= |Steps(script)| && Steps(script)[i].Sweep? && id in script.delete
    ensures id in DroppedBy(Steps(script), n)
  {
    var k :| 0 <= k < |script.delete| && script.delete[k] == id;
    RemovalsBeforeSweeps(script, i, k);
  }

  lemma RemovalsBeforeSweeps(script: Script, i: nat, k: nat)
    requires i < |Steps(script)| && Steps(script)[i].Sweep? && k < |script.delete|
    ensures var at := |script.deprecate| + |script.promotions| + k;
            at < i && Steps(script)[at] == Remove(script.delete[k])
  {
  }

  /** An id finds every marker, so no two share one. */
  ghost predicate OneEach(ms: seq<Marker>) {
    forall m :: m in ms ==> Find(ms, m.id) == Some(m)
  }

  /** Stopped after any number of steps, every snapshot whose marker is still stored keeps every archive
      block it had, and so does every current file of the folders that have snapshots. */
  lemma StoppedRetentionKeepsBlocks(s: Store, archive: Archive, keep: nat, plan: Plan, script: Script, n: nat,
                                    h: Digest)
    requires OneEach(s.markers) && Plans(s, keep, plan) && Enumerates(script, plan)
    requires n <= |Steps(script)| && After(Disk(s, archive), Steps(script), n).Some? && h in archive
    ensures var d := After(Disk(s, archive), Steps(script), n).value;
            && (forall m :: m in d.store.markers && h in BlocksOf(s, m) ==>
                  h in d.archive && d.archive[h] == archive[h])
            && (forall m :: m in s.markers && h in LiveBlocks(FolderOf(s, m.folder)) ==>
                  h in d.archive && d.archive[h] == archive[h])
  {
    var start, steps := Disk(s, archive), Steps(script);
    if i: nat :| i < n && steps[i] == Sweep(h) {
      SweptIsSweepable(s, keep, plan, script, i, h);
      forall m | m in After(start, steps, n).value.store.markers ensures h !in BlocksOf(s, m) {
        SweptIsNotNeeded(s, archive, keep, plan, script, n, i, h, m);
      }
    } else {
      RunKeepsBlock(start, steps, n, h);
    }
  }

  lemma SweptIsNotNeeded(s: Store, archive: Archive, keep: nat, plan: Plan, script: Script, n: nat, i: nat, h: Digest,
                         m: Marker)
    requires Plans(s, keep, plan) && Enumerates(script, plan) && i < n <= |Steps(script)| &&
             Steps(script)[i] == Sweep(h)
    requires After(Disk(s, archive), Steps(script), n).Some? && Sweepable(s, keep, h)
    requires m in After(Disk(s, archive), Steps(script), n).value.store.markers
    ensures h !in BlocksOf(s, m)
  {
    RunStems(Disk(s, archive), Steps(script), n, m);
    var o :| o in s.markers && m == o.(deprecated := m.deprecated);
    if Expiring(s.markers, o, keep) {
      assert o in Froms(plan.heirs) && o.id in script.delete;
      SweepsComeLast(script, n, i, o.id);
    }
  }

  lemma SweptIsSweepable(s: Store, keep: nat, plan: Plan, script: Script, i: nat, h: Digest)
    requires Plans(s, keep, plan) && Enumerates(script, plan) && i < |Steps(script)| && Steps(script)[i] == Sweep(h)
    ensures Sweepable(s, keep, h)
  {
    assert h in script.sweep;
  }

  // ---------------------------------------------------------------- what snapshots show

  lemma {:induction false} LatestStays(history: map<nat, Manifest>, revision: nat, m: Manifest, cursor: nat)
    requires revision > 0
    ensures Latest(history[revision := m], cursor) ==
            if revision <= cursor && Latest(history, cursor) <= revision then revision else Latest(history, cursor)
  {
    if cursor > 0 {
      LatestStays(history, revision, m, cursor - 1);
    }
  }

  lemma {:induction false} LatestBelow(history: map<nat, Manifest>, a: nat, b: nat)
    requires a <= b && Latest(history, b) <= a
    ensures Latest(history, a) == Latest(history, b)
  {
    if a < b {
      LatestBelow(history, a, b - 1);
    }
  }

  /** Recording a manifest at a snapshot's cursor leaves every snapshot as it was exactly when it is the
      manifest this snapshot shows. */
  lemma PromotionKeepsViews(p: PathState, revision: nat, m: Manifest)
    requires revision > 0 && View(p, revision).Some?
    ensures (forall cursor :: View(Recorded(p, revision, m), cursor) == View(p, cursor)) <==>
              View(p, revision) == Some(m)
  {
    LatestStays(p.history, revision, m, revision);
    if View(p, revision) == Some(m) {
      forall cursor ensures View(Recorded(p, revision, m), cursor) == View(p, cursor) {
        LatestStays(p.history, revision, m, cursor);
        if revision <= cursor && Latest(p.history, cursor) <= revision {
          LatestBelow(p.history, revision, cursor);
        }
      }
    } else {
      assert View(Recorded(p, revision, m), revision) == Some(m);
    }
  }

  /** Every path has the same current manifest and looks the same at every cursor. */
  ghost predicate SameViews(s: Store, t: Store) {
    forall f, path :: SamePath(s, t, f, path)
  }

  ghost predicate SamePath(s: Store, t: Store, f: FolderId, path: Path) {
    && (path in FolderOf(s, f) <==> path in FolderOf(t, f))
    && (path in FolderOf(s, f) ==>
          && FolderOf(s, f)[path].live == FolderOf(t, f)[path].live
          && forall cursor :: View(FolderOf(s, f)[path], cursor) == View(FolderOf(t, f)[path], cursor))
  }

  /** The deleted snapshot and its heir show the same for a promoted path. */
  ghost predicate Agrees(s: Store, p: Promotion) {
    && p.path in FolderOf(s, p.heir.from.folder)
    && View(FolderOf(s, p.heir.from.folder)[p.path], p.heir.from.cursor) ==
         View(FolderOf(s, p.heir.from.folder)[p.path], p.heir.to.cursor)
  }

  lemma PromoteKeepsViews(s: Store, d: Disk, p: Promotion, from: Marker, to: Marker)
    requires SameViews(s, d.store) && Agrees(s, p) && Promotes(s, p) && Do(d, Promote(p)).Some?
    requires Find(d.store.markers, p.heir.from.id) == Some(from) && Find(d.store.markers, p.heir.to.id) == Some(to)
    requires from.folder == p.heir.from.folder && from.cursor == p.heir.from.cursor && to.cursor == p.heir.to.cursor
    ensures SameViews(s, Do(d, Promote(p)).value.store)
  {
    var f, t := p.heir.from.folder, Do(d, Promote(p)).value.store;
    assert SamePath(s, d.store, f, p.path);
    var state := FolderOf(d.store, f)[p.path];
    var m := Promoted(d.store, p).value;
    assert View(state, from.cursor) == Some(m) && View(state, to.cursor) == Some(m);
    PromotionKeepsViews(state, to.cursor, m);
    forall g, path ensures SamePath(s, t, g, path) {
      assert SamePath(s, d.store, g, path);
    }
  }

  /** With unique ids, a marker found by id is the original one but for its deprecation. */
  lemma FindStems(ms: seq<Marker>, now: seq<Marker>, m: Marker)
    requires OneEach(ms) && m in ms && Find(now, m.id).Some? && forall x :: x in now ==> StemsFrom(x, ms)
    ensures var x := Find(now, m.id).value; x.folder == m.folder && x.cursor == m.cursor
  {
    FindFinds(now, m.id);
  }

  lemma HeirIsStored(ms: seq<Marker>, keep: nat, heir: Heir)
    requires HasHeir(OfFolder(ms, heir.from.folder), keep, heir)
    ensures heir.from in ms && heir.to in ms && heir.to.folder == heir.from.folder
  {
    var f := heir.from.folder;
    SelectElements(ms, (m: Marker) => m.folder == f);
    var i, j :| 0 <= i < j < |OfFolder(ms, f)| && OfFolder(ms, f)[i] == heir.from && OfFolder(ms, f)[j] == heir.to;
    assert heir.from in OfFolder(ms, f) && heir.to in OfFolder(ms, f);
  }

  lemma StepKeepsViews(s: Store, keep: nat, plan: Plan, d: Disk, step: Step)
    requires OneEach(s.markers) && Plans(s, keep, plan) && SameViews(s, d.store) && Do(d, step).Some?
    requires forall x :: x in d.store.markers ==> StemsFrom(x, s.markers)
    requires step.Promote? ==> step.promotion in plan.promotions && Agrees(s, step.promotion)
    ensures SameViews(s, Do(d, step).value.store)
  {
    if step.Promote? {
      var p := step.promotion;
      var i :| 0 <= i < |plan.heirs| && plan.heirs[i] == p.heir;
      HeirIsStored(s.markers, keep, p.heir);
      FindStems(s.markers, d.store.markers, p.heir.from);
      FindStems(s.markers, d.store.markers, p.heir.to);
      PromoteKeepsViews(s, d, p, Find(d.store.markers, p.heir.from.id).value,
                        Find(d.store.markers, p.heir.to.id).value);
    } else {
      assert Do(d, step).value.store.folders == d.store.folders;
      forall f, path ensures SamePath(s, Do(d, step).value.store, f, path) {
        assert SamePath(s, d.store, f, path);
      }
    }
  }
}
