/** The whole retention plan, and its execution step by step on the store and the archive. */
module RetentionRun {
  import opened Outcomes
  import opened Bytes
  import opened ArchiveBlocks
  import opened Manifests
  import opened Retention

  // ---------------------------------------------------------------- the plan

  function OfFolder(ms: seq<Marker>, f: FolderId): seq<Marker> {
    Select(ms, (m: Marker) => m.folder == f)
  }

  /** The folder's markers past the newest `keep`. */
  function Old(ms: seq<Marker>, f: FolderId, keep: nat): seq<Marker> {
    OfFolder(ms, f)[..Cutoff(|OfFolder(ms, f)|, keep)]
  }

  predicate Aging(ms: seq<Marker>, m: Marker, keep: nat) {
    m in Select(Old(ms, m.folder, keep), Ages)
  }

  predicate Expiring(ms: seq<Marker>, m: Marker, keep: nat) {
    m in Select(Old(ms, m.folder, keep), Expires)
  }

  /** The change list of the folder has this path between the two cursors. It knows only a path's last change. */
  predicate ChangeListed(p: PathState, after: nat, upTo: nat) {
    || (p.live.Some? && after < p.live.value.revision <= upTo)
    || (p.deleted.Some? && after < p.deleted.value <= upTo)
  }

  datatype Promotion = Promotion(heir: Heir, path: Path)

  /** A path is promoted when the heir shows it and no change between the two is listed. */
  predicate Promotes(s: Store, p: Promotion) {
    var folder := FolderOf(s, p.heir.from.folder);
    && p.path in folder && View(folder[p.path], p.heir.to.cursor).Some?
    && !ChangeListed(folder[p.path], p.heir.from.cursor, p.heir.to.cursor)
  }

  function PromotedPaths(s: Store, heir: Heir): set<Path> {
    set path | path in FolderOf(s, heir.from.folder) && Promotes(s, Promotion(heir, path))
  }

  datatype Plan = Plan(deprecate: seq<Marker>, heirs: seq<Heir>, promotions: set<Promotion>, sweep: set<Digest>)

  /** Blocks that only snapshots about to be deleted need. */
  predicate Sweepable(s: Store, keep: nat, h: Digest) {
    && (exists m :: m in s.markers && Expiring(s.markers, m, keep) && h in BlocksOf(s, m))
    && (forall m :: m in s.markers ==>
          (Expiring(s.markers, m, keep) || h !in BlocksOf(s, m)) && h !in LiveBlocks(FolderOf(s, m.folder)))
  }

  ghost predicate Plans(s: Store, keep: nat, plan: Plan) {
    && (forall m :: m in plan.deprecate <==> Aging(s.markers, m, keep))
    && (forall i :: 0 <= i < |plan.heirs| ==>
          HasHeir(OfFolder(s.markers, plan.heirs[i].from.folder), keep, plan.heirs[i]))
    && (forall m :: m in Froms(plan.heirs) <==> Expiring(s.markers, m, keep))
    && (forall p :: p in plan.promotions <==> p.heir in plan.heirs && Promotes(s, p))
    && (forall h :: h in plan.sweep <==> Sweepable(s, keep, h))
  }

  lemma {:induction false} SelectElements(ms: seq<Marker>, choose: Marker -> bool)
    ensures forall m :: m in Select(ms, choose) <==> m in ms && choose(m)
  {
    if ms != [] {
      var n := |ms| - 1;
      SelectElements(ms[..n], choose);
      assert ms == ms[..n] + [ms[n]];
    }
  }

  lemma OldIsOfFolder(ms: seq<Marker>, f: FolderId, keep: nat, m: Marker)
    requires m in Old(ms, f, keep)
    ensures m.folder == f && m in ms
  {
    SelectElements(ms, (m: Marker) => m.folder == f);
    assert m in OfFolder(ms, f);
  }

  method Folders(ms: seq<Marker>) returns (fs: seq<FolderId>)
    ensures forall f :: f in fs <==> exists m :: m in ms && m.folder == f
  {
    fs := [];
    for i := 0 to |ms|
      invariant forall f :: f in fs <==> exists m :: m in ms[..i] && m.folder == f
    {
      assert ms[..i + 1] == ms[..i] + [ms[i]];
      if ms[i].folder !in fs {
        fs := fs + [ms[i].folder];
      }
    }
    assert ms[..|ms|] == ms;
  }

  /** Aging and expiring markers of the folders seen so far. */
  ghost predicate Gathered(ms: seq<Marker>, keep: nat, fs: seq<FolderId>, deprecate: seq<Marker>, heirs: seq<Heir>) {
    && (forall m :: m in deprecate <==> m.folder in fs && Aging(ms, m, keep))
    && (forall i :: 0 <= i < |heirs| ==> HasHeir(OfFolder(ms, heirs[i].from.folder), keep, heirs[i]))
    && (forall m :: m in Froms(heirs) <==> m.folder in fs && Expiring(ms, m, keep))
  }

  lemma FolderMarks(ms: seq<Marker>, keep: nat, f: FolderId, plan: FolderPlan, m: Marker)
    requires PlansFolder(OfFolder(ms, f), keep, plan)
    ensures m in plan.deprecate <==> m.folder == f && Aging(ms, m, keep)
    ensures m in Froms(plan.delete) <==> m.folder == f && Expiring(ms, m, keep)
  {
    var aged := Old(ms, f, keep);
    SelectElements(aged, Ages);
    SelectElements(aged, Expires);
    if m in aged {
      OldIsOfFolder(ms, f, keep, m);
    }
  }

  lemma GatherFolder(ms: seq<Marker>, keep: nat, fs: seq<FolderId>, f: FolderId, deprecate: seq<Marker>,
                     heirs: seq<Heir>, plan: FolderPlan)
    requires Gathered(ms, keep, fs, deprecate, heirs) && PlansFolder(OfFolder(ms, f), keep, plan)
    ensures Gathered(ms, keep, fs + [f], deprecate + plan.deprecate, heirs + plan.delete)
  {
    forall m ensures m in deprecate + plan.deprecate <==> m.folder in fs + [f] && Aging(ms, m, keep) {
      FolderMarks(ms, keep, f, plan, m);
    }
    assert Froms(heirs + plan.delete) == Froms(heirs) + Froms(plan.delete);
    forall m ensures m in Froms(heirs + plan.delete) <==> m.folder in fs + [f] && Expiring(ms, m, keep) {
      FolderMarks(ms, keep, f, plan, m);
    }
    forall i | 0 <= i < |plan.delete| ensures HasHeir(OfFolder(ms, plan.delete[i].from.folder), keep, plan.delete[i]) {
      assert Froms(plan.delete)[i] in Froms(plan.delete);
      FolderMarks(ms, keep, f, plan, plan.delete[i].from);
    }
  }

  /** What every deleted marker hands on to its heir. */
  method PromotionsOf(s: Store, heirs: seq<Heir>) returns (promotions: set<Promotion>)
    ensures forall p :: p in promotions <==> p.heir in heirs && Promotes(s, p)
  {
    promotions := {};
    for i := 0 to |heirs|
      invariant forall p :: p in promotions <==> p.heir in heirs[..i] && Promotes(s, p)
    {
      assert heirs[..i + 1] == heirs[..i] + [heirs[i]];
      promotions := promotions + set path | path in PromotedPaths(s, heirs[i]) :: Promotion(heirs[i], path);
    }
    assert heirs[..|heirs|] == heirs;
  }

  method PlanSnapshotRetention(s: Store, keep: int) returns (r: Result<Plan>)
    ensures r.Ok? <==> keep >= 1
    ensures r.Ok? ==> Plans(s, keep, r.value)
  {
    if keep < 1 {
      return Err("keep last must be at least 1");
    }
    var fs := Folders(s.markers);
    var deprecate: seq<Marker>, heirs: seq<Heir>, promotions: set<Promotion> := [], [], {};
    for k := 0 to |fs|
      invariant Gathered(s.markers, keep, fs[..k], deprecate, heirs)
      invariant forall p :: p in promotions <==> p.heir in heirs && Promotes(s, p)
    {
      var plan := PlanFolder(OfFolder(s.markers, fs[k]), keep);
      GatherFolder(s.markers, keep, fs[..k], fs[k], deprecate, heirs, plan);
      assert fs[..k + 1] == fs[..k] + [fs[k]];
      var more := PromotionsOf(s, plan.delete);
      promotions := promotions + more;
      deprecate, heirs := deprecate + plan.deprecate, heirs + plan.delete;
    }
    assert fs[..|fs|] == fs;
    AllGathered(s.markers, keep, fs, deprecate, heirs);
    var sweep := SweepBlocks(s, keep, Froms(heirs));
    r := Ok(Plan(deprecate, heirs, promotions, sweep));
  }

  lemma AllGathered(ms: seq<Marker>, keep: nat, fs: seq<FolderId>, deprecate: seq<Marker>, heirs: seq<Heir>)
    requires Gathered(ms, keep, fs, deprecate, heirs) && forall f :: f in fs <==> exists m :: m in ms && m.folder == f
    ensures forall m :: m in deprecate <==> Aging(ms, m, keep)
    ensures forall m :: m in Froms(heirs) <==> Expiring(ms, m, keep)
  {
    forall m | Aging(ms, m, keep) || Expiring(ms, m, keep) ensures m.folder in fs {
      SelectElements(Old(ms, m.folder, keep), Ages);
      SelectElements(Old(ms, m.folder, keep), Expires);
      OldIsOfFolder(ms, m.folder, keep, m);
    }
  }

  /** Blocks of deleted snapshots, less those of retained snapshots and of current files. */
  method SweepBlocks(s: Store, keep: nat, doomed: seq<Marker>) returns (sweep: set<Digest>)
    requires forall m :: m in doomed <==> Expiring(s.markers, m, keep)
    ensures forall h :: h in sweep <==> Sweepable(s, keep, h)
  {
    var wanted, referenced: set<Digest> := {}, {};
    for i := 0 to |s.markers|
      invariant forall h :: h in wanted <==> exists m :: m in s.markers[..i] && m in doomed && h in BlocksOf(s, m)
      invariant forall h :: h in referenced <==>
                  exists m :: m in s.markers[..i] &&
                    ((m !in doomed && h in BlocksOf(s, m)) || h in LiveBlocks(FolderOf(s, m.folder)))
    {
      var m := s.markers[i];
      assert s.markers[..i + 1] == s.markers[..i] + [m];
      if m in doomed {
        wanted := wanted + BlocksOf(s, m);
      } else {
        referenced := referenced + BlocksOf(s, m);
      }
      referenced := referenced + LiveBlocks(FolderOf(s, m.folder));
    }
    assert s.markers[..|s.markers|] == s.markers;
    sweep := wanted - referenced;
  }

  // ---------------------------------------------------------------- execution

  datatype Disk = Disk(store: Store, archive: Archive)
  datatype Step = Deprecate(id: Id) | Promote(promotion: Promotion) | Remove(id: Id) | Sweep(hash: Digest)

  function Find(ms: seq<Marker>, id: Id): Option<Marker> {
    if ms == [] then None
    else if ms[|ms| - 1].id == id then Some(ms[|ms| - 1])
    else Find(ms[..|ms| - 1], id)
  }

  lemma {:induction false} FindFinds(ms: seq<Marker>, id: Id)
    ensures var r := Find(ms, id);
            if r.Some? then r.value in ms && r.value.id == id else forall m :: m in ms ==> m.id != id
  {
    if ms != [] {
      FindFinds(ms[..|ms| - 1], id);
      assert ms == ms[..|ms| - 1] + [ms[|ms| - 1]];
    }
  }

  /** Marks the marker with this id. */
  function Flag(ms: seq<Marker>, id: Id): seq<Marker> {
    if ms == [] then []
    else
      var m := ms[|ms| - 1];
      Flag(ms[..|ms| - 1], id) + [if m.id == id then m.(deprecated := true) else m]
  }

  function Drop(ms: seq<Marker>, id: Id): seq<Marker> {
    if ms == [] then []
    else
      var m := ms[|ms| - 1];
      Drop(ms[..|ms| - 1], id) + (if m.id == id then [] else [m])
  }

  /** What the deleted snapshot shows for the path, if it is still there and shows it. */
  function Promoted(s: Store, p: Promotion): Option<Manifest> {
    var from, to := Find(s.markers, p.heir.from.id), Find(s.markers, p.heir.to.id);
    if from.None? || to.None? || to.value.cursor == 0 || p.path !in FolderOf(s, from.value.folder) then None
    else View(FolderOf(s, from.value.folder)[p.path], from.value.cursor)
  }

  function StateOfPath(s: Store, f: FolderId, path: Path): PathState {
    if path in FolderOf(s, f) then FolderOf(s, f)[path] else PathState(map[], None, None)
  }

  function Recorded(p: PathState, revision: nat, m: Manifest): PathState {
    p.(history := p.history[revision := m])
  }

  function Preserve(s: Store, f: FolderId, path: Path, revision: nat, m: Manifest): Store {
    s.(folders := s.folders[f := FolderOf(s, f)[path := Recorded(StateOfPath(s, f, path), revision, m)]])
  }

  function PromoteOne(s: Store, p: Promotion): Store
    requires Promoted(s, p).Some?
  {
    Preserve(s, p.heir.from.folder, p.path, Find(s.markers, p.heir.to.id).value.cursor, Promoted(s, p).value)
  }

  /** One step; none when it reports an error, and then nothing has changed. */
  function Do(d: Disk, step: Step): Option<Disk> {
    match step
    case Deprecate(id) =>
      if Find(d.store.markers, id).None? then None
      else Some(d.(store := d.store.(markers := Flag(d.store.markers, id))))
    case Promote(p) =>
      if Promoted(d.store, p).None? then None else Some(d.(store := PromoteOne(d.store, p)))
    case Remove(id) => Some(d.(store := d.store.(markers := Drop(d.store.markers, id))))
    case Sweep(h) => Some(d.(archive := d.archive - {h}))
  }

  /** A plan's work in the order of its execution; the order within each part is the sorted one, which
      plays no part in what follows. */
  datatype Script = Script(deprecate: seq<Id>, promotions: seq<Promotion>, delete: seq<Id>, sweep: seq<Digest>)

  ghost predicate Enumerates(script: Script, plan: Plan) {
    && (forall id :: id in script.deprecate <==> exists m :: m in plan.deprecate && m.id == id)
    && (forall p :: p in script.promotions <==> p in plan.promotions)
    && (forall id :: id in script.delete <==> exists m :: m in Froms(plan.heirs) && m.id == id)
    && (forall h :: h in script.sweep <==> h in plan.sweep)
  }

  function Steps(script: Script): (steps: seq<Step>)
    ensures |steps| == |script.deprecate| + |script.promotions| + |script.delete| + |script.sweep|
  {
    var a, b, c := |script.deprecate|, |script.promotions|, |script.delete|;
    seq(a + b + c + |script.sweep|, i requires 0 <= i < a + b + c + |script.sweep| =>
      if i < a then Deprecate(script.deprecate[i])
      else if i < a + b then Promote(script.promotions[i - a])
      else if i < a + b + c then Remove(script.delete[i - a - b])
      else Sweep(script.sweep[i - a - b - c]))
  }

  predicate DeprecateAt(steps: seq<Step>, i: nat, id: Id) {
    i < |steps| && steps[i] == Deprecate(id)
  }

  predicate PromoteAt(steps: seq<Step>, i: nat, p: Promotion) {
    i < |steps| && steps[i] == Promote(p)
  }

  predicate RemoveAt(steps: seq<Step>, i: nat, id: Id) {
    i < |steps| && steps[i] == Remove(id)
  }

  predicate SweepAt(steps: seq<Step>, i: nat, h: Digest) {
    i < |steps| && steps[i] == Sweep(h)
  }

  /** Where each part of the work stands among the steps. */
  ghost predicate Lays(script: Script, steps: seq<Step>) {
    var a, b, c := |script.deprecate|, |script.promotions|, |script.delete|;
    && |steps| == a + b + c + |script.sweep|
    && (forall i :: 0 <= i < a ==> DeprecateAt(steps, 0 + i, script.deprecate[i]))
    && (forall i :: 0 <= i < b ==> PromoteAt(steps, a + i, script.promotions[i]))
    && (forall i :: 0 <= i < c ==> RemoveAt(steps, a + b + i, script.delete[i]))
    && (forall i :: 0 <= i < |script.sweep| ==> SweepAt(steps, a + b + c + i, script.sweep[i]))
  }

  lemma Parts(script: Script)
    ensures Lays(script, Steps(script))
  {
  }

  /** The disk after the first `n` steps, if none of them failed. */
  function After(d: Disk, steps: seq<Step>, n: nat): Option<Disk>
    requires n <= |steps|
  {
    if n == 0 then Some(d)
    else
      var before := After(d, steps, n - 1);
      if before.None? then None else Do(before.value, steps[n - 1])
  }

  lemma NextDeprecate(first: Disk, steps: seq<Step>, n: nat, d: Disk, id: Id)
    requires DeprecateAt(steps, n, id) && After(first, steps, n) == Some(d)
    ensures After(first, steps, n + 1) ==
            if Find(d.store.markers, id).None? then None
            else Some(d.(store := d.store.(markers := Flag(d.store.markers, id))))
  {
  }

  lemma NextPromote(first: Disk, steps: seq<Step>, n: nat, d: Disk, p: Promotion)
    requires PromoteAt(steps, n, p) && After(first, steps, n) == Some(d)
    ensures After(first, steps, n + 1) ==
            if Promoted(d.store, p).None? then None else Some(d.(store := PromoteOne(d.store, p)))
  {
  }

  lemma NextRemove(first: Disk, steps: seq<Step>, n: nat, d: Disk, id: Id)
    requires RemoveAt(steps, n, id) && After(first, steps, n) == Some(d)
    ensures After(first, steps, n + 1) == Some(d.(store := d.store.(markers := Drop(d.store.markers, id))))
  {
  }

  lemma NextSweep(first: Disk, steps: seq<Step>, n: nat, d: Disk, h: Digest)
    requires SweepAt(steps, n, h) && After(first, steps, n) == Some(d)
    ensures After(first, steps, n + 1) == Some(d.(archive := d.archive - {h}))
  {
  }

  class Backup {
    var store: Store
    var archive: Archive

    function Now(): Disk
      reads this
    {
      Disk(store, archive)
    }

    /** Each part runs until a step fails or the process ends after `budget` steps in all. */
    method DeprecateAll(xs: seq<Id>, start: nat, budget: nat, ghost first: Disk, ghost steps: seq<Step>)
      returns (done: nat, stopped: bool)
      requires start <= budget && start + |xs| <= |steps| && After(first, steps, start) == Some(Now())
      requires forall i :: 0 <= i < |xs| ==> DeprecateAt(steps, start + i, xs[i])
      modifies this
      ensures start <= done <= start + |xs| && done <= budget && After(first, steps, done) == Some(Now())
      ensures if stopped then done == budget || (done < |steps| && After(first, steps, done + 1).None?)
              else done == start + |xs|
    {
      done, stopped := start, false;
      for i := 0 to |xs|
        invariant done == start + i <= budget && After(first, steps, done) == Some(Now()) && !stopped
      {
        if done == budget {
          return done, true;
        }
        assert DeprecateAt(steps, start + i, xs[i]);
        NextDeprecate(first, steps, done, Now(), xs[i]);
        if Find(store.markers, xs[i]).None? {
          return done, true;
        }
        store := store.(markers := Flag(store.markers, xs[i]));
        done := done + 1;
      }
    }

    /** Promotions read what the deleted snapshot shows at that moment. */
    method PromoteAll(xs: seq<Promotion>, start: nat, budget: nat, ghost first: Disk, ghost steps: seq<Step>)
      returns (done: nat, stopped: bool)
      requires start <= budget && start + |xs| <= |steps| && After(first, steps, start) == Some(Now())
      requires forall i :: 0 <= i < |xs| ==> PromoteAt(steps, start + i, xs[i])
      modifies this
      ensures start <= done <= start + |xs| && done <= budget && After(first, steps, done) == Some(Now())
      ensures if stopped then done == budget || (done < |steps| && After(first, steps, done + 1).None?)
              else done == start + |xs|
    {
      done, stopped := start, false;
      for i := 0 to |xs|
        invariant done == start + i <= budget && After(first, steps, done) == Some(Now()) && !stopped
      {
        if done == budget {
          return done, true;
        }
        assert PromoteAt(steps, start + i, xs[i]);
        NextPromote(first, steps, done, Now(), xs[i]);
        if Promoted(store, xs[i]).None? {
          return done, true;
        }
        store := PromoteOne(store, xs[i]);
        done := done + 1;
      }
    }

    /** Removing a marker that is gone is no error. */
    method RemoveAll(xs: seq<Id>, start: nat, budget: nat, ghost first: Disk, ghost steps: seq<Step>)
      returns (done: nat, stopped: bool)
      requires start <= budget && start + |xs| <= |steps| && After(first, steps, start) == Some(Now())
      requires forall i :: 0 <= i < |xs| ==> RemoveAt(steps, start + i, xs[i])
      modifies this
      ensures start <= done <= start + |xs| && done <= budget && After(first, steps, done) == Some(Now())
      ensures if stopped then done == budget || (done < |steps| && After(first, steps, done + 1).None?)
              else done == start + |xs|
    {
      done, stopped := start, false;
      for i := 0 to |xs|
        invariant done == start + i <= budget && After(first, steps, done) == Some(Now()) && !stopped
      {
        if done == budget {
          return done, true;
        }
        assert RemoveAt(steps, start + i, xs[i]);
        NextRemove(first, steps, done, Now(), xs[i]);
        store := store.(markers := Drop(store.markers, xs[i]));
        done := done + 1;
      }
    }

    /** Nor is removing a block that is gone. */
    method SweepAll(xs: seq<Digest>, start: nat, budget: nat, ghost first: Disk, ghost steps: seq<Step>)
      returns (done: nat, stopped: bool)
      requires start <= budget && start + |xs| <= |steps| && After(first, steps, start) == Some(Now())
      requires forall i :: 0 <= i < |xs| ==> SweepAt(steps, start + i, xs[i])
      modifies this
      ensures start <= done <= start + |xs| && done <= budget && After(first, steps, done) == Some(Now())
      ensures if stopped then done == budget || (done < |steps| && After(first, steps, done + 1).None?)
              else done == start + |xs|
    {
      done, stopped := start, false;
      for i := 0 to |xs|
        invariant done == start + i <= budget && After(first, steps, done) == Some(Now()) && !stopped
      {
        if done == budget {
          return done, true;
        }
        assert SweepAt(steps, start + i, xs[i]);
        NextSweep(first, steps, done, Now(), xs[i]);
        archive := archive - {xs[i]};
        done := done + 1;
      }
    }

    /** Runs the script until a step fails or the process ends after `budget` steps. */
    method Execute(script: Script, budget: nat) returns (done: nat)
      modifies this
      ensures done <= |Steps(script)| && done <= budget
      ensures After(old(Now()), Steps(script), done) == Some(Now())
      ensures done < budget && done < |Steps(script)| ==> After(old(Now()), Steps(script), done + 1).None?
    {
      Parts(script);
      done := ExecuteSteps(script, budget, Steps(script));
    }

    method ExecuteSteps(script: Script, budget: nat, ghost steps: seq<Step>) returns (done: nat)
      requires Lays(script, steps)
      modifies this
      ensures done <= |steps| && done <= budget && After(old(Now()), steps, done) == Some(Now())
      ensures done < budget && done < |steps| ==> After(old(Now()), steps, done + 1).None?
    {
      ghost var first := Now();
      var stopped;
      done, stopped := DeprecateAll(script.deprecate, 0, budget, first, steps);
      if stopped {
        return;
      }
      done, stopped := PromoteAll(script.promotions, done, budget, first, steps);
      if stopped {
        return;
      }
      done, stopped := RemoveAll(script.delete, done, budget, first, steps);
      if stopped {
        return;
      }
      done, stopped := SweepAll(script.sweep, done, budget, first, steps);
    }
  }
}
