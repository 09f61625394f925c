/**
 Snapshot retention: which snapshot markers a run deprecates, promotes and deletes, and which archive
 blocks it sweeps. Markers of a folder are listed oldest first; the store keeps every path's
 manifest history by revision.
 */
module Retention {
  import opened Outcomes
  import opened Bytes
  import opened ArchiveBlocks
  import opened Manifests

  datatype Marker = Marker(id: Id, folder: FolderId, cursor: nat, pinned: bool, deprecated: bool)

  datatype Version = Version(revision: nat, manifest: Manifest)
  /** A path's recorded manifests, its current one, and when it was deleted. */
  datatype PathState = PathState(history: map<nat, Manifest>, live: Option<Version>, deleted: Option<nat>)
  type Folder = map<Path, PathState>

  datatype Store = Store(markers: seq<Marker>, folders: map<FolderId, Folder>)

  // ---------------------------------------------------------------- what a snapshot shows

  /** The latest recorded revision up to a cursor, or zero. */
  function Latest(history: map<nat, Manifest>, cursor: nat): (r: nat)
    ensures r <= cursor && (r > 0 ==> r in history)
  {
    if cursor == 0 then 0 else if cursor in history then cursor else Latest(history, cursor - 1)
  }

  /** What a path looks like at a cursor. */
  function View(p: PathState, cursor: nat): Option<Manifest> {
    var r := Latest(p.history, cursor);
    if p.deleted.Some? && p.deleted.value <= cursor then None
    else if r > 0 then Some(p.history[r])
    else if p.live.Some? && p.live.value.revision <= cursor then Some(p.live.value.manifest)
    else None
  }

  /** A snapshot shows the last manifest recorded up to its cursor, whatever is recorded later. */
  lemma {:induction false} ViewIsLastRecord(p: PathState, cursor: nat, r: nat)
    requires 0 < r <= cursor && r in p.history && forall k :: r < k <= cursor ==> k !in p.history
    ensures View(p, cursor) ==
            if p.deleted.Some? && p.deleted.value <= cursor then None else Some(p.history[r])
    decreases cursor
  {
    if r < cursor {
      ViewIsLastRecord(p.(deleted := None), cursor - 1, r);
    }
  }

  /** Without a record up to its cursor, a snapshot shows the current manifest, if that is old enough. */
  lemma {:induction false} ViewWithoutRecord(p: PathState, cursor: nat)
    requires forall k :: 0 < k <= cursor ==> k !in p.history
    ensures View(p, cursor) ==
            if p.deleted.Some? && p.deleted.value <= cursor then None
            else if p.live.Some? && p.live.value.revision <= cursor then Some(p.live.value.manifest)
            else None
    decreases cursor
  {
    if cursor > 0 {
      ViewWithoutRecord(p, cursor - 1);
    }
  }

  function Hashes(m: Manifest): set<Digest> {
    set b | b in m.blocks :: b.hash
  }

  function FolderOf(s: Store, f: FolderId): Folder {
    if f in s.folders then s.folders[f] else map[]
  }

  /** The blocks a snapshot needs. */
  function BlocksAt(folder: Folder, cursor: nat): set<Digest> {
    set p, h | p in folder && View(folder[p], cursor).Some? && h in Hashes(View(folder[p], cursor).value) :: h
  }

  /** The blocks the folder's current files need. */
  function LiveBlocks(folder: Folder): set<Digest> {
    set p, h | p in folder && folder[p].live.Some? && h in Hashes(folder[p].live.value.manifest) :: h
  }

  function BlocksOf(s: Store, m: Marker): set<Digest> {
    BlocksAt(FolderOf(s, m.folder), m.cursor)
  }

  // ---------------------------------------------------------------- one folder's plan

  function Cutoff(n: nat, keep: nat): nat {
    if n < keep then 0 else n - keep
  }

  /** What happens to a marker past the newest ones. */
  predicate Ages(m: Marker) {
    !m.pinned && !m.deprecated
  }

  predicate Expires(m: Marker) {
    !m.pinned && m.deprecated
  }

  predicate Stays(m: Marker) {
    !Expires(m)
  }

  function Select(ms: seq<Marker>, choose: Marker -> bool): seq<Marker> {
    if ms == [] then []
    else Select(ms[..|ms| - 1], choose) + (if choose(ms[|ms| - 1]) then [ms[|ms| - 1]] else [])
  }

  /** Where a later marker survives this plan. */
  predicate Survives(ms: seq<Marker>, i: nat, keep: nat)
    requires i < |ms|
  {
    i >= Cutoff(|ms|, keep) || ms[i].pinned || !ms[i].deprecated
  }

  method NextRetained(ms: seq<Marker>, i: nat, keep: nat) returns (next: nat)
    requires i < |ms|
    ensures i < next <= |ms| && (next < |ms| ==> Survives(ms, next, keep))
    ensures forall j :: i < j < next ==> !Survives(ms, j, keep)
    ensures keep > 0 && i < Cutoff(|ms|, keep) ==> next < |ms|
  {
    next := i + 1;
    while next < |ms| && !Survives(ms, next, keep)
      invariant i < next <= |ms| && forall j :: i < j < next ==> !Survives(ms, j, keep)
    {
      next := next + 1;
    }
    assert keep > 0 ==> Survives(ms, |ms| - 1, keep);
  }

  /** A deleted marker's files move on to this later marker. */
  datatype Heir = Heir(from: Marker, to: Marker)

  /** The first marker after `i` that this plan does not delete. */
  predicate NextSurvivor(ms: seq<Marker>, i: nat, j: nat, keep: nat)
    requires i < j < |ms|
  {
    Survives(ms, j, keep) && forall k :: i < k < j ==> !Survives(ms, k, keep)
  }

  /** The heir is the next marker of the list that this plan does not delete. */
  ghost predicate HasHeir(ms: seq<Marker>, keep: nat, heir: Heir) {
    exists i, j :: 0 <= i < j < |ms| && ms[i] == heir.from && ms[j] == heir.to && i < Cutoff(|ms|, keep)
                   && Expires(heir.from) && NextSurvivor(ms, i, j, keep)
  }

  datatype FolderPlan = FolderPlan(deprecate: seq<Marker>, delete: seq<Heir>, retained: seq<Marker>)

  function Froms(heirs: seq<Heir>): (ms: seq<Marker>)
    ensures |ms| == |heirs| && forall i :: 0 <= i < |ms| ==> ms[i] == heirs[i].from
  {
    seq(|heirs|, i requires 0 <= i < |heirs| => heirs[i].from)
  }

  /** Past the newest `keep`, unpinned markers are deprecated, and deleted if they already were; the rest stay. */
  ghost predicate PlansFolder(ms: seq<Marker>, keep: nat, plan: FolderPlan) {
    var aged := ms[..Cutoff(|ms|, keep)];
    && plan.deprecate == Select(aged, Ages)
    && Froms(plan.delete) == Select(aged, Expires)
    && (forall k :: 0 <= k < |plan.delete| ==> HasHeir(ms, keep, plan.delete[k]))
    && plan.retained == Select(aged, Stays) + ms[Cutoff(|ms|, keep)..]
  }

  method PlanFolder(ms: seq<Marker>, keep: nat) returns (plan: FolderPlan)
    requires keep > 0
    ensures PlansFolder(ms, keep, plan)
  {
    var cutoff := Cutoff(|ms|, keep);
    plan := FolderPlan([], [], []);
    for i := 0 to |ms|
      invariant Planned(ms, keep, i, plan)
    {
      var m := ms[i];
      if i >= cutoff || m.pinned {
        PlanRetained(ms, keep, i, plan);
        plan := plan.(retained := plan.retained + [m]);
      } else if !m.deprecated {
        PlanDeprecated(ms, keep, i, plan);
        plan := plan.(deprecate := plan.deprecate + [m], retained := plan.retained + [m]);
      } else {
        var next := NextRetained(ms, i, keep);
        SurvivorIsHeir(ms, keep, i, next);
        PlanDeleted(ms, keep, i, plan, Heir(m, ms[next]));
        plan := plan.(delete := plan.delete + [Heir(m, ms[next])]);
      }
    }
    PlannedToTheEnd(ms, keep, plan);
  }

  lemma SurvivorIsHeir(ms: seq<Marker>, keep: nat, i: nat, j: nat)
    requires i < j < |ms| && i < Cutoff(|ms|, keep) && Expires(ms[i]) && NextSurvivor(ms, i, j, keep)
    ensures HasHeir(ms, keep, Heir(ms[i], ms[j]))
  {
  }

  lemma PlannedToTheEnd(ms: seq<Marker>, keep: nat, plan: FolderPlan)
    requires Planned(ms, keep, |ms|, plan)
    ensures PlansFolder(ms, keep, plan)
  {
    var cutoff := Cutoff(|ms|, keep);
    assert ms[..|ms|] == ms && ms[cutoff..|ms|] == ms[cutoff..];
  }

  /** The plan for the first `n` markers. */
  ghost predicate Planned(ms: seq<Marker>, keep: nat, n: nat, plan: FolderPlan)
    requires n <= |ms|
  {
    var k := Min(n, Cutoff(|ms|, keep));
    && plan.deprecate == Select(ms[..k], Ages)
    && Froms(plan.delete) == Select(ms[..k], Expires)
    && (forall i :: 0 <= i < |plan.delete| ==> HasHeir(ms, keep, plan.delete[i]))
    && plan.retained == Select(ms[..k], Stays) + ms[k..n]
  }

  lemma PlanOneMore(ms: seq<Marker>, keep: nat, n: nat)
    requires n < |ms|
    ensures var c, m := Cutoff(|ms|, keep), ms[n];
            if n < c then
              && Select(ms[..n + 1], Ages) == Select(ms[..n], Ages) + (if Ages(m) then [m] else [])
              && Select(ms[..n + 1], Expires) == Select(ms[..n], Expires) + (if Expires(m) then [m] else [])
              && Select(ms[..n + 1], Stays) == Select(ms[..n], Stays) + (if Stays(m) then [m] else [])
              && ms[n..n] == [] && ms[n + 1..n + 1] == []
            else ms[c..n + 1] == ms[c..n] + [m]
  {
    assert ms[..n + 1][..n] == ms[..n];
  }

  lemma PlanRetained(ms: seq<Marker>, keep: nat, n: nat, plan: FolderPlan)
    requires n < |ms| && Planned(ms, keep, n, plan) && (n >= Cutoff(|ms|, keep) || ms[n].pinned)
    ensures Planned(ms, keep, n + 1, plan.(retained := plan.retained + [ms[n]]))
  {
    PlanOneMore(ms, keep, n);
  }

  lemma PlanDeprecated(ms: seq<Marker>, keep: nat, n: nat, plan: FolderPlan)
    requires n < |ms| && Planned(ms, keep, n, plan) && n < Cutoff(|ms|, keep) && Ages(ms[n])
    ensures Planned(ms, keep, n + 1, plan.(deprecate := plan.deprecate + [ms[n]], retained := plan.retained + [ms[n]]))
  {
    PlanOneMore(ms, keep, n);
  }

  lemma PlanDeleted(ms: seq<Marker>, keep: nat, n: nat, plan: FolderPlan, heir: Heir)
    requires n < |ms| && Planned(ms, keep, n, plan) && n < Cutoff(|ms|, keep) && Expires(ms[n])
    requires heir.from == ms[n] && HasHeir(ms, keep, heir)
    ensures Planned(ms, keep, n + 1, plan.(delete := plan.delete + [heir]))
  {
    PlanOneMore(ms, keep, n);
    assert Froms(plan.delete + [heir]) == Froms(plan.delete) + [heir.from];
  }
}
