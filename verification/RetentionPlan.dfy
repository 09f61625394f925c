/** What a retention plan contains, said in terms of the store alone. */
module RetentionPlan {
  import opened Bytes
  import opened Blocks
  import opened ArchiveBlocks
  import opened Manifests
  import opened Retention
  import opened RetentionRun
  import opened RetentionTheorems
  import opened RetentionCompletion
  import opened RetentionHistory
  import Sorting
  import Text

  // ---------------------------------------------------------------- markers

  lemma PlaceInFolder(ms: seq<Marker>, f: FolderId, i: nat, c: nat)
    requires UniqueIds(ms) && i < |OfFolder(ms, f)| && c <= |OfFolder(ms, f)|
    ensures OfFolder(ms, f)[i] in OfFolder(ms, f)[..c] <==> i < c
    ensures OfFolder(ms, f)[i] in ms && OfFolder(ms, f)[i].folder == f
  {
    var here := OfFolder(ms, f);
    SelectIsUnique(ms, (m: Marker) => m.folder == f);
    SelectElements(ms, (m: Marker) => m.folder == f);
    assert here[i] in here;
    if i < c {
      assert here[..c][i] == here[i];
    }
  }

  /** A folder's marker with at least `keep` newer ones is deprecated if it is not yet, and deleted if it is,
      unless it is pinned; no other marker is touched. */
  lemma MarkedExactlyWhen(s: Store, keep: nat, plan: Plan, f: FolderId, i: nat)
    requires UniqueIds(s.markers) && Plans(s, keep, plan) && i < |OfFolder(s.markers, f)|
    ensures var here := OfFolder(s.markers, f);
            && (here[i] in plan.deprecate <==> i + keep < |here| && !here[i].pinned && !here[i].deprecated)
            && (here[i] in Froms(plan.heirs) <==> i + keep < |here| && !here[i].pinned && here[i].deprecated)
  {
    var here := OfFolder(s.markers, f);
    var c := Cutoff(|here|, keep);
    PlaceInFolder(s.markers, f, i, c);
    SelectElements(here[..c], Ages);
    SelectElements(here[..c], Expires);
  }

  /** The heir of a deleted marker is the next one of its folder that stays: all in between are deleted too. */
  lemma HeirIsTheNextToStay(s: Store, keep: nat, plan: Plan, k: nat) returns (i: nat, j: nat)
    requires UniqueIds(s.markers) && Plans(s, keep, plan) && k < |plan.heirs|
    ensures var heir, here := plan.heirs[k], OfFolder(s.markers, plan.heirs[k].from.folder);
            && i < j < |here| && here[i] == heir.from && here[j] == heir.to && heir.to !in Froms(plan.heirs)
            && forall x :: i < x < j ==> here[x] in Froms(plan.heirs)
  {
    var heir := plan.heirs[k];
    var f := heir.from.folder;
    var here := OfFolder(s.markers, f);
    assert HasHeir(here, keep, heir);
    i, j :| 0 <= i < j < |here| && here[i] == heir.from && here[j] == heir.to && i < Cutoff(|here|, keep)
            && Expires(heir.from) && NextSurvivor(here, i, j, keep);
    MarkedExactlyWhen(s, keep, plan, f, j);
    forall x | i < x < j ensures here[x] in Froms(plan.heirs) {
      MarkedExactlyWhen(s, keep, plan, f, x);
      assert !Survives(here, x, keep);
    }
  }

  lemma {:induction false} SelectedInOrder(ms: seq<Marker>, n: nat, choose: Marker -> bool)
    requires UniqueIds(ms) && n <= |ms|
    ensures forall i :: 0 <= i < |ms| ==> (ms[i] in Select(ms[..n], choose) <==> i < n && choose(ms[i]))
  {
    SelectElements(ms[..n], choose);
    forall i | 0 <= i < |ms| ensures ms[i] in ms[..n] <==> i < n {
      if i < n {
        assert ms[..n][i] == ms[i];
      }
    }
  }

  /** Where two rounds lead: of a folder's markers exactly the pinned ones and the newest `keep` remain. */
  lemma RemainsExactlyWhen(ms: seq<Marker>, keep: nat, i: nat)
    requires UniqueIds(ms) && i < |ms|
    ensures ms[i] in Round(Round(ms, keep), keep) <==> ms[i].pinned || i + keep >= |ms|
    ensures forall m :: m in Round(Round(ms, keep), keep) ==> m in ms
  {
    var c := Cutoff(|ms|, keep);
    TwoRoundsReachTheFixedPoint(ms, keep);
    SelectedInOrder(ms, c, Pinned);
    SelectElements(ms[..c], Pinned);
    AmongTheNewest(ms, c, i);
  }

  lemma AmongTheNewest(ms: seq<Marker>, c: nat, i: nat)
    requires UniqueIds(ms) && i < |ms| && c <= |ms|
    ensures ms[i] in ms[c..] <==> i >= c
  {
    if i >= c {
      assert ms[c..][i - c] == ms[i];
    }
  }

  // ---------------------------------------------------------------- promotions

  predicate Outside(revision: nat, after: nat, upTo: nat) {
    revision <= after || upTo < revision
  }

  /** A path that an heir shows is promoted to it exactly when neither its last write nor its deletion came
      between the two snapshots. */
  lemma PromotedExactlyWhen(s: Store, keep: nat, plan: Plan, heir: Heir, path: Path)
    requires Plans(s, keep, plan) && heir in plan.heirs && path in FolderOf(s, heir.from.folder)
    ensures var state := FolderOf(s, heir.from.folder)[path];
            Promotion(heir, path) in plan.promotions <==>
              && View(state, heir.to.cursor).Some?
              && (state.live.Some? ==> Outside(state.live.value.revision, heir.from.cursor, heir.to.cursor))
              && (state.deleted.Some? ==> Outside(state.deleted.value, heir.from.cursor, heir.to.cursor))
  {
  }

  /** Every deleted snapshot hands on what has not changed: a tracked path that its heir shows and that was not
      written in between is promoted. */
  lemma UnchangedPathIsPromoted(s: Store, keep: nat, plan: Plan, heir: Heir, path: Path)
    requires Plans(s, keep, plan) && heir in plan.heirs && path in FolderOf(s, heir.from.folder)
    requires var state := FolderOf(s, heir.from.folder)[path];
             && Tracked(state) && View(state, heir.to.cursor).Some?
             && forall r :: r in state.history ==> Outside(r, heir.from.cursor, heir.to.cursor)
    ensures Promotion(heir, path) in plan.promotions
  {
    PromotedExactlyWhen(s, keep, plan, heir, path);
  }

  // ---------------------------------------------------------------- the sweep

  /** After a complete run exactly those blocks are gone that a deleted snapshot showed and that no remaining
      snapshot and no current file of a folder with snapshots shows. */
  lemma SweptExactlyWhen(s: Store, archive: Archive, keep: nat, plan: Plan, script: Script, h: Digest)
    requires Runs(s, keep, plan, script) && Completable(s, plan) && h in archive
    ensures Final(s, archive, script).Some?
    ensures h in Final(s, archive, script).value.archive <==>
              || (forall m :: m in s.markers && m in Froms(plan.heirs) ==> h !in BlocksOf(s, m))
              || (exists m :: m in s.markers && m !in Froms(plan.heirs) && h in BlocksOf(s, m))
              || (exists m :: m in s.markers && h in LiveBlocks(FolderOf(s, m.folder)))
  {
    CompletesExactlyWhen(s, archive, keep, plan, script);
    NeededByTheDeletedOnly(s, keep, plan, h);
    if Sweepable(s, keep, h) {
      SweepHappens(s, archive, keep, plan, script, h);
    } else {
      NotSwept(s, archive, keep, plan, script, h);
    }
  }

  lemma NeededByTheDeletedOnly(s: Store, keep: nat, plan: Plan, h: Digest)
    requires forall m :: m in Froms(plan.heirs) <==> Expiring(s.markers, m, keep)
    ensures Sweepable(s, keep, h) <==>
              && (exists m :: m in s.markers && m in Froms(plan.heirs) && h in BlocksOf(s, m))
              && (forall m :: m in s.markers && m !in Froms(plan.heirs) ==> h !in BlocksOf(s, m))
              && (forall m :: m in s.markers ==> h !in LiveBlocks(FolderOf(s, m.folder)))
  {
  }

  lemma NotSwept(s: Store, archive: Archive, keep: nat, plan: Plan, script: Script, h: Digest)
    requires Runs(s, keep, plan, script) && Final(s, archive, script).Some? && h in archive && !Sweepable(s, keep, h)
    ensures h in Final(s, archive, script).value.archive
  {
    var steps := Steps(script);
    forall i | 0 <= i < |steps| ensures steps[i] != Sweep(h) {
      if steps[i] == Sweep(h) {
        SweptIsSweepable(s, keep, plan, script, i, h);
      }
    }
    RunKeepsBlock(Disk(s, archive), steps, |steps|, h);
  }

  // ---------------------------------------------------------------- what can still be restored

  lemma ShownBlocks(s: Store, m: Marker, path: Path, b: Block)
    requires path in FolderOf(s, m.folder) && View(FolderOf(s, m.folder)[path], m.cursor).Some?
    requires b in View(FolderOf(s, m.folder)[path], m.cursor).value.blocks
    ensures b.hash in BlocksOf(s, m)
  {
    assert b.hash in Hashes(View(FolderOf(s, m.folder)[path], m.cursor).value);
  }

  /** Wherever a run stops, every file of every snapshot still stored that could be restored from the archive as
      the store showed it can be restored still; and so can the current files of folders with snapshots. */
  lemma StoppedRunKeepsRestorable(s: Store, archive: Archive, keep: nat, plan: Plan, script: Script, n: nat, m: Marker,
                                  path: Path)
    requires Runs(s, keep, plan, script) && n <= |Steps(script)| && After(Disk(s, archive), Steps(script), n).Some?
    requires path in FolderOf(s, m.folder)
    ensures var state, d := FolderOf(s, m.folder)[path], After(Disk(s, archive), Steps(script), n).value;
            && (m in d.store.markers && View(state, m.cursor).Some? ==>
                  StaysArchived(archive, d.archive, View(state, m.cursor).value.blocks))
            && (m in s.markers && state.live.Some? ==>
                  StaysArchived(archive, d.archive, state.live.value.manifest.blocks))
  {
    var state, d := FolderOf(s, m.folder)[path], After(Disk(s, archive), Steps(script), n).value;
    if m in d.store.markers && View(state, m.cursor).Some? {
      forall b | b in View(state, m.cursor).value.blocks && Protected(archive, b) ensures Protected(d.archive, b) {
        ShownBlocks(s, m, path, b);
        StoppedRetentionKeepsBlocks(s, archive, keep, plan, script, n, b.hash);
      }
    }
    if m in s.markers && state.live.Some? {
      forall b | b in state.live.value.manifest.blocks && Protected(archive, b) ensures Protected(d.archive, b) {
        assert b.hash in Hashes(state.live.value.manifest);
        assert b.hash in LiveBlocks(FolderOf(s, m.folder));
        StoppedRetentionKeepsBlocks(s, archive, keep, plan, script, n, b.hash);
      }
    }
  }

  /** Every one of these blocks that was intact in the archive still is. */
  ghost predicate StaysArchived(before: Archive, after: Archive, blocks: seq<Block>) {
    forall b :: b in blocks && Protected(before, b) ==> Protected(after, b)
  }

  // ---------------------------------------------------------------- the order of the work

  predicate EarlierFrom(a: Promotion, b: Promotion) {
    if a.heir.from.id != b.heir.from.id then Text.Less(a.heir.from.id, b.heir.from.id) else Text.Less(a.path, b.path)
  }

  lemma EarlierIsTransitive(a: Promotion, b: Promotion, c: Promotion)
    ensures !EarlierFrom(b, a) && !EarlierFrom(c, b) ==> !EarlierFrom(c, a)
  {
    var x, y, z := a.heir.from.id, b.heir.from.id, c.heir.from.id;
    Text.NotLessIsTransitive(x, y, z);
    Text.NotLessIsTransitive(a.path, b.path, c.path);
    Text.LessIsTotal(x, y);
  }

  lemma EarlierIsAnOrder()
    ensures Sorting.StrictWeakOrder(EarlierFrom) && Sorting.StrictWeakOrder(Text.Less)
  {
    forall a, b ensures EarlierFrom(a, b) ==> !EarlierFrom(b, a) {
      Text.LessIsAsymmetric(a.heir.from.id, b.heir.from.id);
      Text.LessIsAsymmetric(a.path, b.path);
    }
    forall a, b, c ensures !EarlierFrom(b, a) && !EarlierFrom(c, b) ==> !EarlierFrom(c, a) {
      EarlierIsTransitive(a, b, c);
    }
    forall a, b ensures Text.Less(a, b) ==> !Text.Less(b, a) {
      Text.LessIsAsymmetric(a, b);
    }
    forall a, b, c ensures !Text.Less(b, a) && !Text.Less(c, b) ==> !Text.Less(c, a) {
      Text.NotLessIsTransitive(a, b, c);
    }
  }

  method Listed<T(==)>(s: set<T>) returns (q: seq<T>)
    ensures |q| == |s| && forall x :: x in q <==> x in s
  {
    var rest := s;
    q := [];
    while rest != {}
      invariant rest <= s && |q| + |rest| == |s|
      invariant forall x :: x in q <==> x in s && x !in rest
      decreases rest
    {
      var x :| x in rest;
      rest := rest - {x};
      q := q + [x];
    }
  }

  function Ids(ms: seq<Marker>): (ids: seq<Id>)
    ensures |ids| == |ms| && forall i :: 0 <= i < |ms| ==> ids[i] == ms[i].id
  {
    seq(|ms|, i requires 0 <= i < |ms| => ms[i].id)
  }

  method SortedIds(ms: seq<Marker>) returns (ids: seq<Id>)
    ensures |ids| == |ms| && forall id :: id in ids <==> exists m :: m in ms && m.id == id
    ensures forall i, j :: 0 <= i < j < |ids| ==> !Text.Less(ids[j], ids[i])
  {
    EarlierIsAnOrder();
    ids := Sorting.Sort(Ids(ms), Text.Less);
    Sorting.SortSorts(Ids(ms), Text.Less);
    SortedHasTheSame(Ids(ms), Text.Less);
    forall id ensures id in ids <==> exists m :: m in ms && m.id == id {
      if id in ids {
        var i :| 0 <= i < |ms| && Ids(ms)[i] == id;
        assert ms[i] in ms;
      }
      if m :| m in ms && m.id == id {
        var i :| 0 <= i < |ms| && ms[i] == m;
        assert Ids(ms)[i] == id;
      }
    }
  }

  lemma SortedHasTheSame<T>(s: seq<T>, less: (T, T) -> bool)
    ensures |Sorting.Sort(s, less)| == |s| && forall x :: x in Sorting.Sort(s, less) <==> x in s
  {
    Sorting.SortKeepsElements(s, less);
    var t := Sorting.Sort(s, less);
    assert |multiset(t)| == |t| && |multiset(s)| == |s|;
    forall x ensures x in t <==> x in s {
      assert x in multiset(t) <==> x in multiset(s);
    }
  }

  /** The plan's work in the order in which it is executed: ids by text, promotions by the deleted snapshot and
      then the path, blocks by their hashes. */
  method InOrder(plan: Plan, before: (Digest, Digest) -> bool) returns (script: Script)
    ensures Enumerates(script, plan)
    ensures |script.deprecate| == |plan.deprecate| && |script.delete| == |plan.heirs|
    ensures |script.promotions| == |plan.promotions| && |script.sweep| == |plan.sweep|
    ensures forall i, j :: 0 <= i < j < |script.deprecate| ==> !Text.Less(script.deprecate[j], script.deprecate[i])
    ensures forall i, j :: 0 <= i < j < |script.delete| ==> !Text.Less(script.delete[j], script.delete[i])
    ensures forall i, j :: 0 <= i < j < |script.promotions| ==>
              var p, q := script.promotions[i], script.promotions[j];
              && !Text.Less(q.heir.from.id, p.heir.from.id)
              && (p.heir.from.id == q.heir.from.id ==> !Text.Less(q.path, p.path))
    ensures Sorting.StrictWeakOrder(before) ==>
              forall i, j :: 0 <= i < j < |script.sweep| ==> !before(script.sweep[j], script.sweep[i])
  {
    var deprecate := SortedIds(plan.deprecate);
    var delete := SortedIds(Froms(plan.heirs));
    var listed := Listed(plan.promotions);
    var promotions := Sorting.Sort(listed, EarlierFrom);
    var blocks := Listed(plan.sweep);
    var sweep := Sorting.Sort(blocks, before);
    EarlierIsAnOrder();
    SortedHasTheSame(listed, EarlierFrom);
    SortedHasTheSame(blocks, before);
    Sorting.SortSorts(listed, EarlierFrom);
    if Sorting.StrictWeakOrder(before) {
      Sorting.SortSorts(blocks, before);
    }
    forall i, j | 0 <= i < j < |promotions|
      ensures !Text.Less(promotions[j].heir.from.id, promotions[i].heir.from.id)
      ensures promotions[i].heir.from.id == promotions[j].heir.from.id ==>
                !Text.Less(promotions[j].path, promotions[i].path)
    {
      assert !EarlierFrom(promotions[j], promotions[i]);
      Text.LessIsAsymmetric(promotions[i].heir.from.id, promotions[j].heir.from.id);
    }
    script := Script(deprecate, promotions, delete, sweep);
  }
}
