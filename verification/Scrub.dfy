/** Checking the archive against its intake jobs, and repairing what is missing or damaged. */
module Scrub {
  import opened Outcomes
  import opened Bags
  import opened Bytes
  import opened Blocks
  import opened ArchiveBlocks
  import opened Intake

  /** A job whose block is safe: nothing to find, nothing to repair. */
  predicate Sound(job: Job, archive: Archive) {
    job.status.Archived? && Protected(archive, job.block)
  }

  // ---------------------------------------------------------------- scrub

  datatype Finding = IsSound | IsIncomplete | IsCorrupt | IsMissing
  datatype Findings = Findings(sound: nat, incomplete: nat, corrupt: nat, missing: nat, orphans: set<Digest>)

  /** An unfinished job is incomplete whatever the archive holds; a finished one has its block, a wrong file or none. */
  function Classify(job: Job, archive: Archive): (f: Finding)
    ensures f.IsSound? <==> Sound(job, archive)
  {
    if !job.status.Archived? then IsIncomplete
    else if job.block.hash !in archive then IsMissing
    else if |archive[job.block.hash]| != job.block.size || Sha256(archive[job.block.hash]) != job.block.hash then
      IsCorrupt
    else IsSound
  }

  function Counted(jobs: seq<Job>, archive: Archive, kind: Finding): nat {
    if jobs == [] then 0
    else Counted(jobs[..|jobs| - 1], archive, kind) + (if Classify(jobs[|jobs| - 1], archive) == kind then 1 else 0)
  }

  function HashesOf(jobs: seq<Job>): set<Digest> {
    set job | job in jobs :: job.block.hash
  }

  /** There is a file for the block, of the wrong size or with the wrong bytes. */
  predicate Damaged(archive: Archive, b: Block) {
    b.hash in archive && (|archive[b.hash]| != b.size || Sha256(archive[b.hash]) != b.hash)
  }

  lemma {:induction false} CountedIsCount(jobs: seq<Job>, n: nat, archive: Archive, kind: Finding, counts: nat -> bool)
    requires n <= |jobs| && forall i: nat :: i < n ==> (counts(i) <==> Classify(jobs[i], archive) == kind)
    ensures Counted(jobs[..n], archive, kind) == CountBelow(n, counts)
  {
    if n > 0 {
      CountedIsCount(jobs, n - 1, archive, kind, counts);
      assert jobs[..n][..n - 1] == jobs[..n - 1];
    }
  }

  lemma {:induction false} CountsAddUp(jobs: seq<Job>, archive: Archive)
    ensures Counted(jobs, archive, IsSound) + Counted(jobs, archive, IsIncomplete) + Counted(jobs, archive, IsCorrupt) +
            Counted(jobs, archive, IsMissing) == |jobs|
  {
    if jobs != [] {
      CountsAddUp(jobs[..|jobs| - 1], archive);
    }
  }

  lemma IncompleteCount(jobs: seq<Job>, archive: Archive)
    ensures Counted(jobs, archive, IsIncomplete) ==
            |set i: nat | i < |jobs| && !jobs[i].status.Archived?|
  {
    var counts := (i: nat) => i < |jobs| && !jobs[i].status.Archived?;
    CountedIsCount(jobs, |jobs|, archive, IsIncomplete, counts);
    CountIsCardinality(|jobs|, counts);
    assert jobs[..|jobs|] == jobs;
    assert (set i: nat | i < |jobs| && !jobs[i].status.Archived?) ==
           set i: nat | i < |jobs| && counts(i);
  }

  lemma MissingCount(jobs: seq<Job>, archive: Archive)
    ensures Counted(jobs, archive, IsMissing) ==
            |set i: nat | i < |jobs| && jobs[i].status.Archived? && jobs[i].block.hash !in archive|
  {
    var counts := (i: nat) => i < |jobs| && jobs[i].status.Archived? && jobs[i].block.hash !in archive;
    CountedIsCount(jobs, |jobs|, archive, IsMissing, counts);
    CountIsCardinality(|jobs|, counts);
    assert jobs[..|jobs|] == jobs;
    assert (set i: nat | i < |jobs| && jobs[i].status.Archived? && jobs[i].block.hash !in archive) ==
           set i: nat | i < |jobs| && counts(i);
  }

  lemma CorruptCount(jobs: seq<Job>, archive: Archive)
    ensures Counted(jobs, archive, IsCorrupt) ==
            |set i: nat | i < |jobs| && jobs[i].status.Archived? && Damaged(archive, jobs[i].block)|
  {
    var counts := (i: nat) => i < |jobs| && jobs[i].status.Archived? && Damaged(archive, jobs[i].block);
    CountedIsCount(jobs, |jobs|, archive, IsCorrupt, counts);
    CountIsCardinality(|jobs|, counts);
    assert jobs[..|jobs|] == jobs;
    assert (set i: nat | i < |jobs| && jobs[i].status.Archived? && Damaged(archive, jobs[i].block)) ==
           set i: nat | i < |jobs| && counts(i);
  }

  /** What each kind of finding counts. */
  lemma CountsAre(jobs: seq<Job>, archive: Archive)
    ensures Counted(jobs, archive, IsIncomplete) == |set i: nat | i < |jobs| && !jobs[i].status.Archived?|
    ensures Counted(jobs, archive, IsMissing) ==
            |set i: nat | i < |jobs| && jobs[i].status.Archived? && jobs[i].block.hash !in archive|
    ensures Counted(jobs, archive, IsCorrupt) ==
            |set i: nat | i < |jobs| && jobs[i].status.Archived? && Damaged(archive, jobs[i].block)|
    ensures Counted(jobs, archive, IsSound) + Counted(jobs, archive, IsIncomplete) + Counted(jobs, archive, IsCorrupt) +
            Counted(jobs, archive, IsMissing) == |jobs|
  {
    IncompleteCount(jobs, archive);
    MissingCount(jobs, archive);
    CorruptCount(jobs, archive);
    CountsAddUp(jobs, archive);
  }

  method ScrubArchive(jobs: seq<Job>, archive: Archive) returns (r: Findings)
    ensures r.sound == Counted(jobs, archive, IsSound) && r.incomplete == Counted(jobs, archive, IsIncomplete)
    ensures r.corrupt == Counted(jobs, archive, IsCorrupt) && r.missing == Counted(jobs, archive, IsMissing)
    ensures r.incomplete == |set i: nat | i < |jobs| && !jobs[i].status.Archived?|
    ensures r.missing == |set i: nat | i < |jobs| && jobs[i].status.Archived? && jobs[i].block.hash !in archive|
    ensures r.corrupt == |set i: nat | i < |jobs| && jobs[i].status.Archived? && Damaged(archive, jobs[i].block)|
    ensures r.sound + r.incomplete + r.missing + r.corrupt == |jobs|
    ensures forall h :: h in r.orphans <==> h in archive && forall i :: 0 <= i < |jobs| ==> jobs[i].block.hash != h
  {
    var sound, incomplete, corrupt, missing := 0, 0, 0, 0;
    for i := 0 to |jobs|
      invariant sound == Counted(jobs[..i], archive, IsSound) && incomplete == Counted(jobs[..i], archive, IsIncomplete)
      invariant corrupt == Counted(jobs[..i], archive, IsCorrupt) && missing == Counted(jobs[..i], archive, IsMissing)
    {
      var job := jobs[i];
      assert jobs[..i + 1][..i] == jobs[..i];
      if !job.status.Archived? {
        incomplete := incomplete + 1;
      } else if job.block.hash !in archive {
        missing := missing + 1;
      } else if !Protected(archive, job.block) {
        corrupt := corrupt + 1;
      } else {
        sound := sound + 1;
      }
    }
    assert jobs[..|jobs|] == jobs;
    CountsAre(jobs, archive);
    r := Findings(sound, incomplete, corrupt, missing, archive.Keys - HashesOf(jobs));
  }

  // ---------------------------------------------------------------- repair plan

  /** Where repairs may come from: configured folders, their files, and other archives in the order of their owners. */
  datatype Remedies = Remedies(roots: set<FolderId>, sources: Sources, peers: seq<Archive>)

  function FromPeers(peers: seq<Archive>, b: Block): Option<Data> {
    if peers == [] then None
    else if Protected(peers[0], b) then Some(peers[0][b.hash])
    else FromPeers(peers[1..], b)
  }

  /** The block's bytes from a live file, a retained copy or a peer's archive. */
  function Remedy(m: Remedies, job: Job): Option<Data> {
    var local := if job.folder in m.roots then ReadBlock(CopiesOf(m.sources, job), job.block) else None;
    if local.Some? then local else FromPeers(m.peers, job.block)
  }

  lemma {:induction false} PeersHaveTheBlock(peers: seq<Archive>, b: Block)
    ensures var r := FromPeers(peers, b); r.Some? ==> Sha256(r.value) == b.hash && |r.value| == b.size
  {
    if peers != [] {
      PeersHaveTheBlock(peers[1..], b);
    }
  }

  lemma RemedyIsTheBlock(m: Remedies, job: Job)
    ensures var r := Remedy(m, job); r.Some? ==> Sha256(r.value) == job.block.hash && |r.value| == job.block.size
  {
    FirstCopyIsTheBlock(CopiesOf(m.sources, job).retained, job.block);
    PeersHaveTheBlock(m.peers, job.block);
  }

  lemma {:induction false} PeersExactlyWhen(peers: seq<Archive>, b: Block)
    ensures FromPeers(peers, b).Some? <==> exists i :: 0 <= i < |peers| && Protected(peers[i], b)
  {
    if peers != [] {
      PeersExactlyWhen(peers[1..], b);
      if i :| 0 <= i < |peers[1..]| && Protected(peers[1..][i], b) {
        assert peers[i + 1] == peers[1..][i];
      }
      if i :| 0 <= i < |peers| && Protected(peers[i], b) && !Protected(peers[0], b) {
        assert peers[1..][i - 1] == peers[i];
      }
    }
  }

  /** There is a repair exactly if a configured folder's live file or retained copy has the block, or a peer's
      archive has it. */
  lemma RemedyExactlyWhen(m: Remedies, job: Job)
    ensures var c := CopiesOf(m.sources, job);
            Remedy(m, job).Some? <==>
              || (&& job.folder in m.roots
                  && (|| (c.live.Some? && Verifies(c.live.value, job.block))
                      || exists i :: 0 <= i < |c.retained| && Verifies(c.retained[i], job.block)))
              || exists i :: 0 <= i < |m.peers| && Protected(m.peers[i], job.block)
  {
    FirstCopyIsTheBlock(CopiesOf(m.sources, job).retained, job.block);
    PeersExactlyWhen(m.peers, job.block);
  }

  /** Jobs to repair, in order. */
  function Repairable(jobs: seq<Job>, archive: Archive, m: Remedies): seq<Job> {
    if jobs == [] then []
    else
      var job := jobs[|jobs| - 1];
      Repairable(jobs[..|jobs| - 1], archive, m) + (if !Sound(job, archive) && Remedy(m, job).Some? then [job] else [])
  }

  /** How many unsound jobs nothing can repair. */
  function Unresolved(jobs: seq<Job>, archive: Archive, m: Remedies): nat {
    if jobs == [] then 0
    else
      var job := jobs[|jobs| - 1];
      Unresolved(jobs[..|jobs| - 1], archive, m) + (if !Sound(job, archive) && Remedy(m, job).None? then 1 else 0)
  }

  datatype RepairPlan = RepairPlan(actions: seq<Job>, unresolved: nat)

  method PlanRepair(jobs: seq<Job>, archive: Archive, m: Remedies) returns (plan: RepairPlan)
    ensures plan.actions == Repairable(jobs, archive, m)
    ensures plan.unresolved == Unresolved(jobs, archive, m)
  {
    plan := RepairPlan([], 0);
    for i := 0 to |jobs|
      invariant plan.actions == Repairable(jobs[..i], archive, m)
      invariant plan.unresolved == Unresolved(jobs[..i], archive, m)
    {
      var job := jobs[i];
      assert jobs[..i + 1][..i] == jobs[..i];
      if !Sound(job, archive) {
        if Remedy(m, job).None? {
          plan := plan.(unresolved := plan.unresolved + 1);
        } else {
          plan := plan.(actions := plan.actions + [job]);
        }
      }
    }
    assert jobs[..|jobs|] == jobs;
  }

  /** Scrub and plan agree: what a scrub finds wrong is what a plan repairs or cannot resolve. */
  lemma {:induction false} ScrubMatchesPlan(jobs: seq<Job>, archive: Archive, m: Remedies)
    ensures Counted(jobs, archive, IsIncomplete) + Counted(jobs, archive, IsCorrupt) + Counted(jobs, archive, IsMissing)
            == |Repairable(jobs, archive, m)| + Unresolved(jobs, archive, m)
  {
    if jobs != [] {
      ScrubMatchesPlan(jobs[..|jobs| - 1], archive, m);
    }
  }

  // ---------------------------------------------------------------- repair

  /** Snapshot and id name a job. */
  predicate DistinctJobs(jobs: seq<Job>) {
    forall i, j :: 0 <= i < j < |jobs| ==> jobs[i].snapshot != jobs[j].snapshot || jobs[i].id != jobs[j].id
  }

  predicate SameKey(a: Job, b: Job) {
    a.snapshot == b.snapshot && a.id == b.id
  }

  function Done(job: Job): Job {
    job.(status := Archived, nextAt := None)
  }

  /** Marks the first job with the action's key. */
  method MarkArchived(jobs: seq<Job>, action: Job) returns (after: seq<Job>)
    requires DistinctJobs(jobs)
    ensures Marks(jobs, after, action)
  {
    after := jobs;
    for i := 0 to |jobs|
      invariant after == jobs && forall k :: 0 <= k < i ==> !SameKey(jobs[k], action)
    {
      if SameKey(jobs[i], action) {
        return jobs[i := Done(jobs[i])];
      }
    }
  }

  predicate Marks(before: seq<Job>, after: seq<Job>, action: Job) {
    && |after| == |before|
    && forall i :: 0 <= i < |before| ==>
         after[i] == if SameKey(before[i], action) then Done(before[i]) else before[i]
  }

  /** Each job is as before, or was repaired: marked archived, its block in place. */
  ghost predicate RepairedUpTo(before: seq<Job>, after: seq<Job>, actions: seq<Job>, n: nat, archive: Archive)
    requires n <= |actions|
  {
    && |after| == |before|
    && forall i :: 0 <= i < |before| ==>
         if before[i] in actions[..n] then
           after[i] == before[i].(status := Archived, nextAt := None) && Protected(archive, before[i].block)
         else after[i] == before[i]
  }

  /** Writing a block under its hash keeps every block that was safe. */
  ghost predicate KeepsSafe(before: Archive, after: Archive) {
    forall b: Block :: Protected(before, b) ==> Protected(after, b)
  }

  /** Only blocks that a done action names may have changed. */
  ghost predicate OnlyNamed(before: Archive, after: Archive, actions: seq<Job>, n: nat)
    requires n <= |actions|
  {
    forall h :: (forall i :: 0 <= i < n ==> actions[i].block.hash != h) ==>
      (h in after <==> h in before) && (h in before ==> after[h] == before[h])
  }

  /** Saving the job lists after a block was written: a failure may come before or after the list with this
      job reached the store. */
  datatype Saving = Saved | Lost | SavedThenFailed

  /** How far a repair got that stopped with an error at action `stop`. */
  predicate StoppedAt(stop: nat, writes: nat -> bool, saves: nat -> Saving, repaired: nat, marked: nat) {
    if !writes(stop) then repaired == marked == stop
    else !saves(stop).Saved? && repaired == stop + 1 && marked == if saves(stop).Lost? then stop else stop + 1
  }

  /** Wherever a repair stops, the stored jobs of the actions done are marked and have their blocks in place,
      every other job and every block no action names is as before, and every safe block is still safe; at
      most the last block written has its job unmarked. A repair that reports no error has done every action
      and leaves nothing that a new plan could repair. */
  method ExecuteRepair(jobs: seq<Job>, archive: Archive, m: Remedies, writes: nat -> bool, saves: nat -> Saving)
    returns (ok: bool, after: seq<Job>, repaired: nat, now: Archive, ghost marked: nat)
    requires DistinctJobs(jobs)
    ensures marked <= repaired <= |Repairable(jobs, archive, m)|
    ensures RepairedUpTo(jobs, after, Repairable(jobs, archive, m), marked, now)
    ensures OnlyNamed(archive, now, Repairable(jobs, archive, m), repaired) && KeepsSafe(archive, now)
    ensures ok ==> Repairable(after, now, m) == [] && marked == repaired == |Repairable(jobs, archive, m)|
    ensures !ok ==> exists stop: nat ::
              stop < |Repairable(jobs, archive, m)| && StoppedAt(stop, writes, saves, repaired, marked)
  {
    var plan := PlanRepair(jobs, archive, m);
    ok, after, repaired, now, marked := false, jobs, 0, archive, 0;
    for k := 0 to |plan.actions|
      invariant repaired == marked == k && RepairedUpTo(jobs, after, plan.actions, k, now)
      invariant KeepsSafe(archive, now) && OnlyNamed(archive, now, plan.actions, k)
    {
      if !writes(k) {
        assert StoppedAt(k, writes, saves, repaired, marked);
        return;
      }
      var before := after;
      after, now := RepairBlock(jobs, archive, m, plan.actions, k, after, now);
      repaired := repaired + 1;
      if saves(k).Lost? {
        after := before;
        assert StoppedAt(k, writes, saves, repaired, marked);
        return;
      }
      marked := marked + 1;
      if !saves(k).Saved? {
        assert StoppedAt(k, writes, saves, repaired, marked);
        return;
      }
    }
    NothingLeftToRepair(jobs, after, plan.actions, archive, now, m);
    ok := true;
  }

  /** One action: its block is written and its job marked. */
  method RepairBlock(ghost jobs: seq<Job>, ghost archive: Archive, m: Remedies, actions: seq<Job>, k: nat,
                     before: seq<Job>, was: Archive) returns (after: seq<Job>, now: Archive)
    requires DistinctJobs(jobs) && actions == Repairable(jobs, archive, m) && k < |actions|
    requires RepairedUpTo(jobs, before, actions, k, was) && KeepsSafe(archive, was)
    requires OnlyNamed(archive, was, actions, k)
    ensures RepairedUpTo(jobs, after, actions, k + 1, now) && RepairedUpTo(jobs, before, actions, k, now)
    ensures KeepsSafe(archive, now) && OnlyNamed(archive, now, actions, k + 1)
  {
    var action := actions[k];
    RepairKeepsKeys(jobs, before, actions, k, was);
    RepairableElements(jobs, archive, m);
    assert action in jobs && Remedy(m, action).Some?;
    now := was[action.block.hash := Remedy(m, action).value];
    after := MarkArchived(before, action);
    WriteKeepsSafe(was, m, action);
    RepairOne(jobs, before, after, actions, k, was, now);
  }

  lemma {:induction false} RepairableElements(jobs: seq<Job>, archive: Archive, m: Remedies)
    ensures forall job :: job in Repairable(jobs, archive, m) <==>
              job in jobs && !Sound(job, archive) && Remedy(m, job).Some?
  {
    if jobs != [] {
      var n := |jobs| - 1;
      RepairableElements(jobs[..n], archive, m);
      assert jobs == jobs[..n] + [jobs[n]];
    }
  }

  lemma RepairKeepsKeys(before: seq<Job>, after: seq<Job>, actions: seq<Job>, n: nat, archive: Archive)
    requires DistinctJobs(before) && n <= |actions| && RepairedUpTo(before, after, actions, n, archive)
    ensures DistinctJobs(after)
  {
  }

  lemma WriteKeepsSafe(archive: Archive, m: Remedies, job: Job)
    requires Remedy(m, job).Some?
    ensures KeepsSafe(archive, archive[job.block.hash := Remedy(m, job).value])
    ensures Protected(archive[job.block.hash := Remedy(m, job).value], job.block)
  {
    RemedyIsTheBlock(m, job);
  }

  lemma RepairOne(jobs: seq<Job>, before: seq<Job>, after: seq<Job>, actions: seq<Job>, n: nat, was: Archive,
                  now: Archive)
    requires DistinctJobs(jobs) && n < |actions| && actions[n] in jobs && RepairedUpTo(jobs, before, actions, n, was)
    requires Marks(before, after, actions[n]) && KeepsSafe(was, now) && Protected(now, actions[n].block)
    ensures RepairedUpTo(jobs, after, actions, n + 1, now)
  {
  }

  lemma {:induction false} NoneRepairable(jobs: seq<Job>, archive: Archive, m: Remedies)
    requires forall i :: 0 <= i < |jobs| ==> Sound(jobs[i], archive) || Remedy(m, jobs[i]).None?
    ensures Repairable(jobs, archive, m) == []
  {
    if jobs != [] {
      NoneRepairable(jobs[..|jobs| - 1], archive, m);
    }
  }

  lemma NothingLeftToRepair(jobs: seq<Job>, after: seq<Job>, actions: seq<Job>, archive: Archive, now: Archive,
                            m: Remedies)
    requires actions == Repairable(jobs, archive, m) && RepairedUpTo(jobs, after, actions, |actions|, now) &&
             KeepsSafe(archive, now)
    ensures Repairable(after, now, m) == []
  {
    RepairableElements(jobs, archive, m);
    assert actions[..|actions|] == actions;
    forall i | 0 <= i < |after| ensures Sound(after[i], now) || Remedy(m, after[i]).None? {
      assert jobs[i] in jobs;
      if jobs[i] !in actions && Sound(jobs[i], archive) {
        assert Protected(archive, jobs[i].block);
      }
    }
    NoneRepairable(after, now, m);
  }
}
