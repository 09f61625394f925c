/** Archive intake: jobs that copy blocks of changed files into the backup archive. */
module Intake {
  import opened Outcomes
  import opened Bytes
  import opened Blocks
  import opened ArchiveBlocks
  import opened Manifests

  datatype Status = Pending | Archived | Failed
  datatype Job = Job(snapshot: Id, id: Id, folder: FolderId, path: Path, block: Block, status: Status, attempts: nat,
                     nextAt: Option<int>)

  /** A file in a folder. */
  datatype Place = Place(folder: FolderId, path: Path)

  /** The file as it is now, and copies retained for the backup, newest first. */
  datatype Copies = Copies(live: Option<Data>, retained: seq<Data>)
  type Sources = map<Place, Copies>

  // ---------------------------------------------------------------- reading and archiving one block

  /** The first copy in which the block verifies. */
  function FirstCopy(copies: seq<Data>, b: Block): Option<Data> {
    if copies == [] then None
    else if Verifies(copies[0], b) then Some(Part(copies[0], b.offset, b.size))
    else FirstCopy(copies[1..], b)
  }

  function CopiesOf(sources: Sources, job: Job): Copies {
    if Place(job.folder, job.path) in sources then sources[Place(job.folder, job.path)] else Copies(None, [])
  }

  /** The block from the live file or, failing that, from a retained copy. */
  function ReadBlock(c: Copies, b: Block): Option<Data> {
    if c.live.Some? && Verifies(c.live.value, b) then Some(Part(c.live.value, b.offset, b.size))
    else FirstCopy(c.retained, b)
  }

  lemma {:induction false} FirstCopyIsTheBlock(copies: seq<Data>, b: Block)
    ensures var r := FirstCopy(copies, b); r.Some? ==> Sha256(r.value) == b.hash && |r.value| == b.size
    ensures FirstCopy(copies, b).Some? <==> exists i :: 0 <= i < |copies| && Verifies(copies[i], b)
  {
    if copies != [] {
      FirstCopyIsTheBlock(copies[1..], b);
      if !Verifies(copies[0], b) && FirstCopy(copies[1..], b).Some? {
        var i :| 0 <= i < |copies[1..]| && Verifies(copies[1..][i], b);
        assert copies[i + 1] == copies[1..][i];
      }
      forall i | 0 <= i < |copies| && Verifies(copies[i], b) ensures FirstCopy(copies, b).Some? {
        if i > 0 {
          assert copies[1..][i - 1] == copies[i];
        }
      }
    }
  }

  method ReadWithFallback(c: Copies, b: Block) returns (r: Option<Data>)
    ensures r == ReadBlock(c, b)
    ensures r.Some? ==> Sha256(r.value) == b.hash && |r.value| == b.size
  {
    FirstCopyIsTheBlock(c.retained, b);
    if c.live.Some? && Verifies(c.live.value, b) {
      return Some(Part(c.live.value, b.offset, b.size));
    }
    r := None;
    for i := 0 to |c.retained|
      invariant FirstCopy(c.retained, b) == FirstCopy(c.retained[i..], b)
    {
      assert c.retained[i..][1..] == c.retained[i + 1..];
      if Verifies(c.retained[i], b) {
        return Some(Part(c.retained[i], b.offset, b.size));
      }
    }
  }

  datatype Archiving = Reused | Stored | NotStored

  /** A block that is there is reused, one that is there and damaged is an error, and a missing one is
      copied from its source, if that has it and the write succeeds. */
  method ArchiveOneBlock(archive: Archive, c: Copies, b: Block, writes: bool) returns (r: Archiving, after: Archive)
    ensures r.Reused? ==> Protected(archive, b) && after == archive
    ensures r.NotStored? ==> after == archive
    ensures r.Stored? ==>
              && writes && b.hash !in archive && ReadBlock(c, b).Some?
              && after == archive[b.hash := ReadBlock(c, b).value] && Protected(after, b)
    ensures writes && b.hash !in archive && ReadBlock(c, b).Some? ==> r.Stored?
    ensures Protected(archive, b) ==> r.Reused?
  {
    if b.hash in archive {
      return if Protected(archive, b) then Reused else NotStored, archive;
    }
    var data := ReadWithFallback(c, b);
    if data.None? || !writes {
      return NotStored, archive;
    }
    r, after := Stored, archive[b.hash := data.value];
  }

  // ---------------------------------------------------------------- one run

  datatype Options = Options(now: int, maxJobs: int, maxAttempts: int, retryDelay: int, roots: set<FolderId>)

  function MaxJobs(o: Options): nat {
    if o.maxJobs <= 0 then 1 else o.maxJobs
  }

  function MaxAttempts(o: Options): nat {
    if o.maxAttempts <= 0 then 3 else o.maxAttempts
  }

  function RetryDelay(o: Options): int {
    if o.retryDelay <= 0 then 60 else o.retryDelay
  }

  predicate Ready(job: Job, now: int, maxAttempts: nat) {
    job.attempts < maxAttempts && (job.status.Failed? && job.nextAt.Some? ==> job.nextAt.value <= now)
  }

  /** Neither done nor waiting. */
  predicate Due(job: Job, o: Options) {
    !job.status.Archived? && Ready(job, o.now, MaxAttempts(o))
  }

  function DueAmong(jobs: seq<Job>, o: Options): nat {
    if jobs == [] then 0 else DueAmong(jobs[..|jobs| - 1], o) + (if Due(jobs[|jobs| - 1], o) then 1 else 0)
  }

  /** The attempts that are left to jobs not yet archived. */
  function Unused(jobs: seq<Job>, maxAttempts: nat): nat {
    if jobs == [] then 0
    else Unused(jobs[..|jobs| - 1], maxAttempts) + UnusedBy(jobs[|jobs| - 1], maxAttempts)
  }

  function UnusedBy(job: Job, maxAttempts: nat): nat {
    if job.status.Archived? || job.attempts >= maxAttempts then 0 else maxAttempts - job.attempts
  }

  /** A job that was tried once more: archived with its block in place, or failed and put off. */
  predicate Tried(before: Job, after: Job, o: Options, archive: Archive) {
    && Due(before, o)
    && after == before.(status := after.status, attempts := before.attempts + 1, nextAt := after.nextAt)
    && ((after.status.Archived? && after.nextAt.None? && Protected(archive, before.block))
        || (after.status.Failed? && after.nextAt == Some(o.now + RetryDelay(o))))
  }

  /** Only blocks under their own hash are added, and nothing in the archive changes. */
  predicate OnlyAdds(before: Archive, after: Archive) {
    && (forall h :: h in before ==> h in after && after[h] == before[h])
    && (forall h :: h in after && h !in before ==> Sha256(after[h]) == h)
  }

  datatype Tally = Tally(processed: nat, archived: nat, reused: nat, failed: nat, remaining: nat)

  /** Number `i` is among the first due jobs, as many as a run may take. */
  predicate Taken(jobs: seq<Job>, i: nat, o: Options) {
    i < |jobs| && Due(jobs[i], o) && DueAmong(jobs[..i], o) < MaxJobs(o)
  }

  lemma {:induction false} DueIsCardinality(jobs: seq<Job>, n: nat, o: Options)
    requires n <= |jobs|
    ensures DueAmong(jobs[..n], o) == |set j: nat | j < n && Due(jobs[j], o)|
  {
    var due := set j: nat | j < n && Due(jobs[j], o);
    if n == 0 {
      assert due == {};
    } else {
      DueIsCardinality(jobs, n - 1, o);
      var before := set j: nat | j < n - 1 && Due(jobs[j], o);
      assert jobs[..n][..n - 1] == jobs[..n - 1];
      if Due(jobs[n - 1], o) {
        assert due == before + {n - 1};
      } else {
        assert due == before;
      }
    }
  }

  /** A job is open if it is not archived, has attempts left, and is not put off to a later time. */
  lemma DueExactlyWhen(job: Job, o: Options)
    ensures Due(job, o) <==>
              && !job.status.Archived? && job.attempts < (if o.maxAttempts <= 0 then 3 else o.maxAttempts)
              && (job.status.Pending? || job.nextAt.None? || o.now >= job.nextAt.value)
  {
  }

  /** A run takes exactly the open jobs that fewer open ones come before than it may take. */
  lemma TakenExactlyWhen(jobs: seq<Job>, i: nat, o: Options)
    requires i < |jobs|
    ensures Taken(jobs, i, o) <==>
              && Due(jobs[i], o)
              && |set j: nat | j < i && Due(jobs[j], o)| < (if o.maxJobs <= 0 then 1 else o.maxJobs)
  {
    DueIsCardinality(jobs, i, o);
  }

  /** What a run makes of the first `n` jobs: those taken are tried once, and no other changes. */
  ghost predicate Ran(before: seq<Job>, after: seq<Job>, n: nat, o: Options, archive: Archive, processed: nat)
    requires n <= |before|
  {
    && |after| == |before| && processed == Processed(before[..n], o)
    && forall i :: 0 <= i < |before| ==>
         if i < n && Taken(before, i, o) then Tried(before[i], after[i], o, archive) else after[i] == before[i]
  }

  /** The job's block is in the archive already, or it is not, can be read, and can be written. */
  predicate MustSucceed(job: Job, o: Options, sources: Sources, writes: bool, archive: Archive) {
    && job.folder in o.roots
    && (|| Protected(archive, job.block)
        || (job.block.hash !in archive && ReadBlock(CopiesOf(sources, job), job.block).Some? && writes))
  }

  /** The folder is known, and the block is in the archive intact, or is not in it, can be written, and is in the
      live file or a retained copy. */
  lemma MustSucceedExactlyWhen(job: Job, o: Options, sources: Sources, writes: bool, archive: Archive)
    ensures var b, place := job.block, Place(job.folder, job.path);
            MustSucceed(job, o, sources, writes, archive) <==>
              && job.folder in o.roots
              && if b.hash in archive then |archive[b.hash]| == b.size && Sha256(archive[b.hash]) == b.hash
                 else && writes && place in sources
                      && (|| (sources[place].live.Some? && Verifies(sources[place].live.value, b))
                          || exists i :: 0 <= i < |sources[place].retained| && Verifies(sources[place].retained[i], b))
  {
    FirstCopyIsTheBlock(CopiesOf(sources, job).retained, job.block);
  }

  lemma MustSucceedLater(job: Job, o: Options, sources: Sources, writes: bool, archive: Archive, grown: Archive)
    requires OnlyAdds(archive, grown) && MustSucceed(job, o, sources, writes, archive)
    ensures MustSucceed(job, o, sources, writes, grown)
  {
    FirstCopyIsTheBlock(CopiesOf(sources, job).retained, job.block);
  }

  ghost predicate AllObliged(before: seq<Job>, after: seq<Job>, n: nat, o: Options, sources: Sources,
                             writes: nat -> bool, archive: Archive)
    requires n <= |before| == |after|
  {
    forall i :: 0 <= i < n && Taken(before, i, o) && MustSucceed(before[i], o, sources, writes(i), archive) ==>
      after[i].status.Archived?
  }

  /** How many of the first `n` jobs a run leaves for later. */
  function LeftAmong(jobs: seq<Job>, n: nat, o: Options): nat
    requires n <= |jobs|
  {
    if n == 0 then 0
    else LeftAmong(jobs, n - 1, o) + (if jobs[n - 1].status.Archived? || Taken(jobs, n - 1, o) then 0 else 1)
  }

  /** How many of the first `n` jobs a run marked failed. */
  function NewlyFailed(before: seq<Job>, after: seq<Job>, n: nat): nat
    requires n <= |before| == |after|
  {
    if n == 0 then 0
    else NewlyFailed(before, after, n - 1) +
         (if after[n - 1] != before[n - 1] && after[n - 1].status.Failed? then 1 else 0)
  }

  lemma {:induction false} SameFailed(before: seq<Job>, a: seq<Job>, b: seq<Job>, n: nat)
    requires n <= |before| == |a| == |b| && forall i :: 0 <= i < n ==> a[i] == b[i]
    ensures NewlyFailed(before, a, n) == NewlyFailed(before, b, n)
  {
    if n > 0 {
      SameFailed(before, a, b, n - 1);
    }
  }

  /** The store after the job lists of some snapshots were saved and those of the others were not. */
  ghost predicate SavedFor(before: seq<Job>, work: seq<Job>, after: seq<Job>, saved: Id -> bool) {
    && |after| == |work| == |before|
    && forall i :: 0 <= i < |before| ==> after[i] == if saved(before[i].snapshot) then work[i] else before[i]
  }

  lemma RanStarts(jobs: seq<Job>, o: Options, archive: Archive)
    ensures Ran(jobs, jobs, 0, o, archive, 0)
  {
  }

  lemma DueStep(jobs: seq<Job>, n: nat, o: Options)
    requires n < |jobs|
    ensures DueAmong(jobs[..n + 1], o) == DueAmong(jobs[..n], o) + (if Due(jobs[n], o) then 1 else 0)
  {
    assert jobs[..n + 1][..n] == jobs[..n];
  }

  lemma ProtectedStays(before: Archive, after: Archive, b: Block)
    requires OnlyAdds(before, after) && Protected(before, b)
    ensures Protected(after, b)
  {
  }

  lemma RanStep(before: seq<Job>, after: seq<Job>, n: nat, o: Options, archive: Archive, processed: nat, next: Job,
                grown: Archive)
    requires n < |before| && Ran(before, after, n, o, archive, processed) && OnlyAdds(archive, grown)
    requires if Due(before[n], o) && processed < MaxJobs(o) then Tried(before[n], next, o, grown) else next == before[n]
    ensures Ran(before, after[n := next], n + 1, o, grown,
                if Due(before[n], o) && processed < MaxJobs(o) then processed + 1 else processed)
  {
    DueStep(before, n, o);
    forall i | 0 <= i < |before|
      ensures if i < n + 1 && Taken(before, i, o) then Tried(before[i], after[n := next][i], o, grown)
              else after[n := next][i] == before[i]
    {
      if i < n && Taken(before, i, o) && after[i].status.Archived? {
        ProtectedStays(archive, grown, before[i].block);
      }
    }
  }

  function CountRemaining(jobs: seq<Job>): nat {
    if jobs == [] then 0
    else CountRemaining(jobs[..|jobs| - 1]) + (if jobs[|jobs| - 1].status.Archived? then 0 else 1)
  }

  method Remaining(jobs: seq<Job>) returns (n: nat)
    ensures n == CountRemaining(jobs) == |set i: nat | i < |jobs| && !jobs[i].status.Archived?|
  {
    n := 0;
    for i := 0 to |jobs|
      invariant n == CountRemaining(jobs[..i])
    {
      assert jobs[..i + 1][..i] == jobs[..i];
      if !jobs[i].status.Archived? {
        n := n + 1;
      }
    }
    assert jobs[..|jobs|] == jobs;
    RemainingIsCardinality(jobs, |jobs|);
  }

  lemma {:induction false} RemainingIsCardinality(jobs: seq<Job>, n: nat)
    requires n <= |jobs|
    ensures CountRemaining(jobs[..n]) == |set i: nat | i < n && !jobs[i].status.Archived?|
  {
    var open := set i: nat | i < n && !jobs[i].status.Archived?;
    if n == 0 {
      assert open == {};
    } else {
      RemainingIsCardinality(jobs, n - 1);
      var before := set i: nat | i < n - 1 && !jobs[i].status.Archived?;
      assert jobs[..n][..n - 1] == jobs[..n - 1];
      if jobs[n - 1].status.Archived? {
        assert open == before;
      } else {
        assert open == before + {n - 1};
      }
    }
  }

  class Worker {
    var jobs: seq<Job>
    var archive: Archive

    /** Tries one due job: its block is archived, or it is marked failed and put off. */
    method Try(job: Job, o: Options, sources: Sources, writes: bool) returns (after: Job, r: Archiving)
      requires Due(job, o)
      modifies this`archive
      ensures OnlyAdds(old(archive), archive) && Tried(job, after, o, archive)
      ensures after.status.Failed? <==> r.NotStored?
      ensures r.NotStored? ==>
                after == job.(status := Failed, attempts := job.attempts + 1,
                              nextAt := Some(o.now + if o.retryDelay <= 0 then 60 else o.retryDelay))
      ensures MustSucceed(job, o, sources, writes, old(archive)) <==> !r.NotStored?
      ensures r.Reused? ==> Protected(old(archive), job.block)
      ensures |archive| == |old(archive)| + if r.Stored? then 1 else 0
    {
      r := NotStored;
      if job.folder in o.roots {
        r, archive := ArchiveOneBlock(archive, CopiesOf(sources, job), job.block, writes);
      }
      after := if r.NotStored? then job.(status := Failed, attempts := job.attempts + 1,
                                         nextAt := Some(o.now + RetryDelay(o)))
               else job.(status := Archived, attempts := job.attempts + 1, nextAt := None);
    }

    /** One run over all jobs. The new job list reaches the store snapshot by snapshot, until a save fails. A job
        that is taken and must succeed does; every block archived is a new one. */
    method RunOnce(o: Options, sources: Sources, writes: nat -> bool, saved: Id -> bool)
      returns (r: Tally, ghost work: seq<Job>)
      modifies this
      ensures |work| == |old(jobs)| && SavedFor(old(jobs), work, jobs, saved)
      ensures r.processed == r.archived + r.reused + r.failed <= MaxJobs(o)
      ensures OnlyAdds(old(archive), archive) && |archive| == |old(archive)| + r.archived
      ensures r.failed == NewlyFailed(old(jobs), work, |work|)
      ensures o.roots != {} ==> Ran(old(jobs), work, |work|, o, archive, r.processed)
      ensures o.roots != {} && (forall i :: 0 <= i < |old(jobs)| ==> saved(old(jobs)[i].snapshot)) ==>
                r.remaining == CountRemaining(work) && jobs == work
      ensures o.roots != {} && (exists i :: 0 <= i < |old(jobs)| && !saved(old(jobs)[i].snapshot)) ==>
                r.remaining == LeftAmong(old(jobs), |old(jobs)|, o)
      ensures o.roots != {} ==> RanSaved(old(jobs), jobs, o, archive, saved)
      ensures o.roots != {} ==> AllObliged(old(jobs), work, |work|, o, sources, writes, old(archive))
      ensures o.roots == {} ==> work == old(jobs) && archive == old(archive) && r.processed == 0
    {
      var list := jobs;
      r := Tally(0, 0, 0, 0, 0);
      if o.roots == {} {
        work := jobs;
        NothingFailed(jobs, |jobs|);
        return;
      }
      r, list := TryJobs(o, sources, writes);
      assert jobs[..|jobs|] == jobs;
      if forall i :: 0 <= i < |jobs| ==> saved(jobs[i].snapshot) {
        var remaining := Remaining(list);
        r := r.(remaining := remaining);
      }
      work := list;
      jobs := seq(|list|, i requires 0 <= i < |list| && |list| == |jobs| reads this =>
                    if saved(jobs[i].snapshot) then list[i] else jobs[i]);
    }

    method TryJobs(o: Options, sources: Sources, writes: nat -> bool) returns (r: Tally, work: seq<Job>)
      modifies this`archive
      ensures Trying(jobs, work, |jobs|, o, sources, writes, old(archive), archive, r)
    {
      work := jobs;
      r := Tally(0, 0, 0, 0, 0);
      RanStarts(jobs, o, archive);
      for i := 0 to |jobs|
        invariant Trying(jobs, work, i, o, sources, writes, old(archive), archive, r)
      {
        ghost var was := archive;
        if Due(work[i], o) && r.processed < MaxJobs(o) {
          var next, outcome := Try(work[i], o, sources, writes(i));
          TryingTries(jobs, work, i, o, sources, writes, old(archive), was, archive, r, next, outcome);
          r := Counted(r, outcome);
          work := work[i := next];
        } else {
          TryingSkips(jobs, work, i, o, sources, writes, old(archive), archive, r);
          if !work[i].status.Archived? {
            r := r.(remaining := r.remaining + 1);
          }
        }
      }
    }
  }

  function Counted(r: Tally, outcome: Archiving): Tally {
    match outcome
    case Reused => r.(processed := r.processed + 1, reused := r.reused + 1)
    case Stored => r.(processed := r.processed + 1, archived := r.archived + 1)
    case NotStored => r.(processed := r.processed + 1, failed := r.failed + 1)
  }

  /** What a run has done when it has been through the first `n` jobs. */
  ghost predicate Trying(before: seq<Job>, work: seq<Job>, n: nat, o: Options, sources: Sources, writes: nat -> bool,
                         first: Archive, now: Archive, r: Tally)
  {
    && n <= |before| == |work| && Ran(before, work, n, o, now, r.processed)
    && r.processed == r.archived + r.reused + r.failed && r.failed == NewlyFailed(before, work, n)
    && r.remaining == LeftAmong(before, n, o)
    && OnlyAdds(first, now) && |now| == |first| + r.archived
    && AllObliged(before, work, n, o, sources, writes, first)
  }

  lemma TryingSkips(before: seq<Job>, work: seq<Job>, n: nat, o: Options, sources: Sources, writes: nat -> bool,
                    first: Archive, now: Archive, r: Tally)
    requires Trying(before, work, n, o, sources, writes, first, now, r) && n < |before|
    requires !Due(work[n], o) || r.processed >= MaxJobs(o)
    ensures Trying(before, work, n + 1, o, sources, writes, first, now,
                   r.(remaining := r.remaining + if work[n].status.Archived? then 0 else 1))
  {
    DueStep(before, n, o);
  }

  lemma TryingTries(before: seq<Job>, work: seq<Job>, n: nat, o: Options, sources: Sources, writes: nat -> bool,
                    first: Archive, was: Archive, now: Archive, r: Tally, next: Job, outcome: Archiving)
    requires Trying(before, work, n, o, sources, writes, first, was, r) && n < |before|
    requires Due(work[n], o) && r.processed < MaxJobs(o) && OnlyAdds(was, now) && Tried(work[n], next, o, now)
    requires (next.status.Failed? <==> outcome.NotStored?) && |now| == |was| + if outcome.Stored? then 1 else 0
    requires MustSucceed(work[n], o, sources, writes(n), was) <==> !outcome.NotStored?
    ensures Trying(before, work[n := next], n + 1, o, sources, writes, first, now, Counted(r, outcome))
  {
    assert work[n] == before[n];
    RanStep(before, work, n, o, was, r.processed, next, now);
    SameFailed(before, work, work[n := next], n);
    if MustSucceed(before[n], o, sources, writes(n), first) {
      MustSucceedLater(before[n], o, sources, writes(n), first, was);
    }
  }

  lemma {:induction false} NothingFailed(jobs: seq<Job>, n: nat)
    requires n <= |jobs|
    ensures NewlyFailed(jobs, jobs, n) == 0
  {
    if n > 0 {
      NothingFailed(jobs, n - 1);
    }
  }

  // ---------------------------------------------------------------- many runs

  /** A run whose job lists were saved for some snapshots. */
  ghost predicate RanSaved(before: seq<Job>, after: seq<Job>, o: Options, archive: Archive, saved: Id -> bool) {
    && |after| == |before|
    && forall i :: 0 <= i < |before| ==>
         if Taken(before, i, o) && saved(before[i].snapshot) then Tried(before[i], after[i], o, archive)
         else after[i] == before[i]
  }

  /** How many of the first `n` jobs a run takes and saves. */
  function KeptAmong(jobs: seq<Job>, n: nat, o: Options, saved: Id -> bool): nat
    requires n <= |jobs|
  {
    if n == 0 then 0
    else KeptAmong(jobs, n - 1, o, saved) + (if Taken(jobs, n - 1, o) && saved(jobs[n - 1].snapshot) then 1 else 0)
  }

  /** How many of the first `n` jobs a run takes and fails to save. */
  function LostAmong(jobs: seq<Job>, n: nat, o: Options, saved: Id -> bool): nat
    requires n <= |jobs|
  {
    if n == 0 then 0
    else LostAmong(jobs, n - 1, o, saved) + (if Taken(jobs, n - 1, o) && !saved(jobs[n - 1].snapshot) then 1 else 0)
  }

  /** The jobs that a run processes. */
  function Processed(jobs: seq<Job>, o: Options): nat {
    Min(DueAmong(jobs, o), MaxJobs(o))
  }

  /** Every job processed is either saved or lost. */
  lemma {:induction false} ProcessedIsKeptOrLost(jobs: seq<Job>, n: nat, o: Options, saved: Id -> bool)
    requires n <= |jobs|
    ensures Processed(jobs[..n], o) == KeptAmong(jobs, n, o, saved) + LostAmong(jobs, n, o, saved)
    ensures (forall i :: 0 <= i < |jobs| ==> saved(jobs[i].snapshot)) ==> LostAmong(jobs, n, o, saved) == 0
  {
    if n > 0 {
      ProcessedIsKeptOrLost(jobs, n - 1, o, saved);
      DueStep(jobs, n - 1, o);
    }
  }

  lemma {:induction false} UnusedShrinks(before: seq<Job>, after: seq<Job>, n: nat, o: Options, archive: Archive,
                                         saved: Id -> bool, limit: nat)
    requires RanSaved(before, after, o, archive, saved) && n <= |before| && MaxAttempts(o) <= limit
    ensures Unused(after[..n], limit) + KeptAmong(before, n, o, saved) <= Unused(before[..n], limit)
  {
    if n > 0 {
      UnusedShrinks(before, after, n - 1, o, archive, saved, limit);
      assert after[..n][..n - 1] == after[..n - 1] && before[..n][..n - 1] == before[..n - 1];
    }
  }

  /** A run uses up an attempt for every job it processes and saves, and leaves archived jobs alone. */
  lemma RunUsesAttempts(before: seq<Job>, after: seq<Job>, o: Options, archive: Archive, saved: Id -> bool, limit: nat)
    requires RanSaved(before, after, o, archive, saved) && MaxAttempts(o) <= limit
    ensures Unused(after, limit) + KeptAmong(before, |before|, o, saved) <= Unused(before, limit)
    ensures forall i :: 0 <= i < |before| && before[i].status.Archived? ==> after[i] == before[i]
  {
    UnusedShrinks(before, after, |before|, o, archive, saved, limit);
    assert before[..|before|] == before && after[..|after|] == after;
  }

  /** A job that failed is not tried again before its delay is over. */
  lemma NoRetryTooSoon(before: seq<Job>, after: seq<Job>, o: Options, archive: Archive, saved: Id -> bool, i: nat,
                       next: Options)
    requires RanSaved(before, after, o, archive, saved) && i < |before| && Taken(before, i, o)
    requires saved(before[i].snapshot) && after[i].status.Failed? && Taken(after, i, next)
    ensures next.now >= o.now + if o.retryDelay <= 0 then 60 else o.retryDelay
  {
  }

  datatype RunRecord = RunRecord(options: Options, archive: Archive, saved: Id -> bool)

  ghost predicate History(states: seq<seq<Job>>, runs: seq<RunRecord>) {
    && |states| == |runs| + 1
    && forall i :: 0 <= i < |runs| ==>
         RanSaved(states[i], states[i + 1], runs[i].options, runs[i].archive, runs[i].saved)
  }

  /** The jobs that the first `n` runs processed and saved. */
  ghost function TotalKept(states: seq<seq<Job>>, runs: seq<RunRecord>, n: nat): nat
    requires n <= |runs| < |states|
  {
    if n == 0 then 0
    else TotalKept(states, runs, n - 1) +
         KeptAmong(states[n - 1], |states[n - 1]|, runs[n - 1].options, runs[n - 1].saved)
  }

  /** Over any sequence of runs, the jobs processed and saved in all are no more than the attempts that were
      unused at first under the largest limit of any run. */
  lemma {:induction false} TotalIsBounded(states: seq<seq<Job>>, runs: seq<RunRecord>, n: nat, limit: nat)
    requires History(states, runs) && n <= |runs|
    requires forall i :: 0 <= i < |runs| ==> MaxAttempts(runs[i].options) <= limit
    ensures TotalKept(states, runs, n) + Unused(states[n], limit) <= Unused(states[0], limit)
  {
    if n > 0 {
      TotalIsBounded(states, runs, n - 1, limit);
      var run := runs[n - 1];
      RunUsesAttempts(states[n - 1], states[n - 1 + 1], run.options, run.archive, run.saved, limit);
    }
  }

  /** The jobs that the first `n` runs processed. */
  ghost function TotalProcessed(states: seq<seq<Job>>, runs: seq<RunRecord>, n: nat): nat
    requires n <= |runs| < |states|
  {
    if n == 0 then 0 else TotalProcessed(states, runs, n - 1) + Processed(states[n - 1], runs[n - 1].options)
  }

  /** The jobs that the first `n` runs processed without saving the result. */
  ghost function TotalLost(states: seq<seq<Job>>, runs: seq<RunRecord>, n: nat): nat
    requires n <= |runs| < |states|
  {
    if n == 0 then 0
    else TotalLost(states, runs, n - 1) +
         LostAmong(states[n - 1], |states[n - 1]|, runs[n - 1].options, runs[n - 1].saved)
  }

  /** Every save of the first `n` runs worked. */
  ghost predicate AllSaved(states: seq<seq<Job>>, runs: seq<RunRecord>, n: nat)
    requires n <= |runs| < |states|
  {
    forall i, k :: 0 <= i < n && 0 <= k < |states[i]| ==> runs[i].saved(states[i][k].snapshot)
  }

  lemma {:induction false} TotalsAddUp(states: seq<seq<Job>>, runs: seq<RunRecord>, n: nat)
    requires n <= |runs| < |states|
    ensures TotalProcessed(states, runs, n) == TotalKept(states, runs, n) + TotalLost(states, runs, n)
    ensures AllSaved(states, runs, n) ==> TotalLost(states, runs, n) == 0
  {
    if n > 0 {
      TotalsAddUp(states, runs, n - 1);
      var jobs, run := states[n - 1], runs[n - 1];
      ProcessedIsKeptOrLost(jobs, |jobs|, run.options, run.saved);
      assert jobs[..|jobs|] == jobs;
    }
  }

  /** Over any sequence of runs, the jobs processed in all are no more than the attempts that were unused at
      first and those whose save failed; if every save works, no more than the attempts. */
  lemma ProcessedIsBounded(states: seq<seq<Job>>, runs: seq<RunRecord>, n: nat, limit: nat)
    requires History(states, runs) && n <= |runs|
    requires forall i :: 0 <= i < |runs| ==> MaxAttempts(runs[i].options) <= limit
    ensures TotalProcessed(states, runs, n) + Unused(states[n], limit) <=
            Unused(states[0], limit) + TotalLost(states, runs, n)
    ensures AllSaved(states, runs, n) ==> TotalProcessed(states, runs, n) <= Unused(states[0], limit)
  {
    TotalIsBounded(states, runs, n, limit);
    TotalsAddUp(states, runs, n);
  }

  /** Without saves nothing bounds the work: one job with one attempt left is processed in every run. */
  lemma {:induction false} LostSavesProcessForever(job: Job, states: seq<seq<Job>>, runs: seq<RunRecord>, n: nat)
    requires |states| == |runs| + 1 && n <= |runs| && job.status.Pending? && job.attempts == 0
    requires forall i :: 0 <= i < |states| ==> states[i] == [job]
    requires forall i :: 0 <= i < |runs| ==> runs[i].options.maxAttempts == 1 && !runs[i].saved(job.snapshot)
    ensures History(states, runs) && Unused(states[0], 1) == 1 && TotalProcessed(states, runs, n) == n
  {
    assert states[0] == [job] && [job][..0] == [];
    assert forall i :: 0 <= i < |runs| ==> MaxAttempts(runs[i].options) == 1;
    if n > 0 {
      LostSavesProcessForever(job, states, runs, n - 1);
      DueStep([job], 0, runs[n - 1].options);
      assert states[n - 1] == [job][..1] && MaxAttempts(runs[n - 1].options) == 1;
    }
  }

  /** A job once archived is never touched again. */
  lemma {:induction false} ArchivedIsFinal(states: seq<seq<Job>>, runs: seq<RunRecord>, i: nat, j: nat, k: nat)
    requires History(states, runs) && i <= j <= |runs| && k < |states[i]| && states[i][k].status.Archived?
    ensures |states[j]| == |states[i]| && states[j][k] == states[i][k]
  {
    if i < j {
      ArchivedIsFinal(states, runs, i, j - 1, k);
      var run := runs[j - 1];
      assert RanSaved(states[j - 1], states[j - 1 + 1], run.options, run.archive, run.saved);
    }
  }
}
