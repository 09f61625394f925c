/** Pruning of files retained for the backup once the archive holds what they were retained for. */
module Prune {
  import opened Outcomes
  import opened Bytes
  import opened ArchiveBlocks
  import opened Manifests
  import opened Intake
  import Scrub

  /** A file under a folder's intake directory, in the order of a walk, which is the order of its stamp
      and path. A stamp that does not parse, and a file outside a stamped directory, are kept. */
  datatype Item = Item(stamp: Option<int>, path: Option<Path>, data: Data)

  /** Some job is for this path, and the archive holds the block of every such job. */
  predicate FullyProtected(jobs: seq<Job>, archive: Archive, path: Path) {
    && (exists i :: 0 <= i < |jobs| && jobs[i].path == path)
    && forall i :: 0 <= i < |jobs| && jobs[i].path == path ==> Scrub.Sound(jobs[i], archive)
  }

  predicate Prunable(item: Item, jobs: seq<Job>, archive: Archive, now: int, minAge: int) {
    && item.path.Some? && item.stamp.Some? && now - item.stamp.value >= minAge
    && FullyProtected(jobs, archive, item.path.value)
  }

  /** A stamped file at least this old, for a path that some job is for, all of whose jobs are archived with a
      block that is there and intact. */
  predicate Expendable(item: Item, jobs: seq<Job>, archive: Archive, now: int, minAge: int) {
    && item.stamp.Some? && item.stamp.value + minAge <= now && item.path.Some?
    && (exists i :: 0 <= i < |jobs| && jobs[i].path == item.path.value)
    && forall i :: 0 <= i < |jobs| && jobs[i].path == item.path.value ==>
         && jobs[i].status.Archived? && jobs[i].block.hash in archive
         && |archive[jobs[i].block.hash]| == jobs[i].block.size
         && Sha256(archive[jobs[i].block.hash]) == jobs[i].block.hash
  }

  lemma PrunableIsExpendable(item: Item, jobs: seq<Job>, archive: Archive, now: int, minAge: int)
    ensures Prunable(item, jobs, archive, now, minAge) <==> Expendable(item, jobs, archive, now, minAge)
  {
    if Expendable(item, jobs, archive, now, minAge) {
      forall i | 0 <= i < |jobs| && jobs[i].path == item.path.value ensures Scrub.Sound(jobs[i], archive) {
      }
    }
    if Prunable(item, jobs, archive, now, minAge) {
      forall i | 0 <= i < |jobs| && jobs[i].path == item.path.value
        ensures jobs[i].status.Archived? && Protected(archive, jobs[i].block)
      {
        assert Scrub.Sound(jobs[i], archive);
      }
    }
  }

  lemma {:induction false} LeftElements(items: seq<Item>, n: nat, jobs: seq<Job>, archive: Archive, now: int,
                                        minAge: int)
    requires n <= |items|
    ensures forall item :: item in Left(items, n, jobs, archive, now, minAge) <==>
              item in items[..n] && !Expendable(item, jobs, archive, now, minAge)
  {
    if n > 0 {
      LeftElements(items, n - 1, jobs, archive, now, minAge);
      PrunableIsExpendable(items[n - 1], jobs, archive, now, minAge);
      assert items[..n] == items[..n - 1] + [items[n - 1]];
    }
  }

  method IsFullyProtected(jobs: seq<Job>, archive: Archive, path: Path) returns (ok: bool)
    ensures ok <==> FullyProtected(jobs, archive, path)
  {
    var found := false;
    for i := 0 to |jobs|
      invariant found <==> exists k :: 0 <= k < i && jobs[k].path == path
      invariant forall k :: 0 <= k < i && jobs[k].path == path ==> Scrub.Sound(jobs[k], archive)
    {
      if jobs[i].path == path {
        if !jobs[i].status.Archived? || !Protected(archive, jobs[i].block) {
          return false;
        }
        found := true;
      }
    }
    ok := found;
  }

  /** The items a walk leaves of the first `n`. */
  function Left(items: seq<Item>, n: nat, jobs: seq<Job>, archive: Archive, now: int, minAge: int): seq<Item>
    requires n <= |items|
  {
    if n == 0 then []
    else Left(items, n - 1, jobs, archive, now, minAge) +
         (if Prunable(items[n - 1], jobs, archive, now, minAge) then [] else [items[n - 1]])
  }

  datatype Pruned = Pruned(scanned: nat, kept: nat, deleted: nat, ok: bool)

  /** Removes what is old enough and fully protected; a removal that fails stops the walk. */
  method PruneFiles(items: seq<Item>, jobs: seq<Job>, archive: Archive, now: int, minAge: int, removes: nat -> bool)
    returns (r: Pruned, after: seq<Item>, ghost walked: nat)
    ensures walked <= |items| && after == Left(items, walked, jobs, archive, now, minAge) + items[walked..]
    ensures r.kept + r.deleted == walked && r.kept == |Left(items, walked, jobs, archive, now, minAge)|
    ensures r.ok <==> forall i :: 0 <= i < |items| && Prunable(items[i], jobs, archive, now, minAge) ==> removes(i)
    ensures r.ok ==> walked == |items|
    ensures !r.ok ==>
              walked < |items| && Prunable(items[walked], jobs, archive, now, minAge) && !removes(walked)
    ensures forall i :: 0 <= i < walked && Prunable(items[i], jobs, archive, now, minAge) ==> removes(i)
    ensures forall item :: item in items && item !in after ==> Expendable(item, jobs, archive, now, minAge)
    ensures r.ok ==> forall item :: item in after ==> item in items && !Expendable(item, jobs, archive, now, minAge)
  {
    after, walked := [], 0;
    var kept, deleted := 0, 0;
    for i := 0 to |items|
      invariant walked == i && after == Left(items, i, jobs, archive, now, minAge) && kept == |after| &&
                kept + deleted == i
      invariant forall k :: 0 <= k < i && Prunable(items[k], jobs, archive, now, minAge) ==> removes(k)
    {
      var item := items[i];
      var prunable := false;
      if item.path.Some? && item.stamp.Some? && now - item.stamp.value >= minAge {
        prunable := IsFullyProtected(jobs, archive, item.path.value);
      }
      if prunable {
        if !removes(i) {
          LeftElements(items, i, jobs, archive, now, minAge);
          assert items == items[..i] + items[i..];
          return Pruned(i + 1, kept, deleted, false), after + items[i..], walked;
        }
        deleted := deleted + 1;
      } else {
        after, kept := after + [item], kept + 1;
      }
      walked := i + 1;
    }
    assert after == after + items[|items|..];
    LeftElements(items, |items|, jobs, archive, now, minAge);
    assert items[..|items|] == items;
    r := Pruned(|items|, kept, deleted, true);
  }

  /** The retained copies of a path, newest first. */
  function Candidates(items: seq<Item>, path: Path): seq<Data> {
    if items == [] then []
    else (if items[|items| - 1].path == Some(path) then [items[|items| - 1].data] else []) +
         Candidates(items[..|items| - 1], path)
  }

  lemma {:induction false} CandidatesOfSum(a: seq<Item>, b: seq<Item>, path: Path)
    ensures Candidates(a + b, path) == Candidates(b, path) + Candidates(a, path)
  {
    if b == [] {
      assert a + b == a;
    } else {
      var n := |b| - 1;
      CandidatesOfSum(a, b[..n], path);
      assert (a + b)[..|a + b| - 1] == a + b[..n];
    }
  }

  lemma {:induction false} LeftKeepsCandidates(items: seq<Item>, n: nat, jobs: seq<Job>, archive: Archive, now: int,
                                               minAge: int, path: Path)
    requires n <= |items| && !FullyProtected(jobs, archive, path)
    ensures Candidates(Left(items, n, jobs, archive, now, minAge), path) == Candidates(items[..n], path)
  {
    if n > 0 {
      LeftKeepsCandidates(items, n - 1, jobs, archive, now, minAge, path);
      var before, item := Left(items, n - 1, jobs, archive, now, minAge), items[n - 1];
      assert items[..n][..n - 1] == items[..n - 1] && items[..n][n - 1] == item;
      if Prunable(item, jobs, archive, now, minAge) {
        assert before + [] == before;
      } else {
        assert (before + [item])[..|before|] == before;
      }
    }
  }

  /** For every job whose block is not safe in the archive, reading the block from the live file or a
      retained copy gives the same after a prune as before, even one that stops halfway. */
  lemma PruneKeepsWhatJobsNeed(items: seq<Item>, n: nat, jobs: seq<Job>, archive: Archive, now: int, minAge: int,
                               live: Option<Data>, k: nat)
    requires n <= |items| && k < |jobs| && !Scrub.Sound(jobs[k], archive)
    ensures var after := Left(items, n, jobs, archive, now, minAge) + items[n..];
            ReadBlock(Copies(live, Candidates(after, jobs[k].path)), jobs[k].block)
            == ReadBlock(Copies(live, Candidates(items, jobs[k].path)), jobs[k].block)
  {
    var path := jobs[k].path;
    LeftKeepsCandidates(items, n, jobs, archive, now, minAge, path);
    CandidatesOfSum(Left(items, n, jobs, archive, now, minAge), items[n..], path);
    CandidatesOfSum(items[..n], items[n..], path);
    assert items == items[..n] + items[n..];
  }
}
