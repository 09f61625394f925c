/** What an attempt to download achieves: which blocks it asks for, which it keeps, and when it finishes. */
module DownloadProgress {
  import opened Bytes
  import opened Blocks
  import opened Download
  import opened DownloadTheorems

  /** The block arrives with its hash. */
  predicate Arrives(entry: Entry, env: Env, i: nat)
    requires i < |entry.blocks| == |env.arrivals|
  {
    env.arrivals[i].Arrived? && Sha256(env.arrivals[i].bytes) == entry.blocks[i].hash
  }

  /** It also is written, and the record of it is saved. */
  predicate Succeeds(entry: Entry, env: Env, i: nat)
    requires i < |entry.blocks| == |env.arrivals|
  {
    Arrives(entry, env, i) && env.arrivals[i].write.Written? && env.arrivals[i].save.SavedOk?
  }

  /** The attempt ends at this block: the process dies while it is written or recorded, or it is not recorded. */
  predicate Stops(entry: Entry, env: Env, i: nat)
    requires i < |entry.blocks| == |env.arrivals|
  {
    && Arrives(entry, env, i)
    && (env.arrivals[i].write.WriteDies? || (env.arrivals[i].write.Written? && !env.arrivals[i].save.SavedOk?))
  }

  /** From block `k` on, nothing before block `i` ends the attempt. */
  ghost predicate GetsTo(entry: Entry, env: Env, k: nat, i: nat, have: set<nat>)
    requires i <= |entry.blocks| == |env.arrivals|
  {
    forall j :: k <= j < i && j !in have ==> !Stops(entry, env, j)
  }

  // ---------------------------------------------------------------- what is asked for

  lemma {:induction false} FetchingAsks(entry: Entry, k: nat, tmp: Data, state: State, have: set<nat>, failed: bool,
                                        env: Env, i: nat)
    requires k <= |entry.blocks| == |env.arrivals|
    ensures i in Fetching(entry, k, tmp, state, have, failed, env).fetched <==>
              k <= i < |entry.blocks| && i !in have && GetsTo(entry, env, k, i, have)
    decreases |entry.blocks| - k
  {
    if k < |entry.blocks| {
      var block, arrival := entry.blocks[k], env.arrivals[k];
      if k in have {
        FetchingAsks(entry, k + 1, tmp, state, have, failed, env, i);
      } else if !Arrives(entry, env, k) {
        FetchingAsks(entry, k + 1, tmp, state, have, true, env, i);
      } else if arrival.write.WriteFails? {
        FetchingAsks(entry, k + 1, Torn(tmp, block, arrival.bytes, arrival.write.junk), state, have, true, env, i);
      } else if Succeeds(entry, env, k) {
        var next := WriteAt(tmp, block.offset, arrival.bytes);
        FetchingAsks(entry, k + 1, next, Record(entry, have + {k}), have + {k}, failed, env, i);
      } else {
        assert Stops(entry, env, k);
      }
    }
  }

  /** An attempt asks for exactly the unconfirmed blocks up to the one that ends it. */
  lemma AsksExactlyFor(entry: Entry, disk: Disk, env: Env, i: nat)
    requires Possible(entry, env) && entry.size > 0 && ValidEntry(entry) && env.opens
    ensures i in Downloaded(entry, disk, env).fetched <==>
              i < |entry.blocks| && i !in Have(disk, entry) && GetsTo(entry, env, 0, i, Have(disk, entry))
  {
    var have := Have(disk, entry);
    var ready := Opened(Loaded(disk, entry), have);
    FetchingAsks(entry, 0, ready.tmp.value, ready.state, have, false, env, i);
  }

  // ---------------------------------------------------------------- what is kept

  lemma WrittenIsHeld(entry: Entry, tmp: Data, have: set<nat>, bytes: Data, i: nat)
    requires ValidEntry(entry) && i < |entry.blocks| && Sha256(bytes) == entry.blocks[i].hash
    requires |bytes| == entry.blocks[i].size
    ensures Held(entry, WriteAt(tmp, entry.blocks[i].offset, bytes), Record(entry, have + {i}), {i})
  {
    WriteAddsBlock(entry, tmp, {}, i, bytes);
    assert {} + {i} == {i};
  }

  lemma {:induction false} FetchingSaves(entry: Entry, k: nat, tmp: Data, state: State, have: set<nat>, failed: bool,
                                         env: Env, i: nat)
    requires ValidEntry(entry) && WellSized(entry.blocks) && Possible(entry, env) && k <= i < |entry.blocks|
    requires i !in have && GetsTo(entry, env, k, i, have) && Succeeds(entry, env, i)
    ensures var a := Fetching(entry, k, tmp, state, have, failed, env);
            a.outcome.HandedOver? || i in Have(a.disk, entry)
    decreases |entry.blocks| - k
  {
    var block, arrival := entry.blocks[k], env.arrivals[k];
    if k == i {
      var next, more := WriteAt(tmp, block.offset, arrival.bytes), have + {i};
      WrittenIsHeld(entry, tmp, have, arrival.bytes, i);
      FetchingConfirms(entry, i + 1, next, Record(entry, more), {i}, more, failed, env);
    } else if k in have {
      FetchingSaves(entry, k + 1, tmp, state, have, failed, env, i);
    } else if !Arrives(entry, env, k) {
      FetchingSaves(entry, k + 1, tmp, state, have, true, env, i);
    } else {
      assert !Stops(entry, env, k);
      if arrival.write.WriteFails? {
        FetchingSaves(entry, k + 1, Torn(tmp, block, arrival.bytes, arrival.write.junk), state, have, true, env, i);
      } else {
        var next := WriteAt(tmp, block.offset, arrival.bytes);
        FetchingSaves(entry, k + 1, next, Record(entry, have + {k}), have + {k}, failed, env, i);
      }
    }
  }

  lemma ValidIsNotEmpty(entry: Entry)
    requires ValidEntry(entry)
    ensures entry.size > 0
  {
    SizesArePositive(entry);
    assert BlockOk(entry, 0) && Start(entry.blocks, 1) == entry.blocks[0].size;
    if |entry.blocks| > 1 {
      StartsAscend(entry.blocks, 1, |entry.blocks|);
    }
  }

  /** An attempt that does not get to hand the file over leaves confirmed what was, and every block that it
      reached and that arrived with its hash, was written and was recorded. */
  lemma SavedBlockIsConfirmed(entry: Entry, disk: Disk, env: Env, i: nat)
    requires Possible(entry, env) && ValidEntry(entry) && WellSized(entry.blocks) && i < |entry.blocks| && env.opens
    requires i in Have(disk, entry) || (GetsTo(entry, env, 0, i, Have(disk, entry)) && Succeeds(entry, env, i))
    ensures var a := Downloaded(entry, disk, env); a.outcome.HandedOver? || i in Have(a.disk, entry)
  {
    var have := Have(disk, entry);
    if i in have {
      ConfirmedBlocksAreKept(entry, disk, env);
    } else {
      ValidIsNotEmpty(entry);
      var ready := Opened(Loaded(disk, entry), have);
      FetchingSaves(entry, 0, ready.tmp.value, ready.state, have, false, env, i);
    }
  }

  /** Between attempts on one entry, a block that was fetched, written and recorded is never asked for again. */
  lemma SavedBlockIsNotFetchedAgain(entry: Entry, disks: seq<Disk>, envs: seq<Env>, k: nat, i: nat, j: nat)
    requires Attempts(entry, disks, envs) && k < j < |envs| && ValidEntry(entry) && WellSized(entry.blocks)
    requires i < |entry.blocks| && envs[k].opens && i in Downloaded(entry, disks[k], envs[k]).fetched
    requires Succeeds(entry, envs[k], i)
    ensures i in Have(disks[j], entry) && i !in Downloaded(entry, disks[j], envs[j]).fetched
  {
    var a := Downloaded(entry, disks[k], envs[k]);
    ValidIsNotEmpty(entry);
    AsksExactlyFor(entry, disks[k], envs[k], i);
    SavedBlockIsConfirmed(entry, disks[k], envs[k], i);
    assert disks[k + 1] == a.disk;
    NothingIsFetchedTwice(entry, disks, envs, k + 1, j);
  }

  // ---------------------------------------------------------------- when the file is handed over

  lemma {:induction false} FetchingHandsOver(entry: Entry, k: nat, tmp: Data, state: State, have: set<nat>,
                                             failed: bool, env: Env)
    requires k <= |entry.blocks| == |env.arrivals|
    ensures Fetching(entry, k, tmp, state, have, failed, env).outcome.HandedOver? <==>
              !failed && forall i :: k <= i < |entry.blocks| && i !in have ==> Succeeds(entry, env, i)
    decreases |entry.blocks| - k
  {
    if k < |entry.blocks| {
      var block, arrival := entry.blocks[k], env.arrivals[k];
      if k in have {
        FetchingHandsOver(entry, k + 1, tmp, state, have, failed, env);
      } else if !Arrives(entry, env, k) {
        FetchingHandsOver(entry, k + 1, tmp, state, have, true, env);
      } else if arrival.write.WriteFails? {
        FetchingHandsOver(entry, k + 1, Torn(tmp, block, arrival.bytes, arrival.write.junk), state, have, true, env);
      } else if Succeeds(entry, env, k) {
        var next := WriteAt(tmp, block.offset, arrival.bytes);
        FetchingHandsOver(entry, k + 1, next, Record(entry, have + {k}), have + {k}, failed, env);
      }
    }
  }

  /** An attempt hands the file over exactly if the file is empty, or its block list is sound, its staging file
      opens, and every unconfirmed block arrives with its hash, is written and is recorded. */
  lemma HandsOverExactlyWhen(entry: Entry, disk: Disk, env: Env)
    requires Possible(entry, env)
    ensures Downloaded(entry, disk, env).outcome.HandedOver? <==>
              || entry.size == 0
              || (&& entry.size > 0 && ValidEntry(entry) && env.opens
                  && forall i :: 0 <= i < |entry.blocks| && i !in Have(disk, entry) ==> Succeeds(entry, env, i))
  {
    if entry.size > 0 && ValidEntry(entry) && env.opens {
      var have := Have(disk, entry);
      var ready := Opened(Loaded(disk, entry), have);
      FetchingHandsOver(entry, 0, ready.tmp.value, ready.state, have, false, env);
    }
  }
}
