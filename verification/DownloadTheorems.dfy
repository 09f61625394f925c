/** What every sequence of download attempts guarantees about the file it hands over. */
module DownloadTheorems {
  import opened Outcomes
  import opened Bytes
  import opened Blocks
  import opened Download

  // ---------------------------------------------------------------- bytes in place

  /** Every block in `have` is in place in the staging file. */
  ghost predicate InPlace(entry: Entry, tmp: Data, have: set<nat>) {
    forall k: nat :: k in have ==> k < |entry.blocks| && Verifies(tmp, entry.blocks[k])
  }

  lemma SizesArePositive(entry: Entry)
    requires ValidEntry(entry)
    ensures NonEmpty(entry.blocks)
  {
    forall i | 0 <= i < |entry.blocks| ensures entry.blocks[i].size > 0 {
      assert BlockOk(entry, i);
    }
  }

  /** A write in one block's range, of whatever bytes, leaves the other blocks in place and the file no
      longer than the blocks cover. */
  lemma WriteStaysInRange(entry: Entry, tmp: Data, have: set<nat>, i: nat, bytes: Data)
    requires ValidEntry(entry) && InPlace(entry, tmp, have) && i < |entry.blocks| && i !in have &&
             |bytes| <= entry.blocks[i].size
    ensures InPlace(entry, WriteAt(tmp, entry.blocks[i].offset, bytes), have)
    ensures |tmp| <= entry.size ==> |WriteAt(tmp, entry.blocks[i].offset, bytes)| <= entry.size
    ensures |WriteAt(tmp, entry.blocks[i].offset, bytes)| >= |tmp|
  {
    var blocks := entry.blocks;
    assert Placed(blocks, i);
    StartsAscend(blocks, i, |blocks|);
    forall k: nat | k in have ensures Verifies(WriteAt(tmp, blocks[i].offset, bytes), blocks[k]) {
      assert Placed(blocks, k);
      if k < i {
        StartsAscend(blocks, k, i);
      } else {
        StartsAscend(blocks, i, k);
      }
      OtherPart(tmp, blocks[i].offset, bytes, blocks[k].offset, blocks[k].size);
    }
  }

  lemma WriteAddsBlock(entry: Entry, tmp: Data, have: set<nat>, i: nat, bytes: Data)
    requires ValidEntry(entry) && InPlace(entry, tmp, have) && i < |entry.blocks| && i !in have
    requires Sha256(bytes) == entry.blocks[i].hash && |bytes| == entry.blocks[i].size
    ensures InPlace(entry, WriteAt(tmp, entry.blocks[i].offset, bytes), have + {i})
  {
    WriteStaysInRange(entry, tmp, have, i, bytes);
    SizesArePositive(entry);
    WrittenPart(tmp, entry.blocks[i].offset, bytes);
  }

  /** What holds of an attempt's end, whatever arrives, when every hash is of as many bytes as its block has. */
  ghost predicate EndsWell(entry: Entry, limit: bool, a: Attempt) {
    && (a.outcome.HandedOver? ==> AllVerify(a.outcome.file, entry.blocks))
    && (a.outcome.HandedOver? && limit ==> |a.outcome.file| <= entry.size)
  }

  lemma {:induction false} FetchingEndsWell(entry: Entry, i: nat, tmp: Data, state: State, have: set<nat>,
                                            failed: bool, env: Env)
    requires ValidEntry(entry) && WellSized(entry.blocks) && Possible(entry, env) && i <= |entry.blocks|
    requires InPlace(entry, tmp, have) && (!failed ==> forall k: nat :: k < i ==> k in have)
    ensures EndsWell(entry, |tmp| <= entry.size, Fetching(entry, i, tmp, state, have, failed, env))
    decreases |entry.blocks| - i
  {
    if i < |entry.blocks| {
      if i in have {
        FetchingEndsWell(entry, i + 1, tmp, state, have, failed, env);
      } else {
        FetchOneEndsWell(entry, i, tmp, state, have, failed, env);
      }
    }
  }

  lemma {:induction false} FetchOneEndsWell(entry: Entry, i: nat, tmp: Data, state: State, have: set<nat>,
                                            failed: bool, env: Env)
    requires ValidEntry(entry) && WellSized(entry.blocks) && Possible(entry, env) && i < |entry.blocks| && i !in have
    requires InPlace(entry, tmp, have) && (!failed ==> forall k: nat :: k < i ==> k in have)
    ensures EndsWell(entry, |tmp| <= entry.size, FetchOne(entry, i, tmp, state, have, failed, env))
    decreases |entry.blocks| - i, 0
  {
    var block, arrival := entry.blocks[i], env.arrivals[i];
    if arrival.NoData? || Sha256(arrival.bytes) != block.hash {
      FetchingEndsWell(entry, i + 1, tmp, state, have, true, env);
    } else {
      match arrival.write
      case WriteFails(junk) =>
        WriteStaysInRange(entry, tmp, have, i, junk[..Min(|junk|, |arrival.bytes|)]);
        FetchingEndsWell(entry, i + 1, Torn(tmp, block, arrival.bytes, junk), state, have, true, env);
      case WriteDies(_) =>
      case Written =>
        WriteStaysInRange(entry, tmp, have, i, arrival.bytes);
        WriteAddsBlock(entry, tmp, have, i, arrival.bytes);
        if arrival.save.SavedOk? {
          FetchingEndsWell(entry, i + 1, WriteAt(tmp, block.offset, arrival.bytes), Record(entry, have + {i}),
                           have + {i}, failed, env);
        }
    }
  }

  // ---------------------------------------------------------------- length

  /** A recorded staging file is no longer than the file it is recorded for. */
  ghost predicate Fits(disk: Disk) {
    disk.state.Saved? ==> disk.state.size >= if disk.tmp.Some? then |disk.tmp.value| else 0
  }

  /** Whatever arrives, the staging file stays within the entry's size and its record within its file. */
  lemma {:induction false} FetchingFits(entry: Entry, i: nat, tmp: Data, state: State, have: set<nat>, failed: bool,
                                        env: Env)
    requires ValidEntry(entry) && Possible(entry, env) && i <= |entry.blocks| && |tmp| <= entry.size
    requires state.Saved? ==> state.size == entry.size
    ensures var a := Fetching(entry, i, tmp, state, have, failed, env);
            Fits(a.disk) && (a.outcome.HandedOver? ==> |a.outcome.file| <= entry.size)
    decreases |entry.blocks| - i, 1
  {
    if i < |entry.blocks| {
      if i in have {
        FetchingFits(entry, i + 1, tmp, state, have, failed, env);
      } else {
        FetchOneFits(entry, i, tmp, state, have, failed, env);
      }
    }
  }

  lemma {:induction false} FetchOneFits(entry: Entry, i: nat, tmp: Data, state: State, have: set<nat>, failed: bool,
                                        env: Env)
    requires ValidEntry(entry) && Possible(entry, env) && i < |entry.blocks| && |tmp| <= entry.size
    requires state.Saved? ==> state.size == entry.size
    ensures var a := FetchOne(entry, i, tmp, state, have, failed, env);
            Fits(a.disk) && (a.outcome.HandedOver? ==> |a.outcome.file| <= entry.size)
    decreases |entry.blocks| - i, 0
  {
    var block, arrival := entry.blocks[i], env.arrivals[i];
    if arrival.NoData? || Sha256(arrival.bytes) != block.hash {
      FetchingFits(entry, i + 1, tmp, state, have, true, env);
    } else {
      match arrival.write
      case WriteFails(junk) =>
        WriteStaysInRange(entry, tmp, {}, i, junk[..Min(|junk|, |arrival.bytes|)]);
        FetchingFits(entry, i + 1, Torn(tmp, block, arrival.bytes, junk), state, have, true, env);
      case WriteDies(junk) =>
        WriteStaysInRange(entry, tmp, {}, i, junk[..Min(|junk|, |arrival.bytes|)]);
      case Written =>
        WriteStaysInRange(entry, tmp, {}, i, arrival.bytes);
        if arrival.save.SavedOk? {
          FetchingFits(entry, i + 1, WriteAt(tmp, block.offset, arrival.bytes), Record(entry, have + {i}), have + {i},
                       failed, env);
        }
    }
  }

  lemma AttemptKeepsFits(entry: Entry, disk: Disk, env: Env)
    requires Possible(entry, env) && Fits(disk)
    ensures var a := Downloaded(entry, disk, env);
            Fits(a.disk) && (a.outcome.HandedOver? ==> |a.outcome.file| <= entry.size)
  {
    if entry.size > 0 && ValidEntry(entry) && env.opens {
      var loaded, have := Loaded(disk, entry), Have(disk, entry);
      var ready := Opened(loaded, have);
      FetchingFits(entry, 0, ready.tmp.value, ready.state, have, false, env);
    }
  }

  // ---------------------------------------------------------------- main results

  /** The file is exactly the entry's blocks, each verified, one after another. */
  ghost predicate Assembled(file: Data, entry: Entry) {
    |file| == entry.size && AllVerify(file, entry.blocks)
  }

  /** Some of the staging file is kept, and it is longer than the entry's file. */
  predicate Overlong(disk: Disk, entry: Entry) {
    Have(disk, entry) != {} && |disk.tmp.value| > entry.size
  }

  /** No write shortens the staging file. */
  lemma {:induction false} FetchingNeverShortens(entry: Entry, i: nat, tmp: Data, state: State, have: set<nat>,
                                                 failed: bool, env: Env)
    requires i <= |entry.blocks| == |env.arrivals|
    ensures var a := Fetching(entry, i, tmp, state, have, failed, env);
            a.outcome.HandedOver? ==> |a.outcome.file| >= |tmp|
    decreases |entry.blocks| - i
  {
    if i < |entry.blocks| {
      var block, arrival := entry.blocks[i], env.arrivals[i];
      if i in have {
        FetchingNeverShortens(entry, i + 1, tmp, state, have, failed, env);
      } else if arrival.NoData? || Sha256(arrival.bytes) != block.hash {
        FetchingNeverShortens(entry, i + 1, tmp, state, have, true, env);
      } else if arrival.write.WriteFails? {
        FetchingNeverShortens(entry, i + 1, Torn(tmp, block, arrival.bytes, arrival.write.junk), state, have, true,
                              env);
      } else if arrival.write.Written? && arrival.save.SavedOk? {
        var next := WriteAt(tmp, block.offset, arrival.bytes);
        FetchingNeverShortens(entry, i + 1, next, Record(entry, have + {i}), have + {i}, failed, env);
      }
    }
  }

  /** The file handed over is exactly the entry's verified blocks, if and only if every hash is of as many
      bytes as its block has and the attempt did not start with an overlong staging file. */
  lemma HandedOverFile(entry: Entry, disk: Disk, env: Env)
    requires Possible(entry, env) && entry.size > 0 && Downloaded(entry, disk, env).outcome.HandedOver?
    ensures var file := Downloaded(entry, disk, env).outcome.file;
            && (Assembled(file, entry) <==> WellSized(entry.blocks) && !Overlong(disk, entry))
            && (Assembled(file, entry) ==> file == Joined(entry.blocks))
  {
    var file := Downloaded(entry, disk, env).outcome.file;
    var have := Have(disk, entry);
    var ready := Opened(Loaded(disk, entry), have);
    FetchingNeverShortens(entry, 0, ready.tmp.value, ready.state, have, false, env);
    if WellSized(entry.blocks) {
      FetchingEndsWell(entry, 0, ready.tmp.value, ready.state, have, false, env);
      VerifiedPrefix(file, entry.blocks, |entry.blocks|);
    }
    if |file| == entry.size {
      VerifiedIsJoined(file, entry.blocks);
    }
  }

  /** A hash of fewer bytes than its block has is accepted: the short bytes pass block by block and are
      handed over. */
  lemma ShortBlockIsHandedOver(entry: Entry, env: Env)
    requires entry.size == 2 && entry.blocks == [Block(0, 0, 2, Sha256([7]))]
    requires env.opens && env.arrivals == [Arrived([7], Written, SavedOk)]
    ensures ValidEntry(entry) && Possible(entry, env) && !WellSized(entry.blocks)
    ensures Downloaded(entry, Disk(None, Absent), env).outcome == HandedOver([7])
  {
    assert Placed(entry.blocks, 0) && Start(entry.blocks, 1) == Start(entry.blocks, 0) + 2;
    assert Contiguous(entry.blocks) && BlockOk(entry, 0) && ValidEntry(entry);
    assert |entry.blocks[0].hash.preimage| != entry.blocks[0].size;
    assert WriteAt([], 0, [7]) == [7];
    assert Fetching(entry, 1, [7], Record(entry, {0}), {0}, false, env).outcome == HandedOver([7]);
    assert {} + {0} == {0};
    assert FetchOne(entry, 0, [], Absent, {}, false, env).outcome == HandedOver([7]);
  }

  /** A small-file batch writes a file into the same staging path, in one go, and leaves the record alone. */
  function BatchWrite(disk: Disk, body: Data): Disk {
    disk.(tmp := Some(body))
  }

  /** Attempts on any entries, each ending in any way, and batch writes, whether they were interrupted before
      their rename or moved the staging file away, one after another from an empty staging area. */
  datatype Action = Try(entry: Entry, env: Env) | Batch(body: Data) | BatchRenamed(body: Data)

  ghost predicate Acts(action: Action, before: Disk, after: Disk) {
    match action
    case Try(entry, env) => Possible(entry, env) && after == Downloaded(entry, before, env).disk
    case Batch(body) => after == BatchWrite(before, body)
    case BatchRenamed(body) => after == BatchWrite(before, body).(tmp := None)
  }

  ghost predicate Run(disks: seq<Disk>, actions: seq<Action>) {
    && |disks| == |actions| + 1 && disks[0] == Disk(None, Absent)
    && forall i :: 0 <= i < |actions| ==> Acts(actions[i], disks[i], disks[i + 1])
  }

  /** A batch wrote more bytes than the file whose blocks are recorded has. */
  ghost predicate LongBatch(disks: seq<Disk>, actions: seq<Action>, i: nat)
    requires i < |actions| < |disks|
  {
    actions[i].Batch? && disks[i].state.Saved? && |actions[i].body| > disks[i].state.size
  }

  lemma {:induction false} EveryDiskFits(disks: seq<Disk>, actions: seq<Action>, n: nat)
    requires Run(disks, actions) && n <= |actions| && forall i :: 0 <= i < n ==> !LongBatch(disks, actions, i)
    ensures Fits(disks[n])
  {
    if n > 0 {
      EveryDiskFits(disks, actions, n - 1);
      assert Acts(actions[n - 1], disks[n - 1], disks[n - 1 + 1]) && !LongBatch(disks, actions, n - 1);
      match actions[n - 1]
      case Try(entry, env) => AttemptKeepsFits(entry, disks[n - 1], env);
      case Batch(_) =>
      case BatchRenamed(_) =>
    }
  }

  /** In every run, a file handed over is exactly the entry's verified blocks if and only if the entry's
      hashes are of as many bytes as its blocks have and the attempt did not start with an overlong staging
      file, which only a batch that wrote too much can leave behind. */
  lemma EveryFileHandedOverIsExact(disks: seq<Disk>, actions: seq<Action>, n: nat)
    requires Run(disks, actions) && n < |actions|
    requires actions[n].Try? && actions[n].entry.size > 0 && Possible(actions[n].entry, actions[n].env)
    requires Downloaded(actions[n].entry, disks[n], actions[n].env).outcome.HandedOver?
    ensures var file, entry := Downloaded(actions[n].entry, disks[n], actions[n].env).outcome.file, actions[n].entry;
            && (Assembled(file, entry) <==> WellSized(entry.blocks) && !Overlong(disks[n], entry))
            && (Assembled(file, entry) ==> file == Joined(entry.blocks))
    ensures Overlong(disks[n], actions[n].entry) ==> exists i :: 0 <= i < n && LongBatch(disks, actions, i)
  {
    HandedOverFile(actions[n].entry, disks[n], actions[n].env);
    if forall i :: 0 <= i < n ==> !LongBatch(disks, actions, i) {
      EveryDiskFits(disks, actions, n);
    }
  }

  // ---------------------------------------------------------------- nothing is fetched twice

  /** Blocks that were confirmed at the start are in place and recorded. */
  ghost predicate Held(entry: Entry, tmp: Data, state: State, kept: set<nat>) {
    InPlace(entry, tmp, kept) && (kept != {} ==> StateOf(state, entry) && kept <= state.have)
  }

  lemma HeldIsConfirmed(entry: Entry, tmp: Data, state: State, kept: set<nat>)
    requires Held(entry, tmp, state, kept)
    ensures kept <= Have(Disk(Some(tmp), state), entry)
  {
  }

  lemma {:induction false} FetchingConfirms(entry: Entry, i: nat, tmp: Data, state: State, kept: set<nat>,
                                            have: set<nat>, failed: bool, env: Env)
    requires ValidEntry(entry) && Possible(entry, env) && i <= |entry.blocks| && kept <= have &&
             Held(entry, tmp, state, kept)
    ensures var a := Fetching(entry, i, tmp, state, have, failed, env);
            a.outcome.HandedOver? || kept <= Have(a.disk, entry)
    decreases |entry.blocks| - i, 1
  {
    HeldIsConfirmed(entry, tmp, state, kept);
    if i < |entry.blocks| {
      if i in have {
        FetchingConfirms(entry, i + 1, tmp, state, kept, have, failed, env);
      } else {
        FetchOneConfirms(entry, i, tmp, state, kept, have, failed, env);
      }
    }
  }

  lemma {:induction false} FetchOneConfirms(entry: Entry, i: nat, tmp: Data, state: State, kept: set<nat>,
                                            have: set<nat>, failed: bool, env: Env)
    requires ValidEntry(entry) && Possible(entry, env) && i < |entry.blocks| && i !in have
    requires kept <= have && Held(entry, tmp, state, kept)
    ensures var a := FetchOne(entry, i, tmp, state, have, failed, env);
            a.outcome.HandedOver? || kept <= Have(a.disk, entry)
    decreases |entry.blocks| - i, 0
  {
    var block, arrival := entry.blocks[i], env.arrivals[i];
    if arrival.NoData? || Sha256(arrival.bytes) != block.hash {
      FetchingConfirms(entry, i + 1, tmp, state, kept, have, true, env);
    } else if !arrival.write.Written? {
      var junk := arrival.write.junk;
      var torn := Torn(tmp, block, arrival.bytes, junk);
      WriteStaysInRange(entry, tmp, kept, i, junk[..Min(|junk|, |arrival.bytes|)]);
      HeldIsConfirmed(entry, torn, state, kept);
      if arrival.write.WriteFails? {
        FetchingConfirms(entry, i + 1, torn, state, kept, have, true, env);
      }
    } else {
      var next, more := WriteAt(tmp, block.offset, arrival.bytes), have + {i};
      WriteStaysInRange(entry, tmp, kept, i, arrival.bytes);
      HeldIsConfirmed(entry, next, state, kept);
      HeldIsConfirmed(entry, next, Record(entry, more), kept);
      if arrival.save.SavedOk? {
        FetchingConfirms(entry, i + 1, next, Record(entry, more), kept, more, failed, env);
      }
    }
  }

  lemma {:induction false} FetchingAsksOnlyOthers(entry: Entry, i: nat, tmp: Data, state: State, have: set<nat>,
                                                  failed: bool, env: Env)
    requires i <= |entry.blocks| == |env.arrivals|
    ensures Fetching(entry, i, tmp, state, have, failed, env).fetched !! have
    decreases |entry.blocks| - i
  {
    if i < |entry.blocks| {
      var block, arrival := entry.blocks[i], env.arrivals[i];
      if i in have {
        FetchingAsksOnlyOthers(entry, i + 1, tmp, state, have, failed, env);
      } else if arrival.NoData? || Sha256(arrival.bytes) != block.hash {
        FetchingAsksOnlyOthers(entry, i + 1, tmp, state, have, true, env);
      } else if arrival.write.WriteFails? {
        FetchingAsksOnlyOthers(entry, i + 1, Torn(tmp, block, arrival.bytes, arrival.write.junk), state, have, true,
                               env);
      } else if arrival.write.Written? && arrival.save.SavedOk? {
        var next := WriteAt(tmp, block.offset, arrival.bytes);
        FetchingAsksOnlyOthers(entry, i + 1, next, Record(entry, have + {i}), have + {i}, failed, env);
      }
    }
  }

  /** An attempt asks for no block that is confirmed when it starts, and one that does not get to hand the
      file over leaves all of them confirmed. */
  lemma ConfirmedBlocksAreKept(entry: Entry, disk: Disk, env: Env)
    requires Possible(entry, env)
    ensures var a := Downloaded(entry, disk, env);
            a.fetched !! Have(disk, entry) && (a.outcome.HandedOver? || Have(disk, entry) <= Have(a.disk, entry))
  {
    if entry.size > 0 && ValidEntry(entry) && env.opens {
      var have := Have(disk, entry);
      var ready := Opened(Loaded(disk, entry), have);
      FetchingAsksOnlyOthers(entry, 0, ready.tmp.value, ready.state, have, false, env);
      FetchingConfirms(entry, 0, ready.tmp.value, ready.state, have, have, false, env);
    }
  }

  /** Attempts on one entry, one after another, none of which gets to hand the file over. */
  ghost predicate Attempts(entry: Entry, disks: seq<Disk>, envs: seq<Env>) {
    && |disks| == |envs| + 1
    && (forall k :: 0 <= k < |envs| ==> Possible(entry, envs[k]))
    && forall k :: 0 <= k < |envs| ==>
         var a := Downloaded(entry, disks[k], envs[k]); disks[k + 1] == a.disk && !a.outcome.HandedOver?
  }

  /** Between attempts on one entry, a block once confirmed stays so and is never asked for again, whatever
      the disk at the start. */
  lemma {:induction false} NothingIsFetchedTwice(entry: Entry, disks: seq<Disk>, envs: seq<Env>, i: nat, j: nat)
    requires Attempts(entry, disks, envs) && i <= j < |envs|
    ensures Have(disks[i], entry) <= Have(disks[j], entry)
    ensures Downloaded(entry, disks[j], envs[j]).fetched !! Have(disks[i], entry)
  {
    if i < j {
      NothingIsFetchedTwice(entry, disks, envs, i, j - 1);
      assert disks[j - 1 + 1] == Downloaded(entry, disks[j - 1], envs[j - 1]).disk;
      ConfirmedBlocksAreKept(entry, disks[j - 1], envs[j - 1]);
    }
    ConfirmedBlocksAreKept(entry, disks[j], envs[j]);
  }

  /** Every block recorded for this entry is in place in the staging file. */
  ghost predicate Recorded(entry: Entry, disk: Disk) {
    StateOf(disk.state, entry) ==> disk.tmp.Some? && InPlace(entry, disk.tmp.value, disk.state.have)
  }

  lemma {:induction false} FetchingRecords(entry: Entry, i: nat, tmp: Data, state: State, have: set<nat>, failed: bool,
                                           env: Env)
    requires ValidEntry(entry) && WellSized(entry.blocks) && Possible(entry, env) && i <= |entry.blocks|
    requires InPlace(entry, tmp, have) && (StateOf(state, entry) ==> state.have <= have)
    ensures var a := Fetching(entry, i, tmp, state, have, failed, env); a.outcome.HandedOver? || Recorded(entry, a.disk)
    decreases |entry.blocks| - i, 1
  {
    if i < |entry.blocks| {
      if i in have {
        FetchingRecords(entry, i + 1, tmp, state, have, failed, env);
      } else {
        FetchOneRecords(entry, i, tmp, state, have, failed, env);
      }
    }
  }

  lemma {:induction false} FetchOneRecords(entry: Entry, i: nat, tmp: Data, state: State, have: set<nat>, failed: bool,
                                           env: Env)
    requires ValidEntry(entry) && WellSized(entry.blocks) && Possible(entry, env) && i < |entry.blocks| && i !in have
    requires InPlace(entry, tmp, have) && (StateOf(state, entry) ==> state.have <= have)
    ensures var a := FetchOne(entry, i, tmp, state, have, failed, env); a.outcome.HandedOver? || Recorded(entry, a.disk)
    decreases |entry.blocks| - i, 0
  {
    var block, arrival := entry.blocks[i], env.arrivals[i];
    if arrival.NoData? || Sha256(arrival.bytes) != block.hash {
      FetchingRecords(entry, i + 1, tmp, state, have, true, env);
    } else {
      match arrival.write
      case WriteFails(junk) =>
        WriteStaysInRange(entry, tmp, have, i, junk[..Min(|junk|, |arrival.bytes|)]);
        FetchingRecords(entry, i + 1, Torn(tmp, block, arrival.bytes, junk), state, have, true, env);
      case WriteDies(junk) =>
        WriteStaysInRange(entry, tmp, have, i, junk[..Min(|junk|, |arrival.bytes|)]);
      case Written =>
        WriteAddsBlock(entry, tmp, have, i, arrival.bytes);
        if arrival.save.SavedOk? {
          var next := WriteAt(tmp, block.offset, arrival.bytes);
          FetchingRecords(entry, i + 1, next, Record(entry, have + {i}), have + {i}, failed, env);
        }
    }
  }

  lemma AttemptRecords(entry: Entry, disk: Disk, env: Env)
    requires Possible(entry, env) && WellSized(entry.blocks) && Recorded(entry, disk)
    ensures var a := Downloaded(entry, disk, env); a.outcome.HandedOver? || Recorded(entry, a.disk)
  {
    if entry.size > 0 && ValidEntry(entry) && env.opens {
      var have := Have(disk, entry);
      var ready := Opened(Loaded(disk, entry), have);
      FetchingRecords(entry, 0, ready.tmp.value, ready.state, have, false, env);
    }
  }

  /** From a disk without a record of this entry, an empty one or one with another file's record, everything
      that attempts on the entry record is confirmed, so a recorded block is never asked for again. */
  lemma {:induction false} EveryRecordIsConfirmed(entry: Entry, disks: seq<Disk>, envs: seq<Env>, n: nat)
    requires Attempts(entry, disks, envs) && WellSized(entry.blocks) && !StateOf(disks[0].state, entry) && n < |disks|
    ensures StateOf(disks[n].state, entry) ==> Have(disks[n], entry) == disks[n].state.have
    ensures Recorded(entry, disks[n])
  {
    if n > 0 {
      EveryRecordIsConfirmed(entry, disks, envs, n - 1);
      assert disks[n - 1 + 1] == Downloaded(entry, disks[n - 1], envs[n - 1]).disk;
      AttemptRecords(entry, disks[n - 1], envs[n - 1]);
    }
  }

  // ---------------------------------------------------------------- a small-file batch in between

  /** If the process ends after a batch wrote its file, the next attempt may find a staging file longer
      than its entry. The recorded block still verifies, so it is kept and the longer file is handed over. */
  lemma InterruptedBatchCanLengthenTheFile(entry: Entry, disk: Disk, env: Env, extra: Data)
    requires entry.blocks == [Block(0, 0, 1, Sha256([7]))] && entry.size == 1 && extra == [7, 8]
    requires disk == Disk(Some([7]), Record(entry, {0})) && Possible(entry, env) && env.opens
    ensures Fits(disk) && Downloaded(entry, disk, env).outcome == HandedOver([7])
    ensures !Fits(BatchWrite(disk, extra))
    ensures Downloaded(entry, BatchWrite(disk, extra), env).outcome == HandedOver(extra)
  {
    var batch := BatchWrite(disk, extra);
    assert Placed(entry.blocks, 0) && Start(entry.blocks, 1) == Start(entry.blocks, 0) + 1;
    assert Contiguous(entry.blocks) && BlockOk(entry, 0) && ValidEntry(entry);
    assert Part(disk.tmp.value, 0, 1) == [7] && Part(extra, 0, 1) == [7];
    assert Verifies(disk.tmp.value, entry.blocks[0]) && Verifies(extra, entry.blocks[0]);
    assert 0 in Have(disk, entry) && 0 in Have(batch, entry);
    assert Fetching(entry, 1, [7], disk.state, Have(disk, entry), false, env).outcome == HandedOver([7]);
    assert Fetching(entry, 1, extra, disk.state, Have(batch, entry), false, env).outcome == HandedOver(extra);
  }
}
