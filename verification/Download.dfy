/**
 One attempt to download a file into its staging file, resuming from what earlier attempts recorded.
 The attempt may fail or the process may end at any point; a write may be torn.
 */
module Download {
  import opened Outcomes
  import opened Bytes
  import opened Blocks
  import opened Transfer

  /** What a peer's journal says of a file; no hash of the whole file may be known. */
  datatype Entry = Entry(size: int, sha: Option<Digest>, blocks: seq<Block>)

  datatype State = Absent | Garbled | Saved(sha: Option<Digest>, size: int, blockSize: int, have: set<nat>)

  /** The staging file and the record of its finished blocks. */
  datatype Disk = Disk(tmp: Option<Data>, state: State)

  // ---------------------------------------------------------------- what an attempt meets

  datatype WriteEnd = Written | WriteFails(junk: Data) | WriteDies(junk: Data)
  datatype SaveEnd = SavedOk | SaveFails | SaveDies(took: bool)
  datatype Arrival = NoData | Arrived(bytes: Data, write: WriteEnd, save: SaveEnd)

  /** What is left after the file was handed over for checking and renaming. */
  datatype Ending = Ending(tmpGone: bool, stateGone: bool)
  datatype Env = Env(opens: bool, arrivals: seq<Arrival>, ending: Ending)

  /** A read for a block never returns more bytes than the block has. */
  predicate Possible(entry: Entry, env: Env) {
    && |env.arrivals| == |entry.blocks|
    && forall i :: 0 <= i < |entry.blocks| && env.arrivals[i].Arrived? ==>
         |env.arrivals[i].bytes| <= entry.blocks[i].size
  }

  datatype Outcome = Refused | Failed | Died | HandedOver(file: Data)
  datatype Attempt = Attempt(disk: Disk, outcome: Outcome, fetched: set<nat>)

  // ---------------------------------------------------------------- block lists

  predicate BlockOk(entry: Entry, i: nat)
    requires i < |entry.blocks|
  {
    && 0 < entry.blocks[i].size <= TRANSFER_BLOCK
    && (i < |entry.blocks| - 1 ==> entry.blocks[i].size == TRANSFER_BLOCK)
  }

  predicate ValidEntry(entry: Entry) {
    && entry.blocks != [] && Contiguous(entry.blocks) && entry.size == Start(entry.blocks, |entry.blocks|)
    && forall i :: 0 <= i < |entry.blocks| ==> BlockOk(entry, i)
  }

  method ValidateBlocks(entry: Entry) returns (ok: bool)
    ensures ok <==> ValidEntry(entry)
  {
    if entry.blocks == [] {
      return false;
    }
    var covered := 0;
    for i := 0 to |entry.blocks|
      invariant covered == Start(entry.blocks, i)
      invariant forall k :: 0 <= k < i ==> Placed(entry.blocks, k) && BlockOk(entry, k)
    {
      var block := entry.blocks[i];
      if block.index != i || block.offset != covered || block.size <= 0 || block.size > TRANSFER_BLOCK {
        assert !Placed(entry.blocks, i) || !BlockOk(entry, i);
        return false;
      }
      if i < |entry.blocks| - 1 && block.size != TRANSFER_BLOCK {
        assert !BlockOk(entry, i);
        return false;
      }
      covered := covered + block.size;
    }
    ok := covered == entry.size;
  }

  // ---------------------------------------------------------------- one block

  datatype Fetched = Fetched(bytes: Data, network: int)

  /** A block from local bytes, from a patch of the held block, or whole from the peer, in that order.
      Local and held bytes are reads of exactly the block's size; a whole block is read up to it. */
  method FetchBlock(block: Block, local: Option<Data>, held: Option<Data>, peer: Peer, whole: Option<Data>,
                    ghost remote: Data)
    returns (r: Option<Fetched>)
    requires (local.Some? ==> |local.value| == block.size) && (held.Some? ==> |held.value| == block.size)
    requires whole.Some? ==> |whole.value| <= block.size
    ensures r.Some? ==>
              Sha256(r.value.bytes) == block.hash && |r.value.bytes| <= block.size && r.value.network <= block.size
    ensures local.Some? && Sha256(local.value) == block.hash ==> r == Some(Fetched(local.value, 0))
    ensures whole.Some? && Sha256(whole.value) == block.hash ==> r.Some?
  {
    if local.Some? && Sha256(local.value) == block.hash {
      return Some(Fetched(local.value, 0));
    }
    var patched := TrySubBlock(block, held, peer, remote);
    if patched.Some? {
      return Some(Fetched(patched.value.data, patched.value.moved));
    }
    if whole.None? || Sha256(whole.value) != block.hash {
      return None;
    }
    r := Some(Fetched(whole.value, |whole.value|));
  }

  // ---------------------------------------------------------------- the attempt, as a function

  predicate StateOf(state: State, entry: Entry) {
    state.Saved? && state.blockSize == TRANSFER_BLOCK && state.size == entry.size && state.sha == entry.sha
  }

  function Confirmed(tmp: Option<Data>, blocks: seq<Block>, claimed: set<nat>): set<nat> {
    set i: nat | i < |blocks| && i in claimed && tmp.Some? && Verifies(tmp.value, blocks[i])
  }

  /** A record for another file is removed; a record for this one counts where the bytes still verify. */
  function Loaded(disk: Disk, entry: Entry): Disk {
    if disk.state.Absent? || StateOf(disk.state, entry) then disk else disk.(state := Absent)
  }

  function Have(disk: Disk, entry: Entry): set<nat> {
    if StateOf(disk.state, entry) then Confirmed(disk.tmp, entry.blocks, disk.state.have) else {}
  }

  /** The staging file is emptied unless some of it can be kept. */
  function Opened(disk: Disk, have: set<nat>): Disk {
    if have == {} then disk.(tmp := Some([])) else disk
  }

  function Torn(tmp: Data, block: Block, bytes: Data, junk: Data): Data {
    WriteAt(tmp, block.offset, junk[..Min(|junk|, |bytes|)])
  }

  function Record(entry: Entry, have: set<nat>): State {
    Saved(entry.sha, entry.size, TRANSFER_BLOCK, have)
  }

  /** From block `i` on. */
  function Fetching(entry: Entry, i: nat, tmp: Data, state: State, have: set<nat>, failed: bool, env: Env): Attempt
    requires i <= |entry.blocks| == |env.arrivals|
    decreases |entry.blocks| - i
  {
    if i == |entry.blocks| then
      if failed then Attempt(Disk(Some(tmp), state), Failed, {})
      else Attempt(Disk(if env.ending.tmpGone then None else Some(tmp),
                        if env.ending.stateGone then Absent else state), HandedOver(tmp), {})
    else if i in have then Fetching(entry, i + 1, tmp, state, have, failed, env)
    else
      var rest := FetchOne(entry, i, tmp, state, have, failed, env);
      rest.(fetched := rest.fetched + {i})
  }

  function FetchOne(entry: Entry, i: nat, tmp: Data, state: State, have: set<nat>, failed: bool, env: Env): Attempt
    requires i < |entry.blocks| == |env.arrivals|
    decreases |entry.blocks| - i, 0
  {
    var block, arrival := entry.blocks[i], env.arrivals[i];
    if arrival.NoData? || Sha256(arrival.bytes) != block.hash then Fetching(entry, i + 1, tmp, state, have, true, env)
    else match arrival.write
         case WriteFails(junk) => Fetching(entry, i + 1, Torn(tmp, block, arrival.bytes, junk), state, have, true, env)
         case WriteDies(junk) => Attempt(Disk(Some(Torn(tmp, block, arrival.bytes, junk)), state), Died, {})
         case Written =>
           var next, more := WriteAt(tmp, block.offset, arrival.bytes), have + {i};
           match arrival.save
           case SavedOk => Fetching(entry, i + 1, next, Record(entry, more), more, failed, env)
           case SaveFails => Attempt(Disk(Some(next), state), Failed, {})
           case SaveDies(took) => Attempt(Disk(Some(next), if took then Record(entry, more) else state), Died, {})
  }

  function Downloaded(entry: Entry, disk: Disk, env: Env): Attempt
    requires Possible(entry, env)
  {
    if entry.size < 0 then Attempt(disk, Refused, {})
    else if entry.size == 0 then
      Attempt(Disk(if env.ending.tmpGone then None else Some([]), if env.ending.stateGone then Absent else disk.state),
              HandedOver([]), {})
    else if !ValidEntry(entry) then Attempt(disk, Refused, {})
    else
      var loaded, have := Loaded(disk, entry), Have(disk, entry);
      if !env.opens then Attempt(loaded, Failed, {})
      else
        var ready := Opened(loaded, have);
        Fetching(entry, 0, ready.tmp.value, ready.state, have, false, env)
  }

  // ---------------------------------------------------------------- the attempt, step by step

  class Stage {
    var tmp: Option<Data>
    var state: State

    constructor ()
      ensures Now() == Disk(None, Absent)
    {
      tmp, state := None, Absent;
    }

    function Now(): Disk
      reads this
    {
      Disk(tmp, state)
    }

    method ConfirmPartial(blocks: seq<Block>, claimed: set<nat>) returns (have: set<nat>)
      ensures have == Confirmed(tmp, blocks, claimed)
    {
      have := {};
      if claimed == {} || tmp.None? {
        return;
      }
      for i := 0 to |blocks|
        invariant have == set k: nat | k < i && k in claimed && Verifies(tmp.value, blocks[k])
      {
        if i in claimed && Verifies(tmp.value, blocks[i]) {
          have := have + {i};
        }
      }
    }

    method LoadPartial(entry: Entry) returns (have: set<nat>)
      modifies this`state
      ensures Now() == Loaded(old(Now()), entry) && have == Have(old(Now()), entry)
      ensures if old(state.Saved? && state == Saved(entry.sha, entry.size, TRANSFER_BLOCK, state.have)) then
                && state == old(state)
                && (tmp.Some? ==>
                      forall i: nat :: i < |entry.blocks| && i in state.have ==>
                        (i in have <==> Verifies(tmp.value, entry.blocks[i])))
              else state == Absent && have == {}
      ensures forall i: nat :: i in have ==> i < |entry.blocks| && tmp.Some? && Verifies(tmp.value, entry.blocks[i])
    {
      if state.Absent? {
        return {};
      }
      if !StateOf(state, entry) {
        state := Absent;
        return {};
      }
      have := ConfirmPartial(entry.blocks, state.have);
    }

    /** Finish hands the staging file over; what happens to it then is the caller's. */
    method Finish(env: Env) returns (outcome: Outcome)
      requires tmp.Some?
      modifies this
      ensures outcome == HandedOver(old(tmp.value))
      ensures Now() == Disk(if env.ending.tmpGone then None else old(tmp),
                            if env.ending.stateGone then Absent else old(state))
    {
      outcome := HandedOver(tmp.value);
      if env.ending.tmpGone {
        tmp := None;
      }
      if env.ending.stateGone {
        state := Absent;
      }
    }

    method DownloadOnce(entry: Entry, env: Env) returns (outcome: Outcome, fetched: set<nat>)
      requires Possible(entry, env)
      modifies this
      ensures Attempt(Now(), outcome, fetched) == Downloaded(entry, old(Now()), env)
    {
      fetched := {};
      if entry.size < 0 {
        return Refused, {};
      }
      if entry.size == 0 {
        tmp := Some([]);
        outcome := Finish(env);
        return;
      }
      var ok := ValidateBlocks(entry);
      if !ok {
        return Refused, {};
      }
      var have := LoadPartial(entry);
      if !env.opens {
        return Failed, {};
      }
      if have == {} {
        tmp := Some([]);
      }
      outcome, fetched := FetchBlocks(entry, have, env);
    }

    method FetchBlocks(entry: Entry, recorded: set<nat>, env: Env) returns (outcome: Outcome, fetched: set<nat>)
      requires |entry.blocks| == |env.arrivals| && tmp.Some?
      modifies this
      ensures Attempt(Now(), outcome, fetched) == Fetching(entry, 0, old(tmp.value), old(state), recorded, false, env)
    {
      var have: set<nat>, failed := recorded, false;
      fetched := {};
      ghost var whole := Fetching(entry, 0, tmp.value, state, have, false, env);
      for i := 0 to |entry.blocks|
        invariant tmp.Some?
        invariant Adding(fetched, Fetching(entry, i, tmp.value, state, have, failed, env)) == whole
      {
        if i in have {
          continue;
        }
        var block, arrival := entry.blocks[i], env.arrivals[i];
        fetched := fetched + {i};
        if arrival.NoData? || Sha256(arrival.bytes) != block.hash {
          failed := true;
          continue;
        }
        if !arrival.write.Written? {
          tmp := Some(Torn(tmp.value, block, arrival.bytes, arrival.write.junk));
          if arrival.write.WriteDies? {
            return Died, fetched;
          }
          failed := true;
          continue;
        }
        tmp := Some(WriteAt(tmp.value, block.offset, arrival.bytes));
        have := have + {i};
        if arrival.save.SaveFails? {
          return Failed, fetched;
        }
        if arrival.save.SaveDies? {
          if arrival.save.took {
            state := Record(entry, have);
          }
          return Died, fetched;
        }
        state := Record(entry, have);
      }
      if failed {
        return Failed, fetched;
      }
      outcome := Finish(env);
    }
  }

  function Adding(fetched: set<nat>, rest: Attempt): Attempt {
    rest.(fetched := fetched + rest.fetched)
  }
}
