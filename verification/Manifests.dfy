/** File manifests, the plans that compare them, and assembly of a file from blocks held locally. */
module Manifests {
  import opened Outcomes
  import opened Bytes
  import opened Blocks

  type Path = string

  datatype Manifest = Manifest(path: Path, size: nat, blockSize: int, blocks: seq<Block>)

  /** The manifest of a file with these bytes. */
  ghost predicate Describes(m: Manifest, data: Data) {
    m.blockSize > 0 && m.size == |data| && m.blocks == Cut(data, m.blockSize)
  }

  /** Reads block after block until a short one or the end of the file. */
  method BuildManifest(path: Path, data: Data, blockSize: int) returns (r: Result<Manifest>)
    ensures r.Ok? <==> blockSize > 0
    ensures r.Ok? ==> r.value.path == path && r.value.blockSize == blockSize && Describes(r.value, data)
  {
    if blockSize <= 0 {
      return Err("blockSize must be positive");
    }
    var blocks: seq<Block>, index := [], 0;
    while true
      invariant index <= Count(|data|, blockSize) && blocks == Cut(data, blockSize)[..index]
      decreases Count(|data|, blockSize) - index
    {
      CountIsLeast(|data|, blockSize, index);
      CountIsLeast(|data|, blockSize, index + 1);
      if index > 0 {
        CountIsLeast(|data|, blockSize, index - 1);
      }
      var start := index * blockSize;
      assert (index + 1) * blockSize == start + blockSize;
      if start >= |data| {
        break;
      }
      var n := Min(blockSize, |data| - start);
      blocks := blocks + [Block(index, start, n, Sha256(Part(data, start, n)))];
      index := index + 1;
      if n < blockSize {
        break;
      }
    }
    r := Ok(Manifest(path, |data|, blockSize, blocks));
  }

  /** A block list determines the bytes it describes, whatever the block sizes; for one block size the bytes
      determine the list. */
  lemma ManifestDeterminesBytes(m: Manifest, n: Manifest, a: Data, b: Data)
    requires Describes(m, a) && Describes(n, b)
    ensures m.blocks == n.blocks ==> a == b
    ensures a == b && m.blockSize == n.blockSize ==> m.blocks == n.blocks
  {
    CutDetermines(a, m.blockSize, a);
    CutDetermines(b, n.blockSize, b);
  }

  // ---------------------------------------------------------------- planning by index

  /** The block with this index; the last one wins. */
  function At(base: seq<Block>, index: nat): Option<Block> {
    if base == [] then None
    else if base[|base| - 1].index == index then Some(base[|base| - 1])
    else At(base[..|base| - 1], index)
  }

  /** A block of the target that the base does not have at the same index. */
  predicate Lacks(base: seq<Block>, want: Block) {
    match At(base, want.index)
    case None => true
    case Some(have) => have.size != want.size || have.hash != want.hash
  }

  /** In a file's block list the block with index `i` is number `i`. */
  lemma {:induction false} AtOfList(blocks: seq<Block>, n: nat, i: nat)
    requires n <= |blocks| && forall k :: 0 <= k < |blocks| ==> blocks[k].index == k
    ensures At(blocks[..n], i) == if i < n then Some(blocks[i]) else None
  {
    if n > 0 && i != n - 1 {
      assert blocks[..n][..n - 1] == blocks[..n - 1];
      AtOfList(blocks, n - 1, i);
    }
  }

  function Needed(base: seq<Block>, target: seq<Block>): seq<Block> {
    if target == [] then []
    else Needed(base, target[..|target| - 1]) +
         (if Lacks(base, target[|target| - 1]) then [target[|target| - 1]] else [])
  }

  ghost predicate IndexedBy(base: seq<Block>, byIndex: map<nat, Block>) {
    forall x :: (if x in byIndex then Some(byIndex[x]) else None) == At(base, x)
  }

  method IndexBlocks(base: seq<Block>) returns (byIndex: map<nat, Block>)
    ensures IndexedBy(base, byIndex)
  {
    byIndex := map[];
    for i := 0 to |base|
      invariant IndexedBy(base[..i], byIndex)
    {
      assert base[..i + 1][..i] == base[..i];
      byIndex := byIndex[base[i].index := base[i]];
    }
    assert base[..|base|] == base;
  }

  method PlanDelta(base: Manifest, target: Manifest) returns (needed: seq<Block>)
    ensures needed == Needed(base.blocks, target.blocks)
  {
    var byIndex := IndexBlocks(base.blocks);
    needed := [];
    for i := 0 to |target.blocks|
      invariant needed == Needed(base.blocks, target.blocks[..i])
    {
      var want := target.blocks[i];
      assert target.blocks[..i + 1][..i] == target.blocks[..i];
      assert (if want.index in byIndex then Some(byIndex[want.index]) else None) == At(base.blocks, want.index);
      if want.index !in byIndex || byIndex[want.index].size != want.size || byIndex[want.index].hash != want.hash {
        needed := needed + [want];
      }
    }
    assert target.blocks[..|target.blocks|] == target.blocks;
  }

  // ---------------------------------------------------------------- what a delta transfers

  /** The file after each of these blocks was written at its offset. */
  function Patch(file: Data, blocks: seq<Block>): Data {
    if blocks == [] then file
    else
      var last := blocks[|blocks| - 1];
      WriteAt(Patch(file, blocks[..|blocks| - 1]), last.offset, last.hash.preimage)
  }

  /** Between two cuts of one size, exactly the blocks whose bytes differ are needed. */
  lemma NeededWhenDifferent(base: Data, target: Data, b: nat, i: nat)
    requires b > 0 && i < Count(|target|, b)
    ensures Lacks(Cut(base, b), Cut(target, b)[i]) <==>
              !Verifies(base, Cut(target, b)[i]) ||
              (i < Count(|base|, b) && CutSize(|base|, b, i) > CutSize(|target|, b, i))
  {
    var had, want := Cut(base, b), Cut(target, b)[i];
    CountIsLeast(|base|, b, i);
    CountIsLeast(|target|, b, i);
    AtOfList(had, |had|, i);
    assert had[..|had|] == had;
    if i < |had| {
      assert had[i] == CutBlock(base, b, i);
    }
  }

  /** Writing the needed blocks leaves every block that was there before, and puts the first `n` in place. */
  lemma {:induction false} PatchedBlock(base: Data, had: seq<Block>, blocks: seq<Block>, n: nat, i: nat)
    requires Contiguous(blocks) && WellSized(blocks) && NonEmpty(blocks) && n <= |blocks| && i < |blocks|
    requires i < n || !Lacks(had, blocks[i])
    requires !Lacks(had, blocks[i]) ==> Verifies(base, blocks[i])
    ensures Verifies(Patch(base, Needed(had, blocks[..n])), blocks[i])
  {
    if n > 0 {
      var last, needed := blocks[n - 1], Needed(had, blocks[..n - 1]);
      assert blocks[..n][..n - 1] == blocks[..n - 1] && blocks[..n][n - 1] == last;
      if i < n - 1 || !Lacks(had, blocks[i]) {
        PatchedBlock(base, had, blocks, n - 1, i);
      }
      if Lacks(had, last) {
        assert Needed(had, blocks[..n]) == needed + [last];
        assert (needed + [last])[..|needed|] == needed;
        WriteOneBlock(Patch(base, needed), blocks, n - 1, i);
      } else {
        assert Needed(had, blocks[..n]) == needed;
      }
    }
  }

  /** A file in which all blocks verify, cut to the length they cover, is the joined blocks. */
  lemma TrimmedIsJoined(file: Data, blocks: seq<Block>)
    requires Contiguous(blocks) && AllVerify(file, blocks)
    ensures Truncate(file, Start(blocks, |blocks|)) == Joined(blocks)
  {
    VerifiedPrefix(file, blocks, |blocks|);
  }

  /** The base after the needed blocks were written, cut to the target's length. */
  function Rebuilt(base: Data, had: seq<Block>, target: seq<Block>): Data {
    Truncate(Patch(base, Needed(had, target)), Start(target, |target|))
  }

  /** The file, with zeros after its end up to this length. */
  function Extended(file: Data, n: nat): Data {
    if |file| < n then file + Zeros(n - |file|) else file
  }

  lemma WriteExtended(file: Data, offset: nat, data: Data, n: nat)
    requires offset + |data| <= n
    ensures Extended(WriteAt(file, offset, data), n) == WriteAt(Extended(file, n), offset, data)
  {
  }

  lemma BlockEndsWithin(blocks: seq<Block>, i: nat)
    requires Contiguous(blocks) && WellSized(blocks) && i < |blocks|
    ensures blocks[i].offset + blocks[i].size <= Start(blocks, |blocks|) && |blocks[i].hash.preimage| == blocks[i].size
  {
    assert Placed(blocks, i);
    StartsAscend(blocks, i, |blocks|);
  }

  lemma NeededOneMore(had: seq<Block>, blocks: seq<Block>, n: nat)
    requires n < |blocks|
    ensures Needed(had, blocks[..n + 1]) ==
            Needed(had, blocks[..n]) + (if Lacks(had, blocks[n]) then [blocks[n]] else [])
  {
    assert blocks[..n + 1][..n] == blocks[..n];
  }

  lemma PatchOneMore(file: Data, blocks: seq<Block>, b: Block)
    ensures Patch(file, blocks + [b]) == WriteAt(Patch(file, blocks), b.offset, b.hash.preimage)
  {
    assert (blocks + [b])[..|blocks|] == blocks;
  }

  /** Patching and extending with zeros can be done in either order. */
  lemma {:induction false} PatchExtended(base: Data, had: seq<Block>, blocks: seq<Block>, n: nat)
    requires Contiguous(blocks) && WellSized(blocks) && n <= |blocks|
    ensures var total := Start(blocks, |blocks|);
            Extended(Patch(base, Needed(had, blocks[..n])), total) ==
            Patch(Extended(base, total), Needed(had, blocks[..n]))
  {
    if n > 0 {
      var total, needed, last := Start(blocks, |blocks|), Needed(had, blocks[..n - 1]), blocks[n - 1];
      PatchExtended(base, had, blocks, n - 1);
      NeededOneMore(had, blocks, n - 1);
      if Lacks(had, last) {
        BlockEndsWithin(blocks, n - 1);
        PatchOneMore(base, needed, last);
        PatchOneMore(Extended(base, total), needed, last);
        WriteExtended(Patch(base, needed), last.offset, last.hash.preimage, total);
      } else {
        assert needed + [] == needed;
      }
    }
  }

  /** Writing the needed blocks leaves the bytes of every other block alone. */
  lemma {:induction false} OtherBlockStays(file: Data, had: seq<Block>, blocks: seq<Block>, n: nat, i: nat)
    requires Contiguous(blocks) && WellSized(blocks) && n <= |blocks| && i < |blocks| && !Lacks(had, blocks[i])
    requires Within(file, blocks[i].offset, blocks[i].size)
    ensures var patched := Patch(file, Needed(had, blocks[..n]));
            && Within(patched, blocks[i].offset, blocks[i].size)
            && Part(patched, blocks[i].offset, blocks[i].size) == Part(file, blocks[i].offset, blocks[i].size)
  {
    if n > 0 {
      var needed, last := Needed(had, blocks[..n - 1]), blocks[n - 1];
      OtherBlockStays(file, had, blocks, n - 1, i);
      NeededOneMore(had, blocks, n - 1);
      if Lacks(had, last) {
        PatchOneMore(file, needed, last);
        BlocksApart(blocks, n - 1, i);
        OtherPart(Patch(file, needed), last.offset, last.hash.preimage, blocks[i].offset, blocks[i].size);
      } else {
        assert needed + [] == needed;
      }
    }
  }

  lemma BlocksApart(blocks: seq<Block>, k: nat, i: nat)
    requires Contiguous(blocks) && WellSized(blocks) && k < |blocks| && i < |blocks| && i != k
    ensures || blocks[i].offset + blocks[i].size <= blocks[k].offset
            || blocks[k].offset + |blocks[k].hash.preimage| <= blocks[i].offset
  {
    assert Placed(blocks, k) && Placed(blocks, i);
    StartsAscend(blocks, if i < k then i else k, if i < k then k else i);
  }

  /** Every block that is not needed is in this file at the target's offset. */
  ghost predicate HoldsOthers(file: Data, had: seq<Block>, blocks: seq<Block>) {
    forall i :: 0 <= i < |blocks| && !Lacks(had, blocks[i]) ==> Verifies(file, blocks[i])
  }

  /** Patching a base with the needed blocks gives the target if and only if every block that is not needed
      is in the base, extended with zeros, at the target's offset. */
  lemma PatchGivesTarget(base: Data, had: seq<Block>, target: Data, b: nat)
    requires b > 0
    ensures Rebuilt(base, had, Cut(target, b)) == target <==> HoldsOthers(Extended(base, |target|), had, Cut(target, b))
  {
    var blocks := Cut(target, b);
    CutCovers(target, b);
    CutDetermines(target, b, target);
    assert blocks[..|blocks|] == blocks;
    PatchExtended(base, had, blocks, |blocks|);
    var long := Extended(base, |target|);
    var patched := Patch(long, Needed(had, blocks));
    assert Rebuilt(base, had, blocks) == Truncate(patched, |target|) by {
      TruncateExtended(Patch(base, Needed(had, blocks)), |target|);
    }
    if HoldsOthers(long, had, blocks) {
      forall i | 0 <= i < |blocks| ensures Verifies(patched, blocks[i]) {
        PatchedBlock(long, had, blocks, |blocks|, i);
      }
      TrimmedIsJoined(patched, blocks);
    }
    if Rebuilt(base, had, blocks) == target {
      forall i | 0 <= i < |blocks| && !Lacks(had, blocks[i]) ensures Verifies(long, blocks[i]) {
        BlockEndsWithin(blocks, i);
        OtherBlockStays(long, had, blocks, |blocks|, i);
        TrimmedPart(patched, |target|, blocks[i]);
      }
    }
  }

  lemma TruncateExtended(file: Data, n: nat)
    ensures Truncate(file, n) == Truncate(Extended(file, n), n)
  {
  }

  lemma TrimmedPart(file: Data, n: nat, b: Block)
    requires b.offset + b.size <= n && Within(file, b.offset, b.size) && n <= |file|
    ensures Part(Truncate(file, n), b.offset, b.size) == Part(file, b.offset, b.size)
  {
  }

  /** With one block size a delta is enough to rebuild the target from the base. */
  lemma DeltaRebuildsTarget(base: Data, target: Data, b: nat)
    requires b > 0
    ensures Rebuilt(base, Cut(base, b), Cut(target, b)) == target
  {
    var blocks := Cut(target, b);
    forall i | 0 <= i < |blocks| && !Lacks(Cut(base, b), blocks[i])
      ensures Verifies(Extended(base, |target|), blocks[i])
    {
      NeededWhenDifferent(base, target, b, i);
      PartOfPrefix(base, Zeros(if |base| < |target| then |target| - |base| else 0), blocks[i].offset, blocks[i].size);
    }
    PatchGivesTarget(base, Cut(base, b), target, b);
  }

  lemma TwoCuts(base: Data, target: Data)
    requires base == [1, 2, 3] && target == [4, 3]
    ensures Cut(base, 2) == [Block(0, 0, 2, Sha256([1, 2])), Block(1, 2, 1, Sha256([3]))]
    ensures Cut(target, 1) == [Block(0, 0, 1, Sha256([4])), Block(1, 1, 1, Sha256([3]))]
  {
    assert Count(|base|, 2) == 2 && Count(|target|, 1) == 2;
    assert CutBlock(base, 2, 0) == Block(0, 0, 2, Sha256([1, 2]));
    assert CutBlock(base, 2, 1) == Block(1, 2, 1, Sha256([3]));
    assert CutBlock(target, 1, 0) == Block(0, 0, 1, Sha256([4]));
    assert CutBlock(target, 1, 1) == Block(1, 1, 1, Sha256([3]));
  }

  /** With two block sizes it is not: a block may match by index and lie elsewhere. */
  lemma DeltaNeedsOneBlockSize(base: Data, target: Data)
    requires base == [1, 2, 3] && target == [4, 3]
    ensures Rebuilt(base, Cut(base, 2), Cut(target, 1)) != target
  {
    TwoCuts(base, target);
    SecondByteStays(base, Cut(base, 2), Cut(target, 1));
  }

  lemma SecondByteStays(base: Data, had: seq<Block>, blocks: seq<Block>)
    requires |base| == 3 && |had| == 2 && |blocks| == 2
    requires had[0].index == blocks[0].index == 0 && had[1].index == blocks[1].index == 1
    requires had[1].size == blocks[1].size == 1 && had[1].hash == blocks[1].hash && had[0].size != blocks[0].size == 1
    requires blocks[0].offset == 0 && |blocks[0].hash.preimage| == 1
    ensures |Rebuilt(base, had, blocks)| == 2 && Rebuilt(base, had, blocks)[1] == base[1]
  {
    OnlyFirstNeeded(had, blocks);
    PatchOne(base, blocks[0]);
    assert Start(blocks, 2) == Start(blocks, 1) + 1 && Start(blocks, 1) == Start(blocks, 0) + 1;
  }

  lemma PatchOne(base: Data, block: Block)
    requires |base| == 3 && block.offset == 0 && |block.hash.preimage| == 1
    ensures |Patch(base, [block])| == 3 && Patch(base, [block])[1] == base[1]
  {
  }

  lemma OnlyFirstNeeded(had: seq<Block>, blocks: seq<Block>)
    requires |had| == 2 && |blocks| == 2 && had[0].index == 0 && had[1].index == 1 && blocks[0].index == 0 &&
             blocks[1].index == 1
    requires had[1].size == blocks[1].size && had[1].hash == blocks[1].hash && had[0].size != blocks[0].size
    ensures Needed(had, blocks) == [blocks[0]]
  {
    AtOfList(had, 2, 0);
    AtOfList(had, 2, 1);
    assert had[..2] == had;
    assert !Lacks(had, blocks[1]) && Lacks(had, blocks[0]);
    assert blocks[..1] == [blocks[0]] && [blocks[0]][..0] == [];
    assert Needed(had, []) == [];
    assert Needed(had, [blocks[0]]) == [blocks[0]];
  }

  // ---------------------------------------------------------------- planning by content

  predicate Offers(sources: seq<Manifest>, hash: Digest) {
    exists s, i :: 0 <= s < |sources| && 0 <= i < |sources[s].blocks| && sources[s].blocks[i].hash == hash
  }

  datatype Reuse = Reuse(target: nat, path: Path, index: nat)
  datatype ContentPlan = ContentPlan(needed: seq<Block>, reused: seq<Reuse>)

  /** The source that a reused block is to come from has a block with its hash. */
  predicate Comes(sources: seq<Manifest>, from: Reuse, hash: Digest) {
    exists s, i :: 0 <= s < |sources| && 0 <= i < |sources[s].blocks| && sources[s].blocks[i].hash == hash
                   && sources[s].path == from.path && sources[s].blocks[i].index == from.index
  }

  /** Each target block is reused from a source that offers its hash, or needed, in target order. */
  ghost predicate Splits(sources: seq<Manifest>, target: seq<Block>, plan: ContentPlan)
    decreases |target|
  {
    if target == [] then plan == ContentPlan([], [])
    else
      var n := |target| - 1;
      var want := target[n];
      if Offers(sources, want.hash)
      then plan.reused != [] && plan.reused[|plan.reused| - 1].target == want.index
           && Comes(sources, plan.reused[|plan.reused| - 1], want.hash)
           && Splits(sources, target[..n], plan.(reused := plan.reused[..|plan.reused| - 1]))
      else plan.needed != [] && plan.needed[|plan.needed| - 1] == want
           && Splits(sources, target[..n], plan.(needed := plan.needed[..|plan.needed| - 1]))
  }

  method PlanContentDelta(sources: seq<Manifest>, target: Manifest) returns (plan: ContentPlan)
    ensures Splits(sources, target.blocks, plan)
  {
    var available: map<Digest, Reuse> := map[];
    for s := 0 to |sources|
      invariant forall h :: h in available <==> Offers(sources[..s], h)
      invariant forall h :: h in available ==> Comes(sources[..s], available[h], h)
    {
      available := AddSource(sources, s, available);
    }
    assert sources[..|sources|] == sources;
    plan := ContentPlan([], []);
    for i := 0 to |target.blocks|
      invariant Splits(sources, target.blocks[..i], plan)
    {
      var want := target.blocks[i];
      assert target.blocks[..i + 1][..i] == target.blocks[..i];
      if want.hash in available {
        var reuse := available[want.hash].(target := want.index);
        assert (plan.reused + [reuse])[..|plan.reused|] == plan.reused;
        plan := plan.(reused := plan.reused + [reuse]);
      } else {
        assert (plan.needed + [want])[..|plan.needed|] == plan.needed;
        plan := plan.(needed := plan.needed + [want]);
      }
    }
    assert target.blocks[..|target.blocks|] == target.blocks;
  }

  /** The first block with a hash stays. */
  method AddSource(sources: seq<Manifest>, s: nat, before: map<Digest, Reuse>) returns (available: map<Digest, Reuse>)
    requires s < |sources|
    requires forall h :: h in before <==> Offers(sources[..s], h)
    requires forall h :: h in before ==> Comes(sources[..s], before[h], h)
    ensures forall h :: h in available <==> Offers(sources[..s + 1], h)
    ensures forall h :: h in available ==> Comes(sources[..s + 1], available[h], h)
  {
    available := before;
    ghost var upto := sources[..s + 1];
    assert forall k :: 0 <= k < s ==> upto[k] == sources[..s][k];
    var source := sources[s];
    for i := 0 to |source.blocks|
      invariant forall h :: h in available <==>
                  Offers(sources[..s], h) || exists j :: 0 <= j < i && source.blocks[j].hash == h
      invariant forall h :: h in available ==> Comes(upto, available[h], h)
    {
      var block := source.blocks[i];
      assert upto[s] == source && upto[s].blocks[i] == block;
      if block.hash !in available {
        available := available[block.hash := Reuse(0, source.path, block.index)];
      }
    }
    assert upto[s] == source;
  }

  /** Nothing is needed exactly when some source offers every target block. */
  lemma {:induction false} NothingNeeded(sources: seq<Manifest>, target: seq<Block>, plan: ContentPlan)
    requires Splits(sources, target, plan)
    ensures plan.needed == [] <==> forall i :: 0 <= i < |target| ==> Offers(sources, target[i].hash)
    decreases |target|
  {
    if target != [] {
      var n := |target| - 1;
      var rest := if Offers(sources, target[n].hash)
                  then plan.(reused := plan.reused[..|plan.reused| - 1])
                  else plan.(needed := plan.needed[..|plan.needed| - 1]);
      NothingNeeded(sources, target[..n], rest);
      if Offers(sources, target[n].hash) {
        assert forall i :: 0 <= i < n ==> target[..n][i] == target[i];
      }
    }
  }
}
