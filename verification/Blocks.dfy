/** Files cut into blocks of one size, the last one possibly shorter. */
module Blocks {
  import opened Bytes

  datatype Block = Block(index: nat, offset: nat, size: nat, hash: Digest)

  // ---------------------------------------------------------------- block arithmetic

  /** How many blocks of `b` bytes a file of `n` bytes has. */
  function Count(n: nat, b: nat): nat
    requires b > 0
  {
    (n + b - 1) / b
  }

  lemma CountIsLeast(n: nat, b: nat, i: nat)
    requires b > 0
    ensures i < Count(n, b) <==> i * b < n
  {
    var c := Count(n, b);
    assert c * b <= n + b - 1 < c * b + b;
    if i < c {
      assert i * b <= (c - 1) * b;
    } else {
      assert i * b >= c * b;
    }
  }

  function CutSize(n: nat, b: nat, i: nat): int {
    Min(b, n - i * b)
  }

  function CutBlock(data: Data, b: nat, i: nat): Block
    requires b > 0 && i < Count(|data|, b)
  {
    CountIsLeast(|data|, b, i);
    Block(i, i * b, CutSize(|data|, b, i), Sha256(Part(data, i * b, CutSize(|data|, b, i))))
  }

  /** The block list of a file. */
  function Cut(data: Data, b: nat): (blocks: seq<Block>)
    requires b > 0
    ensures |blocks| == Count(|data|, b)
    ensures forall i :: 0 <= i < |blocks| ==> blocks[i] == CutBlock(data, b, i)
  {
    seq(Count(|data|, b), i requires 0 <= i < Count(|data|, b) => CutBlock(data, b, i))
  }

  // ---------------------------------------------------------------- block lists and the bytes they stand for

  function Start(blocks: seq<Block>, i: nat): nat
    requires i <= |blocks|
  {
    if i == 0 then 0 else Start(blocks, i - 1) + blocks[i - 1].size
  }

  predicate Placed(blocks: seq<Block>, i: nat)
    requires i < |blocks|
  {
    blocks[i].index == i && blocks[i].offset == Start(blocks, i)
  }

  /** Every block starts where the one before it ends. */
  predicate Contiguous(blocks: seq<Block>) {
    forall i :: 0 <= i < |blocks| ==> Placed(blocks, i)
  }

  /** Every hash is the hash of as many bytes as the block says. */
  predicate WellSized(blocks: seq<Block>) {
    forall i :: 0 <= i < |blocks| ==> |blocks[i].hash.preimage| == blocks[i].size
  }

  predicate NonEmpty(blocks: seq<Block>) {
    forall i :: 0 <= i < |blocks| ==> blocks[i].size > 0
  }

  /** The file holds this block's bytes at its offset. */
  predicate Verifies(file: Data, block: Block) {
    Within(file, block.offset, block.size) && Sha256(Part(file, block.offset, block.size)) == block.hash
  }

  predicate AllVerify(file: Data, blocks: seq<Block>) {
    forall i :: 0 <= i < |blocks| ==> Verifies(file, blocks[i])
  }

  /** The bytes of the first `n` blocks, one after another. */
  function Join(blocks: seq<Block>, n: nat): Data
    requires n <= |blocks|
  {
    if n == 0 then [] else Join(blocks, n - 1) + blocks[n - 1].hash.preimage
  }

  function Joined(blocks: seq<Block>): Data {
    Join(blocks, |blocks|)
  }

  lemma {:induction false} StartsAscend(blocks: seq<Block>, i: nat, j: nat)
    requires i < j <= |blocks|
    ensures Start(blocks, i) + blocks[i].size <= Start(blocks, j)
  {
    if i < j - 1 {
      StartsAscend(blocks, i, j - 1);
    }
  }

  /** A file in which every block of a contiguous list verifies begins with the joined blocks. */
  lemma {:induction false} VerifiedPrefix(file: Data, blocks: seq<Block>, n: nat)
    requires Contiguous(blocks) && AllVerify(file, blocks) && n <= |blocks|
    ensures Start(blocks, n) <= |file| && file[..Start(blocks, n)] == Join(blocks, n)
  {
    if n > 0 {
      VerifiedPrefix(file, blocks, n - 1);
      var last := blocks[n - 1];
      assert Verifies(file, last) && Placed(blocks, n - 1);
      PrefixGrows(file, last.offset, last.size);
    }
  }

  /** A file of the right length has these blocks exactly when it is their concatenation and the
      hashes are of as many bytes as the list says. */
  lemma VerifiedIsJoined(file: Data, blocks: seq<Block>)
    requires Contiguous(blocks) && |file| == Start(blocks, |blocks|)
    ensures AllVerify(file, blocks) <==> file == Joined(blocks) && WellSized(blocks)
  {
    if AllVerify(file, blocks) {
      VerifiedPrefix(file, blocks, |blocks|);
      assert file[..|file|] == file;
      forall i | 0 <= i < |blocks| ensures |blocks[i].hash.preimage| == blocks[i].size {
        assert Verifies(file, blocks[i]);
      }
    }
    if file == Joined(blocks) && WellSized(blocks) {
      forall i | 0 <= i < |blocks| ensures Verifies(file, blocks[i]) {
        JoinedPart(blocks, i, |blocks|);
      }
    }
  }

  lemma {:induction false} JoinedPart(blocks: seq<Block>, i: nat, n: nat)
    requires Contiguous(blocks) && WellSized(blocks) && i < n <= |blocks|
    ensures |Join(blocks, n)| == Start(blocks, n) && Within(Join(blocks, n), blocks[i].offset, blocks[i].size)
    ensures Part(Join(blocks, n), blocks[i].offset, blocks[i].size) == blocks[i].hash.preimage
  {
    JoinLength(blocks, n - 1);
    JoinLength(blocks, n);
    assert Placed(blocks, i);
    var before, last := Join(blocks, n - 1), blocks[n - 1].hash.preimage;
    if i < n - 1 {
      JoinedPart(blocks, i, n - 1);
      PartOfPrefix(before, last, blocks[i].offset, blocks[i].size);
    } else {
      PartAtEnd(before, last);
    }
  }

  lemma {:induction false} JoinLength(blocks: seq<Block>, n: nat)
    requires WellSized(blocks) && n <= |blocks|
    ensures |Join(blocks, n)| == Start(blocks, n)
  {
    if n > 0 {
      JoinLength(blocks, n - 1);
    }
  }

  /** Writing one block in its place leaves the others. */
  lemma WriteOneBlock(file: Data, blocks: seq<Block>, k: nat, i: nat)
    requires Contiguous(blocks) && WellSized(blocks) && NonEmpty(blocks) && k < |blocks| && i < |blocks|
    requires i != k ==> Verifies(file, blocks[i])
    ensures Verifies(WriteAt(file, blocks[k].offset, blocks[k].hash.preimage), blocks[i])
  {
    var b := blocks[k];
    assert Placed(blocks, k) && Placed(blocks, i);
    if i == k {
      WrittenPart(file, b.offset, b.hash.preimage);
    } else {
      if i < k {
        StartsAscend(blocks, i, k);
      } else {
        StartsAscend(blocks, k, i);
      }
      OtherPart(file, b.offset, b.hash.preimage, blocks[i].offset, blocks[i].size);
    }
  }

  // ---------------------------------------------------------------- a file's own block list

  lemma {:induction false} CutStarts(data: Data, b: nat, i: nat)
    requires b > 0 && i <= Count(|data|, b)
    ensures Start(Cut(data, b), i) == Min(i * b, |data|)
    ensures i < Count(|data|, b) ==> i * b < |data|
  {
    CountIsLeast(|data|, b, i);
    if i > 0 {
      CountIsLeast(|data|, b, i - 1);
      CutStarts(data, b, i - 1);
      assert i * b == (i - 1) * b + b;
    }
  }

  lemma CutBlockVerifies(data: Data, b: nat, i: nat)
    requires b > 0 && i < Count(|data|, b)
    ensures var block := Cut(data, b)[i];
            Placed(Cut(data, b), i) && Verifies(data, block) && block.size > 0 && |block.hash.preimage| == block.size
  {
    CutStarts(data, b, i);
    CountIsLeast(|data|, b, i);
    assert Cut(data, b)[i] == CutBlock(data, b, i);
  }

  /** A file's block list is contiguous, covers the file, and verifies against it. */
  lemma CutCovers(data: Data, b: nat)
    requires b > 0
    ensures var blocks := Cut(data, b);
            && Contiguous(blocks) && Start(blocks, |blocks|) == |data| && AllVerify(data, blocks)
            && WellSized(blocks) && NonEmpty(blocks)
  {
    var blocks := Cut(data, b);
    CutStarts(data, b, |blocks|);
    CountIsLeast(|data|, b, |blocks|);
    assert forall i :: 0 <= i < |blocks| ==> Placed(blocks, i) && Verifies(data, blocks[i]) && blocks[i].size > 0
                                             && |blocks[i].hash.preimage| == blocks[i].size by {
      forall i | 0 <= i < |blocks|
        ensures Placed(blocks, i) && Verifies(data, blocks[i]) && blocks[i].size > 0 &&
                |blocks[i].hash.preimage| == blocks[i].size
      {
        CutBlockVerifies(data, b, i);
      }
    }
  }

  /** A file's block list determines its bytes: they are the blocks' bytes joined. */
  lemma CutDetermines(data: Data, b: nat, other: Data)
    requires b > 0
    ensures Joined(Cut(data, b)) == data
    ensures |other| == |data| && AllVerify(other, Cut(data, b)) <==> other == data
    ensures Cut(other, b) == Cut(data, b) <==> other == data
  {
    CutCovers(data, b);
    CutCovers(other, b);
    VerifiedIsJoined(data, Cut(data, b));
    if |other| == |data| {
      VerifiedIsJoined(other, Cut(data, b));
    }
    VerifiedIsJoined(other, Cut(other, b));
  }
}
