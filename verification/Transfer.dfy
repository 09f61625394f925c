/** Block lists of files in transfer, and patching a block from the sub-blocks that differ. */
module Transfer {
  import opened Outcomes
  import opened Bytes
  import opened Blocks

  const TRANSFER_BLOCK: nat := 4194304
  const SUB_BLOCK: nat := 131072
  const READ_BUFFER: nat := 32768

  // ---------------------------------------------------------------- block lists

  datatype Description = Description(hash: Digest, size: nat, blocks: seq<Block>)

  /** Hashes `size` bytes of a stream; a stream that ends early is an error. */
  method BlocksOf(stream: Data, size: int) returns (r: Result<Description>)
    ensures r.Ok? <==> 0 <= size <= |stream|
    ensures r.Ok? ==> r.value == Description(Sha256(stream[..size]), size, Cut(stream[..size], TRANSFER_BLOCK))
  {
    if size < 0 {
      return Err("negative size");
    }
    ghost var data := stream[..Min(size, |stream|)];
    var hashed: Data, blocks: seq<Block>, read := [], [], 0;
    ghost var index := 0;
    while read < size
      invariant 0 <= read <= |data| && hashed == stream[..read] && |blocks| == index
      invariant read == Min(index * TRANSFER_BLOCK, size)
      invariant |data| == size ==> index <= Count(size, TRANSFER_BLOCK) && blocks == Cut(data, TRANSFER_BLOCK)[..index]
    {
      CountIsLeast(size, TRANSFER_BLOCK, index);
      var want := Min(TRANSFER_BLOCK, size - read);
      if read + want > |stream| {
        return Err("unexpected end of stream");
      }
      var piece := stream[read..read + want];
      assert read == index * TRANSFER_BLOCK;
      assert piece == data[read..read + want];
      if |data| == size {
        assert Cut(data, TRANSFER_BLOCK)[index] == CutBlock(data, TRANSFER_BLOCK, index);
      }
      blocks := blocks + [Block(|blocks|, read, want, Sha256(piece))];
      hashed := hashed + piece;
      assert (index + 1) * TRANSFER_BLOCK == index * TRANSFER_BLOCK + TRANSFER_BLOCK;
      index := index + 1;
      read := read + want;
    }
    CountIsLeast(size, TRANSFER_BLOCK, index);
    assert data == stream[..size];
    r := Ok(Description(Sha256(hashed), read, blocks));
  }

  /** The hashes of a byte string's pieces of one size. */
  function SubHashes(data: Data, s: nat): (hashes: seq<Digest>)
    requires s > 0
    ensures |hashes| == Count(|data|, s)
    ensures forall i :: 0 <= i < |hashes| ==> hashes[i] == CutBlock(data, s, i).hash
  {
    seq(Count(|data|, s), i requires 0 <= i < Count(|data|, s) => CutBlock(data, s, i).hash)
  }

  /** Hashes one piece through a small buffer. */
  method HashPiece(stream: Data, start: nat, take: nat) returns (r: Result<Digest>)
    requires start <= |stream|
    ensures r.Ok? <==> start + take <= |stream|
    ensures r.Ok? ==> r.value == Sha256(stream[start..start + take])
  {
    var hashed: Data, left := [], take;
    while left > 0
      invariant 0 <= left <= take && start + (take - left) <= |stream|
      invariant hashed == stream[start..start + (take - left)]
    {
      var chunk := Min(READ_BUFFER, left);
      var from := start + (take - left);
      if from + chunk > |stream| {
        return Err("unexpected end of stream");
      }
      hashed := hashed + stream[from..from + chunk];
      left := left - chunk;
    }
    r := Ok(Sha256(hashed));
  }

  method HashSubs(stream: Data, n: int, subSize: int) returns (r: Result<seq<Digest>>)
    ensures r.Ok? <==> 0 <= n <= |stream|
    ensures r.Ok? ==> r.value == SubHashes(stream[..n], if subSize <= 0 then SUB_BLOCK else subSize)
  {
    if n < 0 {
      return Err("negative length");
    }
    var s: nat := if subSize <= 0 then SUB_BLOCK else subSize;
    var hashes: seq<Digest>, remain := [], n;
    ghost var data := stream[..Min(n, |stream|)];
    while remain > 0
      invariant 0 <= remain <= n && n - remain <= |data|
      invariant n - remain == Min(|hashes| * s, n)
      invariant |data| == n ==> |hashes| <= Count(n, s) && hashes == SubHashes(data, s)[..|hashes|]
    {
      NextPiece(n, s, |hashes|);
      var take := Min(s, remain);
      var piece := HashPiece(stream, n - remain, take);
      if piece.Err? {
        return Err(piece.message);
      }
      if |data| == n {
        NextHash(stream, n, s, |hashes|);
      }
      hashes := hashes + [piece.value];
      remain := remain - take;
    }
    CountIsLeast(n, s, |hashes|);
    assert data == stream[..n];
    r := Ok(hashes);
  }

  lemma NextPiece(n: nat, s: nat, i: nat)
    requires s > 0 && i * s < n
    ensures i < Count(n, s) && Min((i + 1) * s, n) == i * s + Min(s, n - i * s)
  {
    CountIsLeast(n, s, i);
    assert (i + 1) * s == i * s + s;
  }

  lemma NextHash(stream: Data, n: nat, s: nat, i: nat)
    requires s > 0 && n <= |stream| && i * s < n
    ensures i < Count(n, s) && SubHashes(stream[..n], s)[i] == Sha256(stream[i * s..i * s + Min(s, n - i * s)])
  {
    CountIsLeast(n, s, i);
    var start, size := i * s, CutSize(n, s, i);
    assert stream[..n][start..start + size] == stream[start..start + size];
  }

  // ---------------------------------------------------------------- sub-block patches

  predicate PreferSubRanges(diffBytes: int, blockSize: int, ranges: int) {
    ranges > 0 && diffBytes > 0 && blockSize > 0 && diffBytes < blockSize && diffBytes * 4 <= blockSize
  }

  function SubLength(blockSize: int, index: int): int {
    var remain := blockSize - index * SUB_BLOCK;
    if remain < SUB_BLOCK then remain else SUB_BLOCK
  }

  /** The bytes in sub-blocks, among the first `n`, whose hashes differ. */
  function DiffBytes(blockSize: nat, a: seq<Digest>, b: seq<Digest>, n: nat): int
    requires n <= |a| && n <= |b|
  {
    if n == 0 then 0
    else DiffBytes(blockSize, a, b, n - 1) + (if a[n - 1] == b[n - 1] then 0 else SubLength(blockSize, n - 1))
  }

  function Lengths(blockSize: nat, diff: seq<nat>, n: nat): int
    requires n <= |diff|
  {
    if n == 0 then 0 else Lengths(blockSize, diff, n - 1) + SubLength(blockSize, diff[n - 1])
  }

  lemma {:induction false} SameLengths(blockSize: nat, a: seq<nat>, b: seq<nat>, n: nat)
    requires n <= |a| && n <= |b| && forall k :: 0 <= k < n ==> a[k] == b[k]
    ensures Lengths(blockSize, a, n) == Lengths(blockSize, b, n)
  {
    if n > 0 {
      SameLengths(blockSize, a, b, n - 1);
    }
  }

  datatype Patched = Patched(data: Data, moved: int)

  /** The peer's answers: its sub-block hashes, and each sub-block. */
  datatype Peer = Peer(hashes: Option<seq<Digest>>, piece: nat -> Option<Data>)

  /** The peer answers from a block with these bytes, which are the ones the block list names. */
  ghost predicate Honest(peer: Peer, block: Block, remote: Data) {
    && block.hash == Sha256(remote) && |remote| == block.size
    && peer.hashes == Some(SubHashes(remote, SUB_BLOCK))
    && forall i: nat :: i < Count(|remote|, SUB_BLOCK) ==> PieceOf(peer, remote, i)
  }

  ghost predicate PieceOf(peer: Peer, remote: Data, i: nat)
    requires i < Count(|remote|, SUB_BLOCK)
  {
    peer.piece(i) == Some(CutBlock(remote, SUB_BLOCK, i).hash.preimage)
  }

  method Differences(blockSize: nat, local: seq<Digest>, remote: seq<Digest>) returns (diff: seq<nat>, bytes: int)
    requires |local| == |remote|
    ensures forall i: nat :: i in diff <==> i < |local| && local[i] != remote[i]
    ensures forall k :: 0 <= k < |diff| ==> diff[k] < |local|
    ensures bytes == DiffBytes(blockSize, local, remote, |local|) == Lengths(blockSize, diff, |diff|)
  {
    diff, bytes := [], 0;
    for i := 0 to |remote|
      invariant forall j: nat :: j in diff <==> j < i && local[j] != remote[j]
      invariant forall k :: 0 <= k < |diff| ==> diff[k] < |local|
      invariant bytes == DiffBytes(blockSize, local, remote, i) == Lengths(blockSize, diff, |diff|)
    {
      if local[i] != remote[i] {
        SameLengths(blockSize, diff, diff + [i], |diff|);
        diff := diff + [i];
        bytes := bytes + SubLength(blockSize, i);
      }
    }
  }

  /** The client's sub-block length is the length of that piece of the block. */
  lemma SubLengthIsCutSize(size: nat, i: nat)
    ensures i < Count(size, SUB_BLOCK) ==>
              SubLength(size, i) == CutSize(size, SUB_BLOCK, i) > 0 && i * SUB_BLOCK + SubLength(size, i) <= size
    ensures i < Count(size, SUB_BLOCK) <==> i * SUB_BLOCK < size
  {
  }

  /** Every piece that did not differ, or has been fetched, is the remote one. */
  ghost predicate PatchedUpTo(buf: Data, remote: Data, diff: seq<nat>, k: nat)
    requires k <= |diff|
  {
    forall i :: 0 <= i < Count(|remote|, SUB_BLOCK) && (i !in diff || i in diff[..k]) ==>
      Verifies(buf, Cut(remote, SUB_BLOCK)[i])
  }

  lemma PatchStarts(held: Data, remote: Data, diff: seq<nat>)
    requires |held| == |remote|
    requires forall i: nat :: i in diff <==>
               i < Count(|held|, SUB_BLOCK) && SubHashes(held, SUB_BLOCK)[i] != SubHashes(remote, SUB_BLOCK)[i]
    ensures PatchedUpTo(held, remote, diff, 0)
  {
  }

  lemma PatchGoesOn(buf: Data, remote: Data, diff: seq<nat>, k: nat)
    requires k < |diff| && diff[k] < Count(|remote|, SUB_BLOCK) && PatchedUpTo(buf, remote, diff, k)
    ensures PatchedUpTo(WriteAt(buf, diff[k] * SUB_BLOCK, CutBlock(remote, SUB_BLOCK, diff[k]).hash.preimage), remote,
                        diff, k + 1)
  {
    var pieces, d := Cut(remote, SUB_BLOCK), diff[k];
    CutCovers(remote, SUB_BLOCK);
    var next := WriteAt(buf, d * SUB_BLOCK, CutBlock(remote, SUB_BLOCK, d).hash.preimage);
    assert pieces[d] == CutBlock(remote, SUB_BLOCK, d);
    forall i | 0 <= i < |pieces| && (i !in diff || i in diff[..k + 1]) ensures Verifies(next, pieces[i]) {
      assert i in diff[..k + 1] ==> i in diff[..k] || i == d;
      WriteOneBlock(buf, pieces, d, i);
    }
  }

  lemma PatchEnds(buf: Data, remote: Data, diff: seq<nat>)
    requires |buf| == |remote| && PatchedUpTo(buf, remote, diff, |diff|)
    ensures buf == remote
  {
    assert diff[..|diff|] == diff;
    CutDetermines(remote, SUB_BLOCK, buf);
  }

  /** Fetches the differing pieces over a copy of the held block. */
  method FetchPieces(block: Block, held: Data, hashes: seq<Digest>, peer: Peer, diff: seq<nat>, ghost remote: Data)
    returns (r: Option<Patched>)
    requires |held| == block.size && |hashes| == Count(block.size, SUB_BLOCK)
    requires forall k :: 0 <= k < |diff| ==> diff[k] < |hashes|
    ensures r.Some? ==> |r.value.data| == block.size && r.value.moved == Lengths(block.size, diff, |diff|)
    ensures Honest(peer, block, remote) && hashes == peer.hashes.value && PatchedUpTo(held, remote, diff, 0)
            ==> r.Some? && r.value.data == remote
  {
    var buf, moved := held, 0;
    ghost var sure := Honest(peer, block, remote) && hashes == peer.hashes.value && PatchedUpTo(held, remote, diff, 0);
    for k := 0 to |diff|
      invariant |buf| == block.size && moved == Lengths(block.size, diff, k)
      invariant sure ==> PatchedUpTo(buf, remote, diff, k)
    {
      var i := diff[k];
      SubLengthIsCutSize(block.size, i);
      var piece := peer.piece(i);
      if sure {
        assert PieceOf(peer, remote, i);
        PatchGoesOn(buf, remote, diff, k);
      }
      if piece.None? || |piece.value| != SubLength(block.size, i) || Sha256(piece.value) != hashes[i] {
        return None;
      }
      buf := WriteAt(buf, i * SUB_BLOCK, piece.value);
      moved := moved + |piece.value|;
    }
    if sure {
      PatchEnds(buf, remote, diff);
    }
    r := Some(Patched(buf, moved));
  }

  /** A patch gives the named bytes for at most a quarter of the transfer. With an honest peer it never
      fails once chosen, and it is chosen exactly when the differing pieces are small enough. */
  method TrySubBlock(block: Block, held: Option<Data>, peer: Peer, ghost remote: Data) returns (r: Option<Patched>)
    requires held.Some? ==> |held.value| == block.size
    ensures r.Some? ==>
              Sha256(r.value.data) == block.hash && |r.value.data| == block.size && r.value.moved * 4 <= block.size
    ensures Honest(peer, block, remote) && held.Some? && block.size > SUB_BLOCK ==>
              var bytes := DiffBytes(block.size, SubHashes(held.value, SUB_BLOCK), SubHashes(remote, SUB_BLOCK),
                                     Count(block.size, SUB_BLOCK));
              r == if bytes * 4 <= block.size then Some(Patched(remote, bytes)) else None
    ensures held.None? || block.size <= SUB_BLOCK ==> r.None?
  {
    if held.None? || block.size <= SUB_BLOCK {
      return None;
    }
    if Sha256(held.value) == block.hash {
      NoDifference(block.size, held.value);
      return Some(Patched(held.value, 0));
    }
    var local := HashSubs(held.value, |held.value|, SUB_BLOCK);
    assert held.value[..|held.value|] == held.value;
    if peer.hashes.None? || |peer.hashes.value| != |local.value| {
      return None;
    }
    var hashes := peer.hashes.value;
    var diff, bytes := Differences(block.size, local.value, hashes);
    if Honest(peer, block, remote) {
      PatchStarts(held.value, remote, diff);
      SomeDifference(block.size, held.value, remote, diff);
    }
    if !PreferSubRanges(bytes, block.size, |diff|) {
      return None;
    }
    r := FetchPieces(block, held.value, hashes, peer, diff, remote);
    if r.Some? && Sha256(r.value.data) != block.hash {
      r := None;
    }
  }

  lemma NoDifference(size: nat, data: Data)
    ensures DiffBytes(size, SubHashes(data, SUB_BLOCK), SubHashes(data, SUB_BLOCK), Count(|data|, SUB_BLOCK)) == 0
  {
    NoDifferenceUpTo(size, SubHashes(data, SUB_BLOCK), Count(|data|, SUB_BLOCK));
  }

  lemma {:induction false} NoDifferenceUpTo(size: nat, hashes: seq<Digest>, n: nat)
    requires n <= |hashes|
    ensures DiffBytes(size, hashes, hashes, n) == 0
  {
    if n > 0 {
      NoDifferenceUpTo(size, hashes, n - 1);
    }
  }

  /** Blocks that differ do so in some piece, and the differing pieces have bytes. */
  lemma SomeDifference(size: nat, held: Data, remote: Data, diff: seq<nat>)
    requires |held| == |remote| == size && held != remote && PatchedUpTo(held, remote, diff, 0)
    requires forall k :: 0 <= k < |diff| ==> diff[k] < Count(size, SUB_BLOCK)
    ensures diff != [] && Lengths(size, diff, |diff|) > 0
  {
    if diff == [] {
      PatchEnds(held, remote, diff);
    } else {
      PositiveLengths(size, diff, |diff|);
    }
  }

  lemma {:induction false} PositiveLengths(size: nat, diff: seq<nat>, n: nat)
    requires n <= |diff| && forall k :: 0 <= k < |diff| ==> diff[k] < Count(size, SUB_BLOCK)
    ensures Lengths(size, diff, n) >= n
  {
    if n > 0 {
      PositiveLengths(size, diff, n - 1);
      SubLengthIsCutSize(size, diff[n - 1]);
    }
  }
}
