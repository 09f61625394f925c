/** The byte ranges a server hands out for blocks and sub-blocks of a file. */
module Spans {
  import opened Outcomes
  import opened Bytes
  import opened Blocks

  datatype Span = Span(offset: int, length: int)

  /** The range of a block, or of a sub-block when `sub` is not negative; none when it is out of range. */
  function BlockSpan(fileSize: int, index: int, blockSize: int, sub: int, subSize: int): Option<Span> {
    SpanFrom(fileSize, index * blockSize, blockSize, sub >= 0, sub * subSize, subSize)
  }

  function SpanFrom(fileSize: int, start: int, blockSize: int, isSub: bool, rel: int, subSize: int): Option<Span> {
    if start < 0 || start >= fileSize then None
    else
      var blockLen := if fileSize - start > blockSize then blockSize else fileSize - start;
      if isSub && rel >= blockLen then None
      else
        var span := if isSub then Span(start + rel, if rel + subSize > blockLen then blockLen - rel else subSize)
                    else Span(start, blockLen);
        if span.length <= 0 then None else Some(span)
  }

  predicate Contains(span: Option<Span>, p: int) {
    span.Some? && span.value.offset <= p < span.value.offset + span.value.length
  }

  /** A server's block spans are the blocks a client cuts the same file into. */
  lemma SpanIsBlock(data: Data, b: nat, i: nat, subSize: int)
    requires b > 0
    ensures BlockSpan(|data|, i, b, -1, subSize) ==
            if i < Count(|data|, b) then Some(Span(Cut(data, b)[i].offset, Cut(data, b)[i].size)) else None
  {
    CountIsLeast(|data|, b, i);
    assert i * b >= 0;
    if i < Count(|data|, b) {
      assert Cut(data, b)[i] == CutBlock(data, b, i);
    }
  }

  /** A server's sub-block spans are the sub-blocks a client cuts that block into. */
  lemma SpanIsSubBlock(data: Data, b: nat, i: nat, s: nat, j: nat)
    requires b > 0 && s > 0 && i < Count(|data|, b)
    ensures var block := Cut(data, b)[i];
            BlockSpan(|data|, i, b, j, s) ==
            if j < Count(block.size, s) then Some(Span(block.offset + j * s, CutSize(block.size, s, j))) else None
  {
    CountIsLeast(|data|, b, i);
    var block := Cut(data, b)[i];
    assert block.offset == i * b >= 0 && block.size == Min(b, |data| - i * b) by {
      assert block == CutBlock(data, b, i);
    }
    CountIsLeast(block.size, s, j);
    assert j * s >= 0;
  }

  lemma Monotone(x: nat, y: nat, b: nat)
    requires x <= y
    ensures x * b <= y * b
  {
  }

  lemma QuotientIsUnique(p: nat, b: nat, i: nat)
    requires b > 0
    ensures i * b <= p < i * b + b <==> i == p / b
  {
    var q := p / b;
    assert q * b <= p < q * b + b;
    if i < q {
      Monotone(i + 1, q, b);
    } else if i > q {
      Monotone(q + 1, i, b);
    }
  }

  /** Every byte of a file is in exactly one block span. */
  lemma BlocksPartitionTheFile(n: nat, b: nat, p: nat, i: nat)
    requires b > 0
    ensures Contains(BlockSpan(n, i, b, -1, 0), p) <==> p < n && i == p / b
  {
    QuotientIsUnique(p, b, i);
    assert i * b >= 0;
  }

  /** Every byte of a file is in exactly one sub-block span of exactly one block. */
  lemma SubBlocksPartitionTheFile(n: nat, b: nat, s: nat, p: nat, i: nat, j: nat)
    requires b > 0 && s > 0
    ensures Contains(BlockSpan(n, i, b, j, s), p) <==> p < n && i == p / b && j == (p - i * b) / s
  {
    QuotientIsUnique(p, b, i);
    assert i * b >= 0 && j * s >= 0;
    if i * b <= p {
      QuotientIsUnique(p - i * b, s, j);
    }
  }
}
