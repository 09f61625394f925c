/** Byte strings, file contents and their SHA-256 digests. */
module Bytes {
  type byte = b: int | 0 <= b < 256
  type Data = seq<byte>

  /** A digest is modelled by what was hashed: SHA-256 (section 6.2 of FIPS 180-4) is taken to be injective. */
  datatype Digest = Sha256(preimage: Data)

  function Zeros(n: nat): (z: Data)
    ensures |z| == n
  {
    seq(n, i => 0)
  }

  function Min(a: int, b: int): int {
    if a < b then a else b
  }

  /** Writing at an offset; a gap after the old end reads as zeros, and writing nothing changes nothing. */
  function WriteAt(file: Data, offset: nat, data: Data): (after: Data)
    ensures data == [] ==> after == file
    ensures data != [] ==> |after| == if |file| < offset + |data| then offset + |data| else |file|
  {
    if data == [] then file
    else if |file| < offset then file + Zeros(offset - |file|) + data
    else if |file| <= offset + |data| then file[..offset] + data
    else file[..offset] + data + file[offset + |data|..]
  }

  predicate Within(file: Data, offset: nat, size: nat) {
    offset + size <= |file|
  }

  function Part(file: Data, offset: nat, size: nat): (part: Data)
    requires Within(file, offset, size)
    ensures |part| == size
  {
    file[offset..offset + size]
  }

  lemma WrittenPart(file: Data, offset: nat, data: Data)
    requires data != []
    ensures Part(WriteAt(file, offset, data), offset, |data|) == data
  {
  }

  lemma OtherPart(file: Data, offset: nat, data: Data, o: nat, n: nat)
    requires Within(file, o, n) && (o + n <= offset || offset + |data| <= o)
    ensures Within(WriteAt(file, offset, data), o, n)
    ensures Part(WriteAt(file, offset, data), o, n) == Part(file, o, n)
  {
  }

  /** Shortens the file, or extends it with zeros. */
  function Truncate(file: Data, size: nat): (after: Data)
    ensures |after| == size
  {
    if size <= |file| then file[..size] else file + Zeros(size - |file|)
  }

  lemma PartOfPrefix(a: Data, c: Data, offset: nat, size: nat)
    requires Within(a, offset, size)
    ensures Part(a + c, offset, size) == Part(a, offset, size)
  {
  }

  lemma PartAtEnd(a: Data, c: Data)
    ensures Part(a + c, |a|, |c|) == c
  {
  }

  lemma PrefixGrows(file: Data, n: nat, size: nat)
    requires Within(file, n, size)
    ensures file[..n + size] == file[..n] + Part(file, n, size)
  {
  }
}
