/** Small files in one response: the frame format, and sharing jobs between batches and single transfers. */
module Batch {
  import opened Outcomes
  import opened Bags
  import opened Bytes
  import opened Transfer
  import opened Download

  const BATCH_COUNT: nat := 32
  const BATCH_BYTES: nat := 262144
  const PATH_BYTES: nat := 4096

  datatype File = File(path: Data, body: Data)

  predicate FitsFrame(f: File) {
    0 < |f.path| <= PATH_BYTES && |f.body| <= TRANSFER_BLOCK
  }

  predicate AllFit(files: seq<File>) {
    forall i :: 0 <= i < |files| ==> FitsFrame(files[i])
  }

  // ---------------------------------------------------------------- frames

  /** Four bytes, the most significant first. */
  function Word(n: nat): (w: Data)
    requires n < 0x1_0000_0000
    ensures |w| == 4
  {
    var high, low := n / 0x1_0000, n % 0x1_0000;
    [high / 0x100, high % 0x100, low / 0x100, low % 0x100]
  }

  function Half(a: byte, b: byte): (n: nat)
    ensures n < 0x1_0000
  {
    var x: int, y: int := a, b;
    x * 0x100 + y
  }

  function Number(w: Data): (n: nat)
    requires |w| == 4
    ensures n < 0x1_0000_0000
  {
    Half(w[0], w[1]) * 0x1_0000 + Half(w[2], w[3])
  }

  lemma WordNumber(n: nat, w: Data)
    requires n < 0x1_0000_0000 && |w| == 4
    ensures Number(Word(n)) == n && Word(Number(w)) == w
  {
  }

  function Frame(f: File): Data
    requires FitsFrame(f)
  {
    Word(|f.path|) + f.path + Word(|f.body|) + f.body
  }

  /** A frame is the path's length, the path, the body's length and the body, lengths as four bytes with the
      most significant first. */
  lemma FrameLayout(f: File)
    requires FitsFrame(f)
    ensures var s, n := Frame(f), |f.path|;
            && |s| == 8 + n + |f.body|
            && s[0] as int * 0x1_00_0000 + s[1] as int * 0x1_0000 + s[2] as int * 0x100 + s[3] as int == n
            && s[4..4 + n] == f.path
            && s[4 + n] as int * 0x1_00_0000 + s[5 + n] as int * 0x1_0000 + s[6 + n] as int * 0x100 + s[7 + n] as int
               == |f.body|
            && s[8 + n..] == f.body
  {
    WordIsBigEndian(|f.path|);
    WordIsBigEndian(|f.body|);
  }

  lemma WordIsBigEndian(n: nat)
    requires n < 0x1_0000_0000
    ensures var w := Word(n);
            w[0] as int * 0x1_00_0000 + w[1] as int * 0x1_0000 + w[2] as int * 0x100 + w[3] as int == n
  {
  }

  function Encode(files: seq<File>): Data
    requires AllFit(files)
  {
    if files == [] then [] else Frame(files[0]) + Encode(files[1..])
  }

  lemma {:induction false} EncodeAppends(files: seq<File>, f: File)
    requires AllFit(files) && FitsFrame(f)
    ensures AllFit(files + [f]) && Encode(files + [f]) == Encode(files) + Frame(f)
  {
    var more := files + [f];
    if files == [] {
      assert more[0] == f && more[1..] == [];
    } else {
      EncodeAppends(files[1..], f);
      assert more[0] == files[0] && more[1..] == files[1..] + [f];
      Regroup(Frame(files[0]), Encode(files[1..]), Frame(f));
    }
  }

  lemma Regroup<T>(a: seq<T>, b: seq<T>, c: seq<T>)
    ensures a + b + c == a + (b + c)
  {
  }

  /** The files before the first that does not fit. */
  function FittingPrefix(files: seq<File>): (n: nat)
    ensures n <= |files| && AllFit(files[..n]) && (n < |files| ==> !FitsFrame(files[n]))
  {
    if files == [] then 0
    else
      var n := FittingPrefix(files[..|files| - 1]);
      assert files[..|files| - 1][..n] == files[..n];
      if n == |files| - 1 && FitsFrame(files[n]) then n + 1 else n
  }

  method WriteFileBatch(files: seq<File>) returns (ok: bool, out: Data)
    ensures ok <==> AllFit(files)
    ensures ok <==> forall i :: 0 <= i < |files| ==> 0 < |files[i].path| <= 4096 && |files[i].body| <= 4194304
    ensures out == Encode(files[..FittingPrefix(files)])
  {
    out := [];
    for i := 0 to |files|
      invariant AllFit(files[..i]) && out == Encode(files[..i])
    {
      var f := files[i];
      if |f.path| == 0 || |f.path| > PATH_BYTES || |f.body| > TRANSFER_BLOCK {
        FirstMisfit(files, i);
        return false, out;
      }
      assert files[..i + 1] == files[..i] + [f];
      EncodeAppends(files[..i], f);
      out := out + (Word(|f.path|) + f.path + Word(|f.body|) + f.body);
    }
    FirstMisfit(files, |files|);
    assert files[..|files|] == files;
    ok := true;
  }

  lemma {:induction false} FirstMisfit(files: seq<File>, n: nat)
    requires n <= |files| && AllFit(files[..n]) && (n < |files| ==> !FitsFrame(files[n]))
    ensures FittingPrefix(files) == n
  {
  }

  // ---------------------------------------------------------------- reading

  datatype Parsed = Parsed(file: File, rest: Data)
  datatype Reading = Reading(files: seq<File>, ok: bool)

  /** One whole frame off the front, or nothing if the bytes end early or a length is out of bounds. */
  function ParseFrame(s: Data): Option<Parsed> {
    if |s| < 4 then None
    else
      var p := Number(s[..4]);
      if p == 0 || p > PATH_BYTES || |s| < 4 + p + 4 then None
      else
        var d := Number(s[4 + p..8 + p]);
        if d > TRANSFER_BLOCK || |s| < 8 + p + d then None
        else Some(Parsed(File(s[4..4 + p], s[8 + p..8 + p + d]), s[8 + p + d..]))
  }

  /** The files read so far are a result even when reading stops with an error. */
  function Parse(s: Data, count: nat): Reading
    decreases |s|
  {
    if s == [] then Reading([], true)
    else match ParseFrame(s)
         case None => Reading([], false)
         case Some(one) =>
           if count + 1 > BATCH_COUNT then Reading([one.file], false)
           else
             var more := Parse(one.rest, count + 1);
             Reading([one.file] + more.files, more.ok)
  }

  method ReadFileBatch(s: Data) returns (r: Reading)
    ensures r == Parse(s, 0)
  {
    var files: seq<File>, rest := [], s;
    while true
      invariant Continues(s, files, rest)
      decreases |rest|
    {
      if |rest| == 0 {
        return Reading(files, true);
      }
      var one := ReadFrame(rest);
      if one.None? {
        return Reading(files, false);
      }
      ContinuesOn(s, files, rest);
      rest := one.value.rest;
      files := files + [one.value.file];
      if |files| > BATCH_COUNT {
        return Reading(files, false);
      }
    }
  }

  /** Reading the whole stream gives the files so far, then what reading the rest gives. */
  ghost predicate Continues(s: Data, files: seq<File>, rest: Data) {
    Parse(s, 0) == Reading(files + Parse(rest, |files|).files, Parse(rest, |files|).ok)
  }

  lemma ContinuesOn(s: Data, files: seq<File>, rest: Data)
    requires Continues(s, files, rest) && ParseFrame(rest).Some?
    ensures var one := ParseFrame(rest).value;
            if |files| + 1 > BATCH_COUNT then Parse(s, 0) == Reading(files + [one.file], false)
            else Continues(s, files + [one.file], one.rest)
  {
    var one := ParseFrame(rest).value;
    assert rest != [];
    if |files| + 1 <= BATCH_COUNT {
      Regroup(files, [one.file], Parse(one.rest, |files| + 1).files);
    }
  }

  /** Length, path, length, body, each a read that must not run short. */
  method ReadFrame(s: Data) returns (r: Option<Parsed>)
    ensures r == ParseFrame(s)
    ensures r.Some? ==> |r.value.rest| < |s|
  {
    if |s| < 4 {
      return None;
    }
    var p := Number(s[..4]);
    if p == 0 || p > PATH_BYTES {
      return None;
    }
    var rest := s[4..];
    if |rest| < p {
      return None;
    }
    var path := rest[..p];
    rest := rest[p..];
    if |rest| < 4 {
      return None;
    }
    assert rest[..4] == s[4 + p..8 + p];
    var d := Number(rest[..4]);
    rest := rest[4..];
    if d > TRANSFER_BLOCK || |rest| < d {
      return None;
    }
    assert path == s[4..4 + p] && rest[..d] == s[8 + p..8 + p + d] && rest[d..] == s[8 + p + d..];
    r := Some(Parsed(File(path, rest[..d]), rest[d..]));
  }

  // ---------------------------------------------------------------- round trips

  /** A frame is read back, whatever follows, and only frames are read. */
  lemma FrameRoundTrip(f: File, rest: Data)
    requires FitsFrame(f)
    ensures ParseFrame(Frame(f) + rest) == Some(Parsed(f, rest))
  {
    var s := Frame(f) + rest;
    WordNumber(|f.path|, Word(0));
    WordNumber(|f.body|, Word(0));
    assert s[..4] == Word(|f.path|);
    assert s[4..4 + |f.path|] == f.path;
    assert s[4 + |f.path|..8 + |f.path|] == Word(|f.body|);
    assert s[8 + |f.path|..8 + |f.path| + |f.body|] == f.body;
    assert s[8 + |f.path| + |f.body|..] == rest;
  }

  lemma OnlyFramesAreRead(s: Data)
    requires ParseFrame(s).Some?
    ensures var one := ParseFrame(s).value; FitsFrame(one.file) && s == Frame(one.file) + one.rest
  {
    var p := Number(s[..4]);
    var d := Number(s[4 + p..8 + p]);
    WordNumber(p, s[..4]);
    WordNumber(d, s[4 + p..8 + p]);
    assert s == s[..4] + s[4..4 + p] + s[4 + p..8 + p] + s[8 + p..8 + p + d] + s[8 + p + d..];
  }

  lemma ParseFirst(files: seq<File>, count: nat)
    requires AllFit(files) && files != []
    ensures Parse(Encode(files), count) ==
            if count + 1 > BATCH_COUNT then Reading([files[0]], false)
            else var more := Parse(Encode(files[1..]), count + 1); Reading([files[0]] + more.files, more.ok)
  {
    FrameRoundTrip(files[0], Encode(files[1..]));
    assert Encode(files) != [];
  }

  /** All files, when they are no more than a batch may have; otherwise one too many, and an error. */
  function ReadBack(files: seq<File>, count: nat): Reading
    requires count <= BATCH_COUNT
  {
    if count + |files| <= BATCH_COUNT then Reading(files, true) else Reading(files[..BATCH_COUNT + 1 - count], false)
  }

  lemma ReadBackFirst(files: seq<File>, count: nat)
    requires files != [] && count <= BATCH_COUNT
    ensures ReadBack(files, count) ==
            if count + 1 > BATCH_COUNT then Reading([files[0]], false)
            else var more := ReadBack(files[1..], count + 1); Reading([files[0]] + more.files, more.ok)
  {
  }

  /** Reading what was written gives the same files, as many as a batch may have. */
  lemma {:induction false} BatchRoundTrip(files: seq<File>, count: nat)
    requires AllFit(files) && count <= BATCH_COUNT
    ensures Parse(Encode(files), count) == ReadBack(files, count)
    decreases |files|
  {
    if files != [] {
      ParseFirst(files, count);
      ReadBackFirst(files, count);
      if count < BATCH_COUNT {
        BatchRoundTrip(files[1..], count + 1);
      }
    }
  }

  lemma ParseGoesOn(s: Data, count: nat)
    requires s != [] && Parse(s, count).ok
    ensures ParseFrame(s).Some? && count + 1 <= BATCH_COUNT
    ensures var one := ParseFrame(s).value;
            && |one.rest| < |s| && Parse(one.rest, count + 1).ok
            && Parse(s, count).files == [one.file] + Parse(one.rest, count + 1).files
  {
  }

  lemma EncodeCons(f: File, files: seq<File>)
    requires FitsFrame(f) && AllFit(files)
    ensures AllFit([f] + files) && Encode([f] + files) == Frame(f) + Encode(files)
  {
    assert ([f] + files)[1..] == files;
  }

  lemma FrameThenBatch(s: Data, files: seq<File>)
    requires ParseFrame(s).Some? && AllFit(files) && ParseFrame(s).value.rest == Encode(files)
    ensures var all := [ParseFrame(s).value.file] + files; AllFit(all) && s == Encode(all)
  {
    OnlyFramesAreRead(s);
    EncodeCons(ParseFrame(s).value.file, files);
  }

  /** A stream is read without an error exactly when it is a batch of files that fit, no more than allowed. */
  lemma {:induction false} OnlyBatchesAreRead(s: Data, count: nat)
    requires count <= BATCH_COUNT && Parse(s, count).ok
    ensures var files := Parse(s, count).files; AllFit(files) && s == Encode(files) && count + |files| <= BATCH_COUNT
    decreases |s|
  {
    if s != [] {
      ParseGoesOn(s, count);
      var rest := ParseFrame(s).value.rest;
      OnlyBatchesAreRead(rest, count + 1);
      FrameThenBatch(s, Parse(rest, count + 1).files);
    }
  }

  /** The cut falls between two frames. */
  ghost predicate OnBoundary(files: seq<File>, p: nat)
    requires AllFit(files)
  {
    exists k :: 0 <= k <= |files| && p == |Encode(files[..k])|
  }

  lemma {:induction false} EncodeSplits(files: seq<File>, k: nat)
    requires AllFit(files) && k <= |files|
    ensures Encode(files) == Encode(files[..k]) + Encode(files[k..])
    decreases k
  {
    if k == 0 {
      assert files[..0] == [] && files[0..] == files;
    } else {
      EncodeSplits(files[1..], k - 1);
      assert files[..k][0] == files[0] && files[..k][1..] == files[1..][..k - 1] && files[1..][k - 1..] == files[k..];
      Regroup(Frame(files[0]), Encode(files[1..][..k - 1]), Encode(files[k..]));
    }
  }

  /** Two batches, one the beginning of the other, are lists of which one is the beginning of the other. */
  lemma {:induction false} EncodingIsPrefixFree(a: seq<File>, files: seq<File>, t: Data)
    requires AllFit(a) && AllFit(files) && Encode(files) == Encode(a) + t
    ensures |a| <= |files| && a == files[..|a|]
    decreases |a|
  {
    if a != [] {
      Regroup(Frame(a[0]), Encode(a[1..]), t);
      FrameRoundTrip(a[0], Encode(a[1..]) + t);
      assert files != [];
      FrameRoundTrip(files[0], Encode(files[1..]));
      EncodingIsPrefixFree(a[1..], files[1..], t);
      assert a == [a[0]] + a[1..] && files[..|a|] == [files[0]] + files[1..][..|a| - 1];
    }
  }

  lemma CutOnBoundary(files: seq<File>, k: nat)
    requires AllFit(files) && |files| <= BATCH_COUNT && k <= |files|
    ensures |Encode(files[..k])| <= |Encode(files)|
    ensures Parse(Encode(files)[..|Encode(files[..k])|], 0) == Reading(files[..k], true)
  {
    EncodeSplits(files, k);
    PrefixOfSum(Encode(files[..k]), Encode(files[k..]));
    BatchRoundTrip(files[..k], 0);
  }

  lemma PrefixOfSum<T>(a: seq<T>, b: seq<T>)
    ensures (a + b)[..|a|] == a
  {
  }

  lemma ReadCutIsOnBoundary(files: seq<File>, p: nat)
    requires AllFit(files) && p <= |Encode(files)| && Parse(Encode(files)[..p], 0).ok
    ensures OnBoundary(files, p)
  {
    var whole := Encode(files);
    var read := Parse(whole[..p], 0).files;
    OnlyBatchesAreRead(whole[..p], 0);
    EncodingIsPrefixFree(read, files, whole[p..]);
    assert files[..|read|] == read;
  }

  /** A truncated batch is an error unless the cut falls between two frames; then the files before it are read. */
  lemma TruncationIsDetected(files: seq<File>, p: nat)
    requires AllFit(files) && |files| <= BATCH_COUNT && p <= |Encode(files)|
    ensures Parse(Encode(files)[..p], 0).ok <==> OnBoundary(files, p)
    ensures forall k :: 0 <= k <= |files| && p == |Encode(files[..k])| ==>
              Parse(Encode(files)[..p], 0) == Reading(files[..k], true)
  {
    if Parse(Encode(files)[..p], 0).ok {
      ReadCutIsOnBoundary(files, p);
    }
    forall k | 0 <= k <= |files| && p == |Encode(files[..k])|
      ensures Parse(Encode(files)[..p], 0) == Reading(files[..k], true)
    {
      CutOnBoundary(files, k);
    }
  }

  // ---------------------------------------------------------------- sharing out the jobs

  datatype Job = Job(path: Data, entry: Entry)

  predicate Eligible(job: Job) {
    && 0 < job.entry.size <= BATCH_BYTES && |job.entry.blocks| == 1
    && job.entry.blocks[0].index == 0 && job.entry.blocks[0].size == job.entry.size
  }

  function Small(jobs: seq<Job>): seq<Job> {
    if jobs == [] then []
    else Small(jobs[..|jobs| - 1]) + (if Eligible(jobs[|jobs| - 1]) then [jobs[|jobs| - 1]] else [])
  }

  function Large(jobs: seq<Job>): seq<Job> {
    if jobs == [] then []
    else Large(jobs[..|jobs| - 1]) + (if Eligible(jobs[|jobs| - 1]) then [] else [jobs[|jobs| - 1]])
  }

  /** Some body in the answer is the file the job asks for. */
  predicate Delivers(bodies: map<Data, Data>, job: Job) {
    && job.path in bodies && Eligible(job)
    && Sha256(bodies[job.path]) == job.entry.blocks[0].hash && |bodies[job.path]| == job.entry.size
  }

  /** What a peer and the disk do: the answer to each request, and whether each small file could be written. */
  datatype Answers = Answers(batch: nat -> Option<map<Data, Data>>, writes: nat -> bool)

  /** The request that small file number `k` is in was answered, with its bytes, and they could be written. */
  predicate Arrives(answers: Answers, small: seq<Job>, k: nat)
    requires k < |small|
  {
    var answer := answers.batch(k / BATCH_COUNT);
    answer.Some? && Delivers(answer.value, small[k]) && answers.writes(k)
  }

  /** Those of the first `n` small files that arrive, in order. */
  function Applied(answers: Answers, small: seq<Job>, n: nat): seq<Job>
    requires n <= |small|
  {
    if n == 0 then []
    else Applied(answers, small, n - 1) + (if Arrives(answers, small, n - 1) then [small[n - 1]] else [])
  }

  /** Those that do not. */
  function LeftOver(answers: Answers, small: seq<Job>, n: nat): seq<Job>
    requires n <= |small|
  {
    if n == 0 then []
    else LeftOver(answers, small, n - 1) + (if Arrives(answers, small, n - 1) then [] else [small[n - 1]])
  }

  lemma {:induction false} NoneArrive(answers: Answers, small: seq<Job>, start: nat, end: nat)
    requires start <= end <= |small| && forall k :: start <= k < end ==> !Arrives(answers, small, k)
    ensures Applied(answers, small, end) == Applied(answers, small, start)
    ensures LeftOver(answers, small, end) == LeftOver(answers, small, start) + small[start..end]
  {
    if start < end {
      NoneArrive(answers, small, start, end - 1);
      assert small[start..end] == small[start..end - 1] + [small[end - 1]];
    }
  }

  function Sizes(jobs: seq<Job>): int {
    if jobs == [] then 0 else Sizes(jobs[..|jobs| - 1]) + jobs[|jobs| - 1].entry.size
  }

  /** Every job is applied once or left over once, applied jobs are small files, and what remains to be
      moved goes down by their sizes, never below zero. */
  ghost predicate SharesOut(jobs: seq<Job>, applied: seq<Job>, rest: seq<Job>, before: int, remaining: int) {
    && Shares(applied, rest, jobs)
    && AllEligible(applied)
    && remaining == if before < Sizes(applied) then 0 else before - Sizes(applied)
  }

  predicate AllEligible(jobs: seq<Job>) {
    forall i :: 0 <= i < |jobs| ==> Eligible(jobs[i])
  }

  lemma LeaveOne(jobs: seq<Job>, applied: seq<Job>, rest: seq<Job>, before: int, remaining: int, job: Job)
    requires SharesOut(jobs, applied, rest, before, remaining)
    ensures SharesOut(jobs + [job], applied, rest + [job], before, remaining)
  {
  }

  lemma ApplyOne(jobs: seq<Job>, applied: seq<Job>, rest: seq<Job>, before: int, remaining: int, job: Job)
    requires SharesOut(jobs, applied, rest, before, remaining) && Eligible(job) && before >= 0
    ensures SharesOut(jobs + [job], applied + [job], rest, before,
                      if remaining - job.entry.size < 0 then 0 else remaining - job.entry.size)
  {
  }

  /** A file of at most 256 KiB that is not empty and is its own only block. */
  predicate OneSmallBlock(entry: Entry) {
    0 < entry.size <= 262144 && |entry.blocks| == 1 && entry.blocks[0].index == 0 && entry.blocks[0].size == entry.size
  }

  lemma {:induction false} PartitionElements(jobs: seq<Job>)
    ensures forall job :: job in Small(jobs) <==> job in jobs && OneSmallBlock(job.entry)
    ensures forall job :: job in Large(jobs) <==> job in jobs && !OneSmallBlock(job.entry)
  {
    if jobs != [] {
      PartitionElements(jobs[..|jobs| - 1]);
      assert jobs == jobs[..|jobs| - 1] + [jobs[|jobs| - 1]];
    }
  }

  /** A small file is applied if its request was answered, the answer has its path with bytes of its hash and
      size, and they could be written; and only then. */
  lemma ArrivesExactlyWhen(answers: Answers, small: seq<Job>, k: nat)
    requires k < |small| && OneSmallBlock(small[k].entry)
    ensures Arrives(answers, small, k) <==>
              && answers.batch(k / 32).Some? && answers.writes(k)
              && var bodies, job := answers.batch(k / 32).value, small[k];
                 job.path in bodies && bodies[job.path] == job.entry.blocks[0].hash.preimage &&
                 |bodies[job.path]| == job.entry.size
  {
  }

  /** Splits the jobs by size, keeping their order. */
  method Partition(jobs: seq<Job>) returns (small: seq<Job>, rest: seq<Job>)
    ensures small == Small(jobs) && rest == Large(jobs) && Shares(small, rest, jobs) && AllEligible(small)
    ensures forall job :: job in small <==> job in jobs && OneSmallBlock(job.entry)
    ensures forall job :: job in rest <==> job in jobs && !OneSmallBlock(job.entry)
  {
    PartitionElements(jobs);
    small, rest := [], [];
    for i := 0 to |jobs|
      invariant small == Small(jobs[..i]) && rest == Large(jobs[..i]) && Shares(small, rest, jobs[..i]) &&
                AllEligible(small)
    {
      var job := jobs[i];
      assert jobs[..i + 1] == jobs[..i] + [job] && jobs[..i + 1][..i] == jobs[..i];
      if Eligible(job) {
        SharesMore(small, rest, jobs[..i], [job], [], [job]);
        assert rest + [] == rest;
        small := small + [job];
      } else {
        SharesMore(small, rest, jobs[..i], [], [job], [job]);
        assert small + [] == small;
        rest := rest + [job];
      }
    }
    assert jobs[..|jobs|] == jobs;
  }

  /** What one request adds to what is applied and what is left over. */
  ghost predicate Adds(answers: Answers, small: seq<Job>, start: nat, end: nat, done: seq<Job>, left: seq<Job>)
    requires start <= end <= |small|
  {
    && Applied(answers, small, end) == Applied(answers, small, start) + done
    && LeftOver(answers, small, end) == LeftOver(answers, small, start) + left
  }

  /** One request's files, numbers `start` to `end`: a file is applied exactly if the answer has its bytes and
      they can be written, and left over otherwise. */
  method ApplyChunk(small: seq<Job>, start: nat, end: nat, request: nat, answers: Answers, before: int)
    returns (done: seq<Job>, left: seq<Job>, remaining: int)
    requires before >= 0 && start == request * BATCH_COUNT && start <= end <= |small| && end <= start + BATCH_COUNT
    requires answers.batch(request).Some?
    ensures SharesOut(small[start..end], done, left, before, remaining)
    ensures Adds(answers, small, start, end, done, left)
  {
    var bodies := answers.batch(request).value;
    done, left, remaining := [], [], before;
    assert small[start..start] == [];
    for i := start to end
      invariant SharesOut(small[start..i], done, left, before, remaining)
      invariant Adds(answers, small, start, i, done, left)
    {
      var job := small[i];
      assert small[start..i + 1] == small[start..i] + [job];
      assert i / BATCH_COUNT == request;
      if !Delivers(bodies, job) || !answers.writes(i) {
        LeaveOne(small[start..i], done, left, before, remaining, job);
        Regroup(LeftOver(answers, small, start), left, [job]);
        left := left + [job];
      } else {
        ApplyOne(small[start..i], done, left, before, remaining, job);
        Regroup(Applied(answers, small, start), done, [job]);
        done := done + [job];
        remaining := if remaining - job.entry.size < 0 then 0 else remaining - job.entry.size;
      }
    }
  }

  /** Small files go in requests of at most 32; fewer than two of them are not worth one. Exactly the small
      files that arrive are applied, and every other job is left over. */
  method ApplySmallBatches(jobs: seq<Job>, answers: Answers, before: int)
    returns (applied: seq<Job>, rest: seq<Job>, remaining: int)
    requires before >= 0
    ensures SharesOut(jobs, applied, rest, before, remaining)
    ensures multiset(applied) + multiset(rest) == multiset(jobs)
    ensures |Small(jobs)| < 2 ==> applied == [] && rest == jobs
    ensures |Small(jobs)| >= 2 ==>
              var small := Small(jobs);
              applied == Applied(answers, small, |small|) && rest == Large(jobs) + LeftOver(answers, small, |small|)
  {
    var small;
    small, rest := Partition(jobs);
    if |small| < 2 {
      EverythingIsLeft([], jobs, jobs, before);
      assert jobs + [] == jobs;
      return [], jobs, before;
    }
    EverythingIsLeft(small, rest, jobs, before);
    applied, rest, remaining := ApplyRequests(jobs, small, rest, answers, before);
    SharesElements(applied, rest, jobs);
  }

  method ApplyRequests(ghost jobs: seq<Job>, small: seq<Job>, large: seq<Job>, answers: Answers, before: int)
    returns (applied: seq<Job>, rest: seq<Job>, remaining: int)
    requires before >= 0 && SharesOut(jobs, [], large + small, before, before)
    ensures SharesOut(jobs, applied, rest, before, remaining)
    ensures applied == Applied(answers, small, |small|) && rest == large + LeftOver(answers, small, |small|)
  {
    applied, rest, remaining := [], large, before;
    var start, request := 0, 0;
    assert small[0..] == small;
    while start < |small|
      invariant 0 <= start <= |small| && remaining >= 0 && start == Min(request * BATCH_COUNT, |small|)
      invariant SharesOut(jobs, applied, rest + small[start..], before, remaining)
      invariant applied == Applied(answers, small, start) && rest == large + LeftOver(answers, small, start)
    {
      var end := Min(start + BATCH_COUNT, |small|);
      var done, left, next := [], small[start..end], remaining;
      if answers.batch(request).Some? {
        done, left, next := ApplyChunk(small, start, end, request, answers, remaining);
      } else {
        Unanswered(answers, small, start, end, request, remaining);
      }
      MoveOn(jobs, applied, rest, small, start, end, done, left, before, remaining, next);
      Regroup(large, LeftOver(answers, small, start), left);
      applied, rest, remaining := applied + done, rest + left, next;
      start, request := end, request + 1;
    }
    assert rest + small[start..] == rest;
  }

  lemma Unanswered(answers: Answers, small: seq<Job>, start: nat, end: nat, request: nat, remaining: int)
    requires start == request * BATCH_COUNT && start <= end <= |small| && end <= start + BATCH_COUNT && remaining >= 0
    requires answers.batch(request).None?
    ensures Adds(answers, small, start, end, [], small[start..end])
    ensures SharesOut(small[start..end], [], small[start..end], remaining, remaining)
  {
    forall k | start <= k < end ensures !Arrives(answers, small, k) {
      assert k / BATCH_COUNT == request;
    }
    NoneArrive(answers, small, start, end);
  }

  lemma EverythingIsLeft(small: seq<Job>, rest: seq<Job>, jobs: seq<Job>, before: int)
    requires Shares(small, rest, jobs) && before >= 0
    ensures SharesOut(jobs, [], rest + small, before, before)
  {
    forall x ensures Tally<Job>([], x) + Tally(rest + small, x) == Tally(jobs, x) {
      TallyOfSum(rest, small, x);
    }
  }

  lemma {:induction false} SizesSplit(a: seq<Job>, b: seq<Job>)
    ensures Sizes(a + b) == Sizes(a) + Sizes(b)
  {
    if b == [] {
      assert a + b == a;
    } else {
      SizesSplit(a, b[..|b| - 1]);
      assert (a + b)[..|a + b| - 1] == a + b[..|b| - 1];
    }
  }

  lemma {:induction false} SizesAreNotNegative(jobs: seq<Job>)
    requires AllEligible(jobs)
    ensures Sizes(jobs) >= 0
  {
    if jobs != [] {
      SizesAreNotNegative(jobs[..|jobs| - 1]);
    }
  }

  /** What one request does to what is applied and what is left over. */
  lemma MoveOn(jobs: seq<Job>, applied: seq<Job>, rest: seq<Job>, small: seq<Job>, start: nat, end: nat,
               done: seq<Job>, left: seq<Job>, before: int, remaining: int, next: int)
    requires start <= end <= |small| && before >= 0
    requires SharesOut(jobs, applied, rest + small[start..], before, remaining)
    requires SharesOut(small[start..end], done, left, remaining, next)
    ensures SharesOut(jobs, applied + done, rest + left + small[end..], before, next) && next >= 0
  {
    assert small[start..] == small[start..end] + small[end..];
    SharesAgain(applied, rest, small[start..end], small[end..], jobs, done, left);
    SizesSplit(applied, done);
    SizesAreNotNegative(done);
    SizesAreNotNegative(applied);
  }
}
