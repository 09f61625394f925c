/** Rebuilding files from blocks: from local files that still hold them, and from the backup archive. */
module Assembly {
  import opened Outcomes
  import opened Bytes
  import opened Blocks
  import opened ArchiveBlocks
  import opened Manifests

  type Files = map<Path, Data>

  // ---------------------------------------------------------------- assembly from local blocks

  datatype Key = Key(size: nat, hash: Digest)
  datatype Source = Source(path: Path, block: Block)

  function KeyOf(b: Block): Key {
    Key(b.size, b.hash)
  }

  predicate Supplies(sources: seq<Manifest>, from: Source) {
    exists s, i :: 0 <= s < |sources| && 0 <= i < |sources[s].blocks| &&
      from == Source(sources[s].path, sources[s].blocks[i])
  }

  predicate HasKey(sources: seq<Manifest>, key: Key) {
    exists s, i :: 0 <= s < |sources| && 0 <= i < |sources[s].blocks| && KeyOf(sources[s].blocks[i]) == key
  }

  /** Every key on offer, each with a block that has it. */
  ghost predicate Indexes(sources: seq<Manifest>, index: map<Key, Source>) {
    && (forall k :: k in index <==> HasKey(sources, k))
    && (forall k :: k in index ==> KeyOf(index[k].block) == k && Supplies(sources, index[k]))
  }

  /** The first block with a key wins. */
  method IndexSources(sources: seq<Manifest>) returns (index: map<Key, Source>)
    ensures Indexes(sources, index)
  {
    index := map[];
    for s := 0 to |sources|
      invariant forall k :: k in index <==> HasKey(sources[..s], k)
      invariant forall k :: k in index ==> KeyOf(index[k].block) == k && Supplies(sources, index[k])
    {
      var m := sources[s];
      ghost var upto := sources[..s + 1];
      assert upto[s] == m && forall j :: 0 <= j < s ==> upto[j] == sources[..s][j];
      for i := 0 to |m.blocks|
        invariant forall k :: k in index <==>
                    HasKey(sources[..s], k) || exists j :: 0 <= j < i && KeyOf(m.blocks[j]) == k
        invariant forall k :: k in index ==> KeyOf(index[k].block) == k && Supplies(sources, index[k])
      {
        var key := KeyOf(m.blocks[i]);
        assert m == sources[s];
        if key !in index {
          index := index[key := Source(m.path, m.blocks[i])];
        }
      }
    }
    assert sources[..|sources|] == sources;
  }

  /** Every source manifest still describes its file. */
  ghost predicate Unchanged(files: Files, sources: seq<Manifest>) {
    forall s :: 0 <= s < |sources| ==> sources[s].path in files && Describes(sources[s], files[sources[s].path])
  }

  lemma UnchangedSourceVerifies(files: Files, sources: seq<Manifest>, from: Source)
    requires Unchanged(files, sources) && Supplies(sources, from)
    ensures from.path in files && Verifies(files[from.path], from.block)
  {
  }

  /** With unchanged sources a hash on offer is on offer under its size too. */
  lemma OfferedHashHasKey(files: Files, sources: seq<Manifest>, want: Block)
    requires Unchanged(files, sources) && Offers(sources, want.hash) && |want.hash.preimage| == want.size
    ensures HasKey(sources, KeyOf(want))
  {
  }

  method CopyBlock(files: Files, staged: Data, from: Source, want: Block) returns (r: Result<Data>)
    ensures r.Ok? <==> from.path in files && (want.size == 0 || Within(files[from.path], from.block.offset, want.size))
    ensures r.Ok? ==> r.value == if want.size == 0 then staged
                                 else WriteAt(staged, want.offset, Part(files[from.path], from.block.offset, want.size))
  {
    if from.path !in files {
      return Err("source is missing");
    }
    if want.size == 0 {
      return Ok(staged);
    }
    if !Within(files[from.path], from.block.offset, want.size) {
      return Err("source is too short");
    }
    r := Ok(WriteAt(staged, want.offset, Part(files[from.path], from.block.offset, want.size)));
  }

  /** The file, cut as the manifest says, has its size and its blocks' sizes and hashes. */
  ghost predicate Matches(data: Data, want: Manifest) {
    && want.blockSize > 0 && |data| == want.size && Count(|data|, want.blockSize) == |want.blocks|
    && forall i :: 0 <= i < |want.blocks| ==> KeyOf(Cut(data, want.blockSize)[i]) == KeyOf(want.blocks[i])
  }

  method VerifyManifest(data: Data, want: Manifest) returns (ok: bool)
    ensures ok <==> Matches(data, want)
  {
    var got := BuildManifest("", data, want.blockSize);
    if got.Err? || got.value.size != want.size || |got.value.blocks| != |want.blocks| {
      return false;
    }
    for i := 0 to |want.blocks|
      invariant forall j :: 0 <= j < i ==> KeyOf(got.value.blocks[j]) == KeyOf(want.blocks[j])
    {
      if got.value.blocks[i].size != want.blocks[i].size || got.value.blocks[i].hash != want.blocks[i].hash {
        return false;
      }
    }
    ok := true;
  }

  /** Bytes that pass the check against a file's manifest are that file's bytes. */
  lemma MatchingIsTheFile(data: Data, m: Manifest, original: Data)
    requires Describes(m, original)
    ensures Matches(data, m) <==> data == original
  {
    if Matches(data, m) {
      var a, b := Cut(data, m.blockSize), Cut(original, m.blockSize);
      forall i | 0 <= i < |a| ensures a[i] == b[i] {
        assert KeyOf(a[i]) == KeyOf(m.blocks[i]);
        assert a[i] == CutBlock(data, m.blockSize, i) && b[i] == CutBlock(original, m.blockSize, i);
      }
      CutDetermines(original, m.blockSize, data);
    }
  }

  /** Everything a successful assembly needs: honest manifests, and a source for each block. */
  ghost predicate CanAssemble(files: Files, target: Manifest, original: Data, sources: seq<Manifest>) {
    && Unchanged(files, sources) && Describes(target, original)
    && forall i :: 0 <= i < |target.blocks| ==> Offers(sources, target.blocks[i].hash)
  }

  /** Replaces the destination only with bytes that match the manifest, and leaves everything alone on
      an error; with unchanged sources that offer every block, the destination becomes the original. */
  method Assemble(files: Files, targetPath: Path, target: Manifest, sources: seq<Manifest>, proceed: bool,
                  ghost original: Data)
    returns (r: Result<Data>, after: Files)
    ensures r.Ok? ==> after == files[targetPath := r.value] && Matches(r.value, target)
    ensures r.Err? ==> after == files
    ensures CanAssemble(files, target, original, sources) && proceed ==> r == Ok(original)
  {
    after := files;
    var staged := StageLocal(files, target, sources, original);
    if staged.Err? {
      return Err("not staged"), files;
    }
    if CanAssemble(files, target, original, sources) {
      FilledIsTheFile(staged.value, target, original);
    }
    var ok := VerifyManifest(staged.value, target);
    if !ok || !proceed {
      return Err("not replaced"), files;
    }
    r, after := staged, files[targetPath := staged.value];
  }

  /** The staged file after one more block, if its source can be found and read. */
  function CopyIndexed(files: Files, index: map<Key, Source>, staged: Data, want: Block): Option<Data> {
    if KeyOf(want) !in index then None
    else
      var from := index[KeyOf(want)];
      if from.path !in files then None
      else if want.size == 0 then Some(staged)
      else if !Within(files[from.path], from.block.offset, want.size) then None
      else Some(WriteAt(staged, want.offset, Part(files[from.path], from.block.offset, want.size)))
  }

  /** The staged file after the first `n` blocks. */
  function StagedUpTo(files: Files, index: map<Key, Source>, blocks: seq<Block>, n: nat): Option<Data>
    requires n <= |blocks|
  {
    if n == 0 then Some([])
    else
      var before := StagedUpTo(files, index, blocks, n - 1);
      if before.None? then None else CopyIndexed(files, index, before.value, blocks[n - 1])
  }

  lemma {:induction false} NotStagedLater(files: Files, index: map<Key, Source>, blocks: seq<Block>, m: nat, n: nat)
    requires m <= n <= |blocks| && StagedUpTo(files, index, blocks, m).None?
    ensures StagedUpTo(files, index, blocks, n).None?
  {
    if m < n {
      NotStagedLater(files, index, blocks, m, n - 1);
    }
  }

  method StageLocal(files: Files, target: Manifest, sources: seq<Manifest>, ghost original: Data)
    returns (r: Result<Data>)
    ensures CanAssemble(files, target, original, sources) ==> r.Ok? && Filled(r.value, target.blocks, |target.blocks|)
  {
    var index := IndexSources(sources);
    r := StageIndexed(files, index, target.blocks);
    if CanAssemble(files, target, original, sources) {
      forall i | 0 <= i < |target.blocks| ensures AtHand(files, index, target.blocks[i]) {
        BlockIsAtHand(files, target, original, sources, index, i);
      }
      CutCovers(original, target.blockSize);
      StagedIsFilled(files, index, target.blocks, |target.blocks|);
    }
  }

  method StageIndexed(files: Files, index: map<Key, Source>, blocks: seq<Block>) returns (r: Result<Data>)
    ensures (if r.Ok? then Some(r.value) else None) == StagedUpTo(files, index, blocks, |blocks|)
  {
    var staged: Data := [];
    for i := 0 to |blocks|
      invariant StagedUpTo(files, index, blocks, i) == Some(staged)
    {
      var want := blocks[i];
      if KeyOf(want) !in index {
        NotStagedLater(files, index, blocks, i + 1, |blocks|);
        return Err("missing block");
      }
      r := CopyBlock(files, staged, index[KeyOf(want)], want);
      if r.Err? {
        NotStagedLater(files, index, blocks, i + 1, |blocks|);
        return;
      }
      staged := r.value;
    }
    r := Ok(staged);
  }

  /** The indexed source of a block can be read and has the block's bytes. */
  ghost predicate AtHand(files: Files, index: map<Key, Source>, want: Block) {
    && KeyOf(want) in index && index[KeyOf(want)].path in files
    && var from := index[KeyOf(want)];
       && Within(files[from.path], from.block.offset, want.size)
       && Part(files[from.path], from.block.offset, want.size) == want.hash.preimage
  }

  lemma BlockIsAtHand(files: Files, target: Manifest, original: Data, sources: seq<Manifest>, index: map<Key, Source>,
                      i: nat)
    requires CanAssemble(files, target, original, sources) && Indexes(sources, index) && i < |target.blocks|
    ensures AtHand(files, index, target.blocks[i])
  {
    var want := target.blocks[i];
    CutCovers(original, target.blockSize);
    OfferedHashHasKey(files, sources, want);
    UnchangedSourceVerifies(files, sources, index[KeyOf(want)]);
  }

  lemma CopyAtHand(files: Files, index: map<Key, Source>, staged: Data, want: Block)
    requires AtHand(files, index, want) && want.size > 0
    ensures CopyIndexed(files, index, staged, want) == Some(WriteAt(staged, want.offset, want.hash.preimage))
  {
  }

  lemma {:induction false} StagedIsFilled(files: Files, index: map<Key, Source>, blocks: seq<Block>, n: nat)
    requires Contiguous(blocks) && WellSized(blocks) && NonEmpty(blocks) && n <= |blocks|
    requires forall i :: 0 <= i < n ==> AtHand(files, index, blocks[i])
    ensures StagedUpTo(files, index, blocks, n).Some? && Filled(StagedUpTo(files, index, blocks, n).value, blocks, n)
  {
    if n > 0 {
      StagedIsFilled(files, index, blocks, n - 1);
      var staged, want := StagedUpTo(files, index, blocks, n - 1).value, blocks[n - 1];
      assert StagedUpTo(files, index, blocks, n) == Some(WriteAt(staged, want.offset, want.hash.preimage)) by {
        CopyAtHand(files, index, staged, want);
      }
      FillOne(staged, blocks, n - 1);
    }
  }

  /** The first `n` blocks are in place and nothing follows them. */
  ghost predicate Filled(staged: Data, blocks: seq<Block>, n: nat)
    requires n <= |blocks|
  {
    |staged| == Start(blocks, n) && forall i :: 0 <= i < n ==> Verifies(staged, blocks[i])
  }

  lemma FillOne(staged: Data, blocks: seq<Block>, n: nat)
    requires Contiguous(blocks) && WellSized(blocks) && NonEmpty(blocks) && n < |blocks| && Filled(staged, blocks, n)
    ensures Filled(WriteAt(staged, blocks[n].offset, blocks[n].hash.preimage), blocks, n + 1)
  {
    assert Placed(blocks, n);
    forall i | 0 <= i < n + 1 ensures Verifies(WriteAt(staged, blocks[n].offset, blocks[n].hash.preimage), blocks[i]) {
      WriteOneBlock(staged, blocks, n, i);
    }
  }

  lemma FilledIsTheFile(staged: Data, m: Manifest, original: Data)
    requires Describes(m, original) && Filled(staged, m.blocks, |m.blocks|)
    ensures Matches(staged, m) && staged == original
  {
    CutCovers(original, m.blockSize);
    CutDetermines(original, m.blockSize, staged);
    MatchingIsTheFile(staged, m, original);
  }

  /** A content plan that needs nothing promises that the assembly succeeds. */
  lemma PlanPromisesAssembly(files: Files, target: Manifest, original: Data, sources: seq<Manifest>, plan: ContentPlan)
    requires Splits(sources, target.blocks, plan) && Unchanged(files, sources) && Describes(target, original)
    ensures plan.needed == [] <==> CanAssemble(files, target, original, sources)
  {
    NothingNeeded(sources, target.blocks, plan);
  }

  // ---------------------------------------------------------------- restore from the archive

  predicate AllArchived(archive: Archive, blocks: seq<Block>) {
    forall i :: 0 <= i < |blocks| ==> Protected(archive, blocks[i])
  }

  /** What the restore accepts: the manifest's size, and every listed block where it belongs. */
  predicate Restores(data: Data, m: Manifest) {
    |data| == m.size && AllVerify(data, m.blocks)
  }

  /** Replaces the destination only with bytes that pass the manifest; an archive that holds the blocks of a
      file's manifest gives that file back, unless staging or renaming it fails. */
  method RestoreFile(archive: Archive, files: Files, destination: Path, m: Manifest, works: bool, ghost original: Data)
    returns (r: Result<Data>, after: Files)
    ensures r.Ok? ==> after == files[destination := r.value] && Restores(r.value, m)
    ensures r.Err? ==> after == files
    ensures r.Ok? ==> AllArchived(archive, m.blocks) && works
    ensures Describes(m, original) && AllArchived(archive, m.blocks) && works ==> r == Ok(original)
    ensures Describes(m, original) && r.Ok? ==> r.value == original
  {
    after := files;
    var staged := StageArchived(archive, m, original);
    if staged.Err? {
      return staged, files;
    }
    var file := Truncate(staged.value, m.size);
    if Describes(m, original) {
      FilledIsTheFile(staged.value, m, original);
      CutDetermines(original, m.blockSize, file);
    }
    var ok := VerifyRestored(file, m);
    if !ok || !works {
      return Err("not replaced"), files;
    }
    r, after := Ok(file), files[destination := file];
  }

  method StageArchived(archive: Archive, m: Manifest, ghost original: Data) returns (r: Result<Data>)
    ensures r.Ok? <==> AllArchived(archive, m.blocks)
    ensures r.Ok? && Describes(m, original) ==> Filled(r.value, m.blocks, |m.blocks|)
  {
    var staged: Data := [];
    for i := 0 to |m.blocks|
      invariant Describes(m, original) ==> Filled(staged, m.blocks, i)
      invariant forall j :: 0 <= j < i ==> Protected(archive, m.blocks[j])
    {
      var b := m.blocks[i];
      if !Protected(archive, b) {
        return Err("archive block is missing or damaged");
      }
      if Describes(m, original) {
        FillOriginal(staged, m, original, i);
      }
      staged := WriteAt(staged, b.offset, archive[b.hash]);
    }
    r := Ok(staged);
  }

  lemma FillOriginal(staged: Data, m: Manifest, original: Data, i: nat)
    requires Describes(m, original) && i < |m.blocks| && Filled(staged, m.blocks, i)
    ensures Filled(WriteAt(staged, m.blocks[i].offset, m.blocks[i].hash.preimage), m.blocks, i + 1)
  {
    CutCovers(original, m.blockSize);
    FillOne(staged, m.blocks, i);
  }

  method VerifyRestored(data: Data, m: Manifest) returns (ok: bool)
    ensures ok <==> Restores(data, m)
  {
    if |data| != m.size {
      return false;
    }
    for i := 0 to |m.blocks|
      invariant forall j :: 0 <= j < i ==> Verifies(data, m.blocks[j])
    {
      if !Verifies(data, m.blocks[i]) {
        return false;
      }
    }
    ok := true;
  }

  /** One file of a restore plan. */
  datatype Restoring = Restoring(destination: Path, manifest: Manifest)

  /** The last step with this destination, or the length of the plan. */
  function LastFor(plan: seq<Restoring>, n: nat, p: Path): nat
    requires n <= |plan|
  {
    if n == 0 then |plan| else if plan[n - 1].destination == p then n - 1 else LastFor(plan, n - 1, p)
  }

  /** Two files of a plan never share a destination: each is the last for its own. */
  predicate DistinctDestinations(plan: seq<Restoring>) {
    forall i :: 0 <= i < |plan| ==> LastFor(plan, |plan|, plan[i].destination) == i
  }

  /** The destination holds bytes that pass its manifest. */
  predicate Done(files: Files, step: Restoring) {
    step.destination in files && Restores(files[step.destination], step.manifest)
  }

  /** Only destinations of these steps changed, and each changed one passes its manifest. */
  predicate OnlyRestored(before: Files, after: Files, plan: seq<Restoring>) {
    && (forall p :: p in before ==> p in after)
    && forall p :: p in after && (p !in before || after[p] != before[p]) ==>
         var i := LastFor(plan, |plan|, p); i < |plan| && plan[i].destination == p && Done(after, plan[i])
  }

  /** How many of the first `n` destinations pass their manifests already. */
  function DoneAmong(files: Files, plan: seq<Restoring>, n: nat): nat
    requires n <= |plan|
  {
    if n == 0 then 0 else DoneAmong(files, plan, n - 1) + (if Done(files, plan[n - 1]) then 1 else 0)
  }

  /** The archive holds every block of every file, and each manifest is that of its original. */
  ghost predicate CanRestore(archive: Archive, plan: seq<Restoring>, originals: seq<Data>) {
    && |originals| == |plan|
    && forall i :: 0 <= i < |plan| ==> RestoresTo(archive, plan[i].manifest, originals[i])
  }

  ghost predicate RestoresTo(archive: Archive, m: Manifest, original: Data) {
    AllArchived(archive, m.blocks) && Describes(m, original)
  }

  lemma DoneIsOriginal(files: Files, step: Restoring, original: Data)
    requires Describes(step.manifest, original)
    ensures Done(files, step) <==> step.destination in files && files[step.destination] == original
  {
    CutCovers(original, step.manifest.blockSize);
    if step.destination in files {
      CutDetermines(original, step.manifest.blockSize, files[step.destination]);
    }
  }

  /** Nothing is touched unless every block is in the archive. A restore that reports success leaves every
      destination as its manifest says, rewriting only those that were not; one that stops halfway
      leaves each destination restored or as it was. If the manifests are those of the originals, a restore
      from an archive that holds their blocks succeeds exactly when every file it has to write can be written,
      and then every destination is its original. */
  method RestoreSnapshot(archive: Archive, files: Files, plan: seq<Restoring>, works: nat -> bool,
                         ghost originals: seq<Data>)
    returns (ok: bool, after: Files, restored: nat, skipped: nat)
    requires DistinctDestinations(plan)
    ensures (exists i :: 0 <= i < |plan| && !AllArchived(archive, plan[i].manifest.blocks)) ==> !ok && after == files
    ensures OnlyRestored(files, after, plan)
    ensures ok ==> (forall i :: 0 <= i < |plan| ==> Done(after, plan[i]))
    ensures ok ==> restored + skipped == |plan| && skipped == DoneAmong(files, plan, |plan|)
    ensures ok ==> forall i :: 0 <= i < |plan| && Done(files, plan[i]) ==>
              after[plan[i].destination] == files[plan[i].destination]
    ensures CanRestore(archive, plan, originals) ==>
              (ok <==> forall i :: 0 <= i < |plan| ==> Done(files, plan[i]) || works(i))
    ensures CanRestore(archive, plan, originals) && ok ==>
              forall i :: 0 <= i < |plan| ==>
                plan[i].destination in after && after[plan[i].destination] == originals[i]
  {
    ok, after, restored, skipped := false, files, 0, 0;
    var complete := BlocksAreThere(archive, plan);
    if CanRestore(archive, plan, originals) {
      forall i | 0 <= i < |plan| ensures AllArchived(archive, plan[i].manifest.blocks) {
        assert RestoresTo(archive, plan[i].manifest, originals[i]);
      }
    }
    if complete {
      ghost var stop;
      ok, after, restored, skipped, stop := RestoreFiles(archive, files, plan, works, originals);
      if CanRestore(archive, plan, originals) && !ok {
        assert RestoresTo(archive, plan[stop].manifest, originals[stop]);
      }
      if CanRestore(archive, plan, originals) && ok {
        forall i | 0 <= i < |plan| ensures plan[i].destination in after && after[plan[i].destination] == originals[i] {
          assert RestoresTo(archive, plan[i].manifest, originals[i]);
          DoneIsOriginal(after, plan[i], originals[i]);
        }
      }
    }
  }

  method BlocksAreThere(archive: Archive, plan: seq<Restoring>) returns (ok: bool)
    ensures ok <==> forall i :: 0 <= i < |plan| ==> AllArchived(archive, plan[i].manifest.blocks)
  {
    for i := 0 to |plan|
      invariant forall j :: 0 <= j < i ==> AllArchived(archive, plan[j].manifest.blocks)
    {
      if !AllArchived(archive, plan[i].manifest.blocks) {
        return false;
      }
    }
    ok := true;
  }

  /** How many of the first `n` files were written and how many left alone; those written could be. */
  ghost predicate Counts(files: Files, plan: seq<Restoring>, works: nat -> bool, n: nat, restored: nat, skipped: nat) {
    && n <= |plan| && restored + skipped == n && skipped == DoneAmong(files, plan, n)
    && forall j :: 0 <= j < n ==> Done(files, plan[j]) || works(j)
  }

  /** The files in order, up to the first that can be neither left alone nor restored. */
  method RestoreFiles(archive: Archive, files: Files, plan: seq<Restoring>, works: nat -> bool,
                      ghost originals: seq<Data>)
    returns (ok: bool, after: Files, restored: nat, skipped: nat, ghost stop: nat)
    requires DistinctDestinations(plan)
    ensures OnlyRestored(files, after, plan) && (ok ==> restored + skipped == |plan|)
    ensures stop <= |plan| && RestoredUpTo(files, after, plan, stop)
    ensures Counts(files, plan, works, stop, restored, skipped)
    ensures ok <==> stop == |plan|
    ensures !ok ==> !Done(files, plan[stop])
    ensures !ok && |originals| == |plan| ==> !works(stop) || !RestoresTo(archive, plan[stop].manifest, originals[stop])
  {
    ok, after, restored, skipped, stop := false, files, 0, 0, 0;
    for i := 0 to |plan|
      invariant stop == i && RestoredUpTo(files, after, plan, i) && Counts(files, plan, works, i, restored, skipped)
    {
      ghost var original := if |originals| == |plan| then originals[i] else [];
      var fine, wrote;
      fine, wrote, after := RestoreStep(archive, files, after, plan, i, works(i), original);
      if !fine {
        return;
      }
      restored, skipped := restored + (if wrote then 1 else 0), skipped + (if wrote then 0 else 1);
      stop := i + 1;
    }
    ok := true;
  }

  /** One file: left alone if it passes its manifest already, restored otherwise. */
  method RestoreStep(archive: Archive, ghost files: Files, before: Files, plan: seq<Restoring>, i: nat, works: bool,
                     ghost original: Data)
    returns (fine: bool, wrote: bool, after: Files)
    requires i < |plan| && DistinctDestinations(plan) && RestoredUpTo(files, before, plan, i)
    ensures fine ==> RestoredUpTo(files, after, plan, i + 1) && (wrote <==> !Done(files, plan[i])) && (wrote ==> works)
    ensures !fine ==> after == before && !Done(files, plan[i])
    ensures !fine ==> !RestoresTo(archive, plan[i].manifest, original) || !works
  {
    RestoreGoesOn(files, before, plan, i);
    if Done(before, plan[i]) {
      return true, false, before;
    }
    var r;
    r, after := RestoreFile(archive, before, plan[i].destination, plan[i].manifest, works, original);
    fine, wrote := r.Ok?, r.Ok?;
    if fine {
      RestoreWrites(files, before, plan, i, r.value);
    }
  }

  ghost predicate RestoredUpTo(before: Files, after: Files, plan: seq<Restoring>, n: nat) {
    && n <= |plan| && OnlyRestored(before, after, plan)
    && (forall i :: 0 <= i < n ==> Done(after, plan[i]))
    && (forall i :: n <= i < |plan| ==> Same(before, after, plan[i].destination))
    && (forall i :: 0 <= i < n && Done(before, plan[i]) ==> Same(before, after, plan[i].destination))
  }

  predicate Same(before: Files, after: Files, p: Path) {
    (p in after <==> p in before) && (p in before ==> after[p] == before[p])
  }

  lemma RestoreGoesOn(before: Files, after: Files, plan: seq<Restoring>, n: nat)
    requires RestoredUpTo(before, after, plan, n) && n < |plan|
    ensures Done(after, plan[n]) <==> Done(before, plan[n])
    ensures Done(after, plan[n]) ==> RestoredUpTo(before, after, plan, n + 1)
  {
    assert Same(before, after, plan[n].destination);
  }

  lemma RestoreWrites(before: Files, after: Files, plan: seq<Restoring>, n: nat, data: Data)
    requires RestoredUpTo(before, after, plan, n) && n < |plan| && DistinctDestinations(plan)
    requires !Done(after, plan[n]) && Restores(data, plan[n].manifest)
    ensures RestoredUpTo(before, after[plan[n].destination := data], plan, n + 1)
  {
    assert Same(before, after, plan[n].destination);
  }
}
