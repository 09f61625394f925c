/** The content-addressed block archive that the backup components share. */
module ArchiveBlocks {
  import opened Bytes
  import opened Blocks

  type Id = string
  type FolderId = string

  /** Archived blocks, by the hash in their file name. */
  type Archive = map<Digest, Data>

  /** The archive file named after a block's hash has its size and its hash. */
  predicate Protected(archive: Archive, b: Block) {
    b.hash in archive && |archive[b.hash]| == b.size && Sha256(archive[b.hash]) == b.hash
  }
}
