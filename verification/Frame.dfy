/** Bounds shared by the encoders, decoders and walks. */
module Frame {

  /** The largest stored object, in bytes. */
  const MAX_BLOB_SIZE: nat := 16 * 1024 * 1024

  /** Levels of nesting that a walk, a loader or a restore follows. */
  const MAX_TREE_DEPTH: nat := 64

  /** Entries of one directory. */
  const MAX_TREE_FANOUT: nat := 65_536

  /** UTF-8 bytes of one entry name. */
  const MAX_NAME_LEN: nat := 4096

  /** Bytes of one roster entry, keyslot or key-history wrap. */
  const MAX_ROSTER_ENTRY_SIZE: nat := 4096

  /** Elements of one list field. */
  const MAX_LIST_ELEMENTS: nat := 4096
}
