/**
 The content-addressed object graph. An id is the keyed hash of `FRAME || salt || plaintext`, and
 the hash is taken to be injective, so an id is modelled by the term that was hashed: two ids are
 equal exactly when generation, salt and content are. Object types are separated by the FRAME.
 */
module Objects {

  type Byte = b: int | 0 <= b < 256

  /** A chunk: padded file content sealed under a path salt. */
  datatype ChunkId = ChunkId(gen: nat, salt: nat, data: seq<Byte>)

  /** One tree entry. */
  datatype Entry =
    | File(name: string, mode: nat, mtime: nat, size: nat, salt: nat, chunks: seq<ChunkId>)
    | Dir(name: string, mode: nat, mtime: nat, subtree: TreeId)

  /** A directory listing; the salt is part of what the id binds. */
  datatype TreeId = TreeId(gen: nat, salt: nat, entries: seq<Entry>)

  /** A snapshot commit. */
  datatype CommitId = CommitId(gen: nat, root: TreeId, parents: seq<CommitId>,
                               device: nat, version: nat, rosterSeq: nat, ts: nat)

  /** Any object id. */
  datatype Id = ChunkObj(chunk: ChunkId) | TreeObj(tree: TreeId) | CommitObj(commit: CommitId)

  /** The ids one tree names directly: its subtrees and the chunks of its files. */
  function Children(t: TreeId): set<Id> {
    (set e | e in t.entries && e.Dir? :: TreeObj(e.subtree)) +
    (set e, c | e in t.entries && e.File? && c in e.chunks :: ChunkObj(c))
  }

  /** Every tree and chunk under `t`, `t` included. */
  function TreeClosure(t: TreeId): set<Id> {
    {TreeObj(t)} + Children(t) +
    set e, x | e in t.entries && e.Dir? && x in TreeClosure(e.subtree) :: x
  }

  /** Every commit in the history of `c`, `c` included. */
  function History(c: CommitId): set<CommitId> {
    {c} + set p, x | p in c.parents && x in History(p) :: x
  }

  /** What a head at `c` promises to hold: its whole history and its own tree's content. */
  function Needed(c: CommitId): set<Id> {
    (set x | x in History(c) :: CommitObj(x)) + TreeClosure(c.root)
  }

  /** Levels of nesting; a tree without subdirectories has one. */
  function TreeHeight(t: TreeId): nat {
    1 + SubHeight(t.entries)
  }

  function SubHeight(es: seq<Entry>): (h: nat)
    ensures forall e :: e in es && e.Dir? ==> TreeHeight(e.subtree) <= h
  {
    if es == [] then 0
    else
      var rest := SubHeight(es[1..]);
      if es[0].Dir? && TreeHeight(es[0].subtree) > rest then TreeHeight(es[0].subtree) else rest
  }
}
