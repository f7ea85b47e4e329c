/**
 Sealing a merged tree into the object store and loading it back. The content id is a function `h`
 of key generation, salt and plaintext; where the store must not confuse two trees, `h` is taken to
 be injective on the finite set of those in play. A sealed blob names its generation in its frame
 and opens only under that generation's key and the id it was sealed for; sealing uses the current
 generation `cur`, loading any generation of the key ring.
 */
module Seal {
  import opened Prelude
  import opened Frame
  import opened Canon
  import opened Names
  import opened Merge
  import opened MergeLaws
  import opened TreeCodec

  /** FRAME and commitment tag in front of the ciphertext. */
  const OVERHEAD: nat := 11 + 32

  /** The content id of a tree: generation, salt and plaintext. */
  type Hasher = (nat, Salt, Bytes) -> Hash
  type Sealed = (nat, Salt, Bytes)
  /** The generations a key ring holds. */
  type Ring = set<nat>

  /** A sealed blob: the id it was sealed for, the generation in its frame, what is inside. */
  datatype Box = Box(id: Hash, gen: nat, plain: Bytes)
  type Blobs = map<Hash, Box>

  datatype LoadError =
    | DepthExceeded
    | Missing(id: Hash)
    | UnknownGeneration(gen: nat)
    | Auth
    | IdMismatch
    | Undecodable(error: DecodeError)

  // ---- loading ----

  /** `load_tree`: fetch, find the key of the blob's own generation, open, re-derive the id, decode. */
  function LoadTree(h: Hasher, ring: Ring, blobs: Blobs, id: Hash, salt: Salt): Result<seq<Entry>, LoadError> {
    if id !in blobs then Err(Missing(id))
    else if blobs[id].gen !in ring then Err(UnknownGeneration(blobs[id].gen))
    else if blobs[id].id != id then Err(Auth)
    else if h(blobs[id].gen, salt, blobs[id].plain) != id then Err(IdMismatch)
    else
      match DecodeTree(blobs[id].plain)
      case Ok(es) => Ok(es)
      case Err(e) => Err(Undecodable(e))
  }

  /** `load_nodes_inner`. */
  function Load(h: Hasher, ring: Ring, blobs: Blobs, id: Hash, salt: Salt, depth: nat): Result<Folder, LoadError>
    decreases MAX_TREE_DEPTH - depth, 2
  {
    if depth >= MAX_TREE_DEPTH then Err(DepthExceeded)
    else
      var es :- LoadTree(h, ring, blobs, id, salt);
      LoadEntries(h, ring, blobs, es, depth)
  }

  function LoadEntries(h: Hasher, ring: Ring, blobs: Blobs, es: seq<Entry>, depth: nat): Result<Folder, LoadError>
    requires depth < MAX_TREE_DEPTH
    decreases MAX_TREE_DEPTH - depth, 1, |es|
  {
    if es == [] then Ok(Folder(map[]))
    else
      var f :- LoadEntries(h, ring, blobs, es[..|es| - 1], depth);
      var node :- LoadEntry(h, ring, blobs, es[|es| - 1], depth);
      Ok(Put(f, es[|es| - 1].name, node))
  }

  function LoadEntry(h: Hasher, ring: Ring, blobs: Blobs, e: Entry, depth: nat): Result<Node, LoadError>
    requires depth < MAX_TREE_DEPTH
    decreases MAX_TREE_DEPTH - depth, 0
  {
    match e
    case FileEntry(_, mode, mtime, size, salt, chunks) => Ok(Node.File(mode, mtime, size, salt, chunks))
    case DirEntry(_, mode, mtime, sub, salt) =>
      var children :- Load(h, ring, blobs, sub, salt, depth + 1);
      Ok(Node.Dir(mode, mtime, salt, children))
  }

  /** `load_nodes` as it runs, entry by entry. */
  method LoadNodes(h: Hasher, ring: Ring, blobs: Blobs, id: Hash, salt: Salt, depth: nat)
    returns (r: Result<Folder, LoadError>)
    ensures r == Load(h, ring, blobs, id, salt, depth)
    decreases MAX_TREE_DEPTH - depth
  {
    hide LoadTree, Len;
    if depth >= MAX_TREE_DEPTH {
      return Err(DepthExceeded);
    }
    var es :- LoadTree(h, ring, blobs, id, salt);
    var out := Folder(map[]);
    var i := 0;
    while i < |es|
      invariant 0 <= i <= |es|
      invariant LoadEntries(h, ring, blobs, es[..i], depth) == Ok(out)
    {
      assert es[..i + 1][..i] == es[..i];
      match es[i] {
        case FileEntry(name, mode, mtime, size, fsalt, chunks) =>
          out := Put(out, name, Node.File(mode, mtime, size, fsalt, chunks));
        case DirEntry(name, mode, mtime, sub, dsalt) =>
          var children := LoadNodes(h, ring, blobs, sub, dsalt, depth + 1);
          if children.Err? {
            FirstErrorWins(h, ring, blobs, es, i, depth);
            return Err(children.error);
          }
          out := Put(out, name, Node.Dir(mode, mtime, dsalt, children.value));
      }
      i := i + 1;
    }
    assert es[..i] == es;
    r := Ok(out);
  }

  /** The first entry that fails decides the error. */
  lemma {:induction false} FirstErrorWins(h: Hasher, ring: Ring, blobs: Blobs, es: seq<Entry>, i: nat, depth: nat)
    requires depth < MAX_TREE_DEPTH && i < |es| && LoadEntries(h, ring, blobs, es[..i], depth).Ok?
    requires LoadEntry(h, ring, blobs, es[i], depth).Err?
    ensures LoadEntries(h, ring, blobs, es, depth) == Err(LoadEntry(h, ring, blobs, es[i], depth).error)
    decreases |es|
  {
    hide Load, LoadEntry, Len;
    var init := es[..|es| - 1];
    if i == |es| - 1 {
      assert es[..i] == init;
    } else {
      assert init[..i] == es[..i];
      FirstErrorWins(h, ring, blobs, init, i, depth);
    }
  }

  // ---- sealing ----

  /** Names whose length the writer can prefix. */
  ghost predicate Writable(f: Folder) {
    forall n :: n in f.entries ==> Len(n) <= 0xFFFF_FFFF && (f.entries[n].Dir? ==> Writable(f.entries[n].children))
  }

  ghost function EntryOf(h: Hasher, cur: nat, name: string, n: Node): (e: Entry)
    requires Len(name) <= 0xFFFF_FFFF && (n.Dir? ==> Writable(n.children))
    ensures e.name == name
    decreases n
  {
    match n
    case File(mode, mtime, size, salt, chunks) => FileEntry(name, mode, mtime, size, salt, chunks)
    case Dir(mode, mtime, salt, children) => DirEntry(name, mode, mtime, RootId(h, cur, children, salt), salt)
  }

  ghost function EntriesOf(h: Hasher, cur: nat, f: Folder, names: seq<string>): (es: seq<Entry>)
    requires Writable(f) && forall n :: n in names ==> n in f.entries
    ensures |es| == |names|
    decreases f, 0, |names|
  {
    if names == [] then []
    else
      var last := names[|names| - 1];
      EntriesOf(h, cur, f, names[..|names| - 1]) + [EntryOf(h, cur, last, f.entries[last])]
  }

  /** What `seal_nodes` encodes for a directory. */
  ghost function Plain(h: Hasher, cur: nat, f: Folder): Bytes
    requires Writable(f)
    decreases f, 1
  {
    SortedLists(f.entries.Keys);
    EncodeTree(EntriesOf(h, cur, f, Sorted(f.entries.Keys)))
  }

  /** The id a directory is sealed under. */
  ghost function RootId(h: Hasher, cur: nat, f: Folder, salt: Salt): Hash
    requires Writable(f)
    decreases f, 2
  {
    h(cur, salt, Plain(h, cur, f))
  }

  /** Every level is within the fan-out and object limits. */
  ghost predicate Accepts(h: Hasher, cur: nat, f: Folder)
    requires Writable(f)
    decreases f
  {
    && |f.entries| <= MAX_TREE_FANOUT
    && OVERHEAD + |Plain(h, cur, f)| <= MAX_BLOB_SIZE
    && forall n :: n in f.entries && f.entries[n].Dir? ==> Accepts(h, cur, f.entries[n].children)
  }

  /** The top level is stored under its id. */
  ghost predicate Stored(h: Hasher, cur: nat, blobs: Blobs, f: Folder, salt: Salt)
    requires Writable(f)
  {
    var id := RootId(h, cur, f, salt);
    id in blobs && blobs[id] == Box(id, cur, Plain(h, cur, f))
  }

  /** Every level is stored under its id. */
  ghost predicate Held(h: Hasher, cur: nat, blobs: Blobs, f: Folder, salt: Salt)
    requires Writable(f)
    decreases f
  {
    && Stored(h, cur, blobs, f, salt)
    && forall n :: n in f.entries && f.entries[n].Dir? ==> Held(h, cur, blobs, f.entries[n].children, f.entries[n].salt)
  }

  /** Every level's plaintext is among those in play. */
  ghost predicate PlainsIn(h: Hasher, cur: nat, u: set<Sealed>, f: Folder, salt: Salt)
    requires Writable(f)
    decreases f
  {
    && (cur, salt, Plain(h, cur, f)) in u
    && forall n :: n in f.entries && f.entries[n].Dir? ==> PlainsIn(h, cur, u, f.entries[n].children, f.entries[n].salt)
  }

  ghost predicate InjectiveOn(h: Hasher, u: set<Sealed>) {
    forall x, y :: x in u && y in u && h(x.0, x.1, x.2) == h(y.0, y.1, y.2) ==> x == y
  }

  /** Each stored blob is the sealing of some plaintext in play under its own id. */
  ghost predicate Genuine(h: Hasher, u: set<Sealed>, id: Hash, box: Box) {
    box.id == id && exists s :: (box.gen, s, box.plain) in u && h(box.gen, s, box.plain) == id
  }

  ghost predicate Sound(h: Hasher, u: set<Sealed>, blobs: Blobs) {
    forall id :: id in blobs ==> Genuine(h, u, id, blobs[id])
  }

  ghost predicate Grows(small: Blobs, large: Blobs) {
    forall id :: id in small ==> id in large && large[id] == small[id]
  }

  lemma {:induction false} HeldStays(h: Hasher, cur: nat, small: Blobs, large: Blobs, f: Folder, salt: Salt)
    requires Writable(f) && Held(h, cur, small, f, salt) && Grows(small, large)
    ensures Held(h, cur, large, f, salt)
    decreases f
  {
    hide Plain, RootId;
    forall n | n in f.entries && f.entries[n].Dir?
      ensures Held(h, cur, large, f.entries[n].children, f.entries[n].salt)
    {
      HeldStays(h, cur, small, large, f.entries[n].children, f.entries[n].salt);
    }
  }

  /** The local object store, first write wins. */
  class ObjectStore {
    var blobs: Blobs

    method Put(id: Hash, box: Box)
      modifies this
      ensures blobs == if id in old(blobs) then old(blobs) else old(blobs)[id := box]
    {
      if id !in blobs {
        blobs := blobs[id := box];
      }
    }
  }

  /** Storing one sealed plaintext: whatever stood under its id was the same plaintext. */
  lemma PutGenuine(h: Hasher, cur: nat, u: set<Sealed>, before: Blobs, salt: Salt, plain: Bytes)
    requires Sound(h, u, before) && InjectiveOn(h, u) && (cur, salt, plain) in u
    ensures var id := h(cur, salt, plain);
            var after := if id in before then before else before[id := Box(id, cur, plain)];
            Sound(h, u, after) && Grows(before, after) && id in after && after[id] == Box(id, cur, plain)
  {
    var id := h(cur, salt, plain);
    assert Genuine(h, u, id, Box(id, cur, plain));
    if id in before {
      assert Genuine(h, u, id, before[id]);
    }
  }

  /** `seal_tree`: refuse a listing past the limits, else store it under its id. */
  method SealTree(h: Hasher, cur: nat, st: ObjectStore, es: seq<Entry>, salt: Salt, ghost u: set<Sealed>)
    returns (r: Result<Hash, ()>)
    requires Sound(h, u, st.blobs) && InjectiveOn(h, u) && (cur, salt, EncodeTree(es)) in u
    modifies st
    ensures Sound(h, u, st.blobs) && Grows(old(st.blobs), st.blobs)
    ensures r.Ok? <==> |es| <= MAX_TREE_FANOUT && OVERHEAD + |EncodeTree(es)| <= MAX_BLOB_SIZE
    ensures r.Ok? ==> r.value == h(cur, salt, EncodeTree(es))
    ensures r.Ok? ==> r.value in st.blobs && st.blobs[r.value] == Box(r.value, cur, EncodeTree(es))
    ensures r.Err? ==> st.blobs == old(st.blobs)
  {
    hide EncodeTree, Genuine;
    if |es| > MAX_TREE_FANOUT {
      return Err(());
    }
    var plain := EncodeTree(es);
    var id := h(cur, salt, plain);
    if OVERHEAD + |plain| > MAX_BLOB_SIZE {
      return Err(());
    }
    PutGenuine(h, cur, u, st.blobs, salt, plain);
    st.Put(id, Box(id, cur, plain));
    r := Ok(id);
  }

  ghost predicate ChildrenHeld(h: Hasher, cur: nat, blobs: Blobs, f: Folder, names: seq<string>)
    requires Writable(f)
  {
    forall n :: n in names && n in f.entries && f.entries[n].Dir? ==>
      Accepts(h, cur, f.entries[n].children) && Held(h, cur, blobs, f.entries[n].children, f.entries[n].salt)
  }

  lemma ChildrenStay(h: Hasher, cur: nat, small: Blobs, large: Blobs, f: Folder, names: seq<string>)
    requires Writable(f) && ChildrenHeld(h, cur, small, f, names) && Grows(small, large)
    ensures ChildrenHeld(h, cur, large, f, names)
  {
    hide Held, Accepts, Grows;
    forall n | n in names && n in f.entries && f.entries[n].Dir?
      ensures Held(h, cur, large, f.entries[n].children, f.entries[n].salt)
    {
      HeldStays(h, cur, small, large, f.entries[n].children, f.entries[n].salt);
    }
  }

  /** `seal_nodes`: children first. It accepts exactly the trees within the limits, and stores every level. */
  method SealNodes(h: Hasher, cur: nat, st: ObjectStore, f: Folder, salt: Salt, ghost u: set<Sealed>)
    returns (r: Result<Hash, ()>)
    requires Writable(f) && PlainsIn(h, cur, u, f, salt) && Sound(h, u, st.blobs) && InjectiveOn(h, u)
    modifies st
    ensures Sound(h, u, st.blobs) && Grows(old(st.blobs), st.blobs)
    ensures r.Ok? <==> Accepts(h, cur, f)
    ensures r.Ok? ==> r.value == RootId(h, cur, f, salt) && Held(h, cur, st.blobs, f, salt)
    decreases f
  {
    hide Sound, InjectiveOn, EncodeTree, Sorted, Held, ChildrenHeld, Len, EntriesOf, Accepts, Grows;
    GrowsSelf(st.blobs);
    var names := ListSorted(f.entries.Keys);
    SortedLists(f.entries.Keys);
    NamesCount(f, names);
    var es: seq<Entry> := [];
    var i := 0;
    ChildrenHeldNone(h, cur, st.blobs, f);
    NoEntriesOf(h, cur, f);
    assert names[..0] == [];
    while i < |names|
      invariant 0 <= i <= |names|
      invariant es == EntriesOf(h, cur, f, names[..i])
      invariant Sound(h, u, st.blobs) && Grows(old(st.blobs), st.blobs)
      invariant ChildrenHeld(h, cur, st.blobs, f, names[..i])
    {
      var name := names[i];
      ghost var before := st.blobs;
      EntriesOfNext(h, cur, f, names, i);
      match f.entries[name] {
        case File(mode, mtime, size, fsalt, chunks) =>
          es := es + [FileEntry(name, mode, mtime, size, fsalt, chunks)];
        case Dir(mode, mtime, dsalt, children) =>
          var sub := SealNodes(h, cur, st, children, dsalt, u);
          GrowsOn(old(st.blobs), before, st.blobs);
          if sub.Err? {
            ChildRefused(h, cur, f, name);
            return Err(());
          }
          es := es + [DirEntry(name, mode, mtime, sub.value, dsalt)];
      }
      GrowsSelf(before);
      ChildrenStay(h, cur, before, st.blobs, f, names[..i]);
      ChildAdded(h, cur, st.blobs, f, names[..i], name);
      assert names[..i + 1] == names[..i] + [name];
      i := i + 1;
    }
    assert names[..i] == names;
    ghost var before := st.blobs;
    r := SealTree(h, cur, st, es, salt, u);
    GrowsOn(old(st.blobs), before, st.blobs);
    ChildrenStay(h, cur, before, st.blobs, f, names);
    AllSealed(h, cur, st.blobs, f, salt, names);
  }

  lemma GrowsSelf(b: Blobs)
    ensures Grows(b, b)
  {
  }

  lemma GrowsOn(a: Blobs, b: Blobs, c: Blobs)
    requires Grows(a, b) && Grows(b, c)
    ensures Grows(a, c)
  {
  }

  lemma NoEntriesOf(h: Hasher, cur: nat, f: Folder)
    requires Writable(f)
    ensures EntriesOf(h, cur, f, []) == []
  {
  }

  lemma EntriesOfNext(h: Hasher, cur: nat, f: Folder, names: seq<string>, i: nat)
    requires Writable(f) && i < |names| && forall n :: n in names ==> n in f.entries
    ensures EntriesOf(h, cur, f, names[..i + 1]) ==
            EntriesOf(h, cur, f, names[..i]) + [EntryOf(h, cur, names[i], f.entries[names[i]])]
  {
    hide EntryOf, Writable;
    assert names[..i + 1][..i] == names[..i];
  }

  lemma ChildRefused(h: Hasher, cur: nat, f: Folder, name: string)
    requires Writable(f) && name in f.entries && f.entries[name].Dir? && !Accepts(h, cur, f.entries[name].children)
    ensures !Accepts(h, cur, f)
  {
  }

  lemma NamesCount(f: Folder, names: seq<string>)
    requires names == Sorted(f.entries.Keys)
    ensures |names| == |f.entries|
  {
    SortedLists(f.entries.Keys);
    AscendingDistinct(names);
    hide Sorted;
    DistinctCount(names);
    assert (set n | n in names) == f.entries.Keys;
    assert |f.entries| == |f.entries.Keys|;
  }

  lemma {:induction false} DistinctCount(s: seq<string>)
    requires Distinct(s)
    ensures |set n | n in s| == |s|
  {
    if s != [] {
      var init := s[..|s| - 1];
      DistinctCount(init);
      assert (set n | n in s) == (set n | n in init) + {s[|s| - 1]};
    }
  }

  lemma ChildrenHeldNone(h: Hasher, cur: nat, blobs: Blobs, f: Folder)
    requires Writable(f)
    ensures ChildrenHeld(h, cur, blobs, f, [])
  {
  }

  lemma ChildAdded(h: Hasher, cur: nat, blobs: Blobs, f: Folder, names: seq<string>, name: string)
    requires Writable(f) && name in f.entries && ChildrenHeld(h, cur, blobs, f, names)
    requires f.entries[name].Dir? ==>
               var n := f.entries[name];
               Accepts(h, cur, n.children) && Held(h, cur, blobs, n.children, n.salt)
    ensures ChildrenHeld(h, cur, blobs, f, names + [name])
  {
    hide Held, Accepts;
  }

  lemma AllSealed(h: Hasher, cur: nat, blobs: Blobs, f: Folder, salt: Salt, names: seq<string>)
    requires Writable(f) && names == Sorted(f.entries.Keys) && ChildrenHeld(h, cur, blobs, f, names)
    ensures Accepts(h, cur, f) <==> |f.entries| <= MAX_TREE_FANOUT && OVERHEAD + |Plain(h, cur, f)| <= MAX_BLOB_SIZE
    ensures Held(h, cur, blobs, f, salt) <==>
            Stored(h, cur, blobs, f, salt)
  {
    SortedLists(f.entries.Keys);
    hide Sorted, Plain, RootId, Writable;
    forall n | n in f.entries ensures n in names { assert n in f.entries.Keys; }
  }
}
