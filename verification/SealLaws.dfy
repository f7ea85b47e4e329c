/** Sealing and loading undo each other, and a merge of loaded trees seals to a tree that loads. */
module SealLaws {
  import opened Prelude
  import opened Frame
  import opened Canon
  import opened Names
  import opened Merge
  import opened MergeLaws
  import opened TreeCodec
  import opened Seal

  // ---- the sealed listing ----

  lemma {:induction false} EntriesOfAt(h: Hasher, cur: nat, f: Folder, names: seq<string>, i: nat)
    requires Writable(f) && i < |names| && forall n :: n in names ==> n in f.entries
    ensures EntriesOf(h, cur, f, names)[i] == EntryOf(h, cur, names[i], f.entries[names[i]])
    decreases |names|
  {
    hide EntryOf, Writable;
    if i < |names| - 1 {
      EntriesOfAt(h, cur, f, names[..|names| - 1], i);
    }
  }

  lemma {:induction false} AscendingRegular(last: Option<string>, es: seq<Entry>)
    requires forall i :: 0 <= i < |es| && es[i].FileEntry? ==> |es[i].chunks| <= MAX_CHUNKS_PER_FILE
    requires forall i, j :: 0 <= i < j < |es| ==> Less(es[i].name, es[j].name)
    requires last.Some? && es != [] ==> Less(last.value, es[0].name)
    ensures Regular(last, es)
    decreases |es|
  {
    hide Less, Len;
    if es != [] {
      AscendingRegular(Some(es[0].name), es[1..]);
    }
  }

  /** What an accepted directory is sealed as breaks no rule but possibly those on names. */
  lemma SealedRegular(h: Hasher, cur: nat, f: Folder, es: seq<Entry>)
    requires Writable(f) && Accepts(h, cur, f)
    requires (SortedLists(f.entries.Keys); es == EntriesOf(h, cur, f, Sorted(f.entries.Keys)))
    ensures |es| <= MAX_TREE_FANOUT && Regular(None, es) && Plain(h, cur, f) == EncodeTree(es)
    ensures forall n :: n in f.entries <==> exists e :: e in es && e.name == n
  {
    var names := Sorted(f.entries.Keys);
    SortedLists(f.entries.Keys);
    NamesCount(f, names);
    assert OVERHEAD + |EncodeTree(es)| <= MAX_BLOB_SIZE && |es| <= MAX_TREE_FANOUT;
    hide Sorted, Less, Len, EntryOf, EntriesOf, Writable, Accepts, EncodeTree, Regular;
    forall i | 0 <= i < |es| ensures es[i].name == names[i] {
      EntriesOfAt(h, cur, f, names, i);
    }
    ChunksFit(es);
    AscendingRegular(None, es);
    NamesListed(f, names, es);
  }

  lemma ChunksFit(es: seq<Entry>)
    requires OVERHEAD + |EncodeTree(es)| <= MAX_BLOB_SIZE
    ensures forall i :: 0 <= i < |es| && es[i].FileEntry? ==> |es[i].chunks| <= MAX_CHUNKS_PER_FILE
  {
    ListingSize(es, []);
    CountSize(es);
    hide EncodeTree, PutList, Len;
    assert forall i :: 0 <= i < |es| ==> es[i] in es;
  }

  lemma NamesListed(f: Folder, names: seq<string>, es: seq<Entry>)
    requires (forall n :: n in f.entries.Keys <==> n in names) && |es| == |names|
    requires forall i :: 0 <= i < |es| ==> es[i].name == names[i]
    ensures forall n :: n in f.entries <==> exists e :: e in es && e.name == n
  {
    hide Len;
    forall n ensures n in f.entries <==> exists e :: e in es && e.name == n {
      if n in f.entries {
        assert n in f.entries.Keys;
        var i :| 0 <= i < |names| && names[i] == n;
        assert es[i] in es;
      }
      if e :| e in es && e.name == n {
        var i :| 0 <= i < |es| && es[i] == e;
        assert names[i] in names;
      }
    }
  }

  lemma CountSize(es: seq<Entry>)
    ensures |EncodeTree(es)| == 4 + |PutList(PutEntry, es, [])|
  {
    hide PutCount, PutList;
  }

  // ---- loading what was sealed ----

  /** A directory that the loader can follow from `depth`. */
  ghost predicate Loadable(f: Folder, depth: nat) {
    depth < MAX_TREE_DEPTH && WellNamed(f) && DepthAtMost(f, MAX_TREE_DEPTH - 1 - depth)
  }

  /** Loading `f` from its id gives `f` back exactly when it is loadable, and fails otherwise. */
  ghost predicate LoadsBack(h: Hasher, cur: nat, ring: Ring, blobs: Blobs, f: Folder, salt: Salt, depth: nat)
    requires Writable(f)
  {
    var r := Load(h, ring, blobs, RootId(h, cur, f, salt), salt, depth);
    (r.Ok? <==> Loadable(f, depth)) && (r.Ok? ==> r.value == f)
  }

  ghost predicate ChildFine(f: Folder, n: string, depth: nat)
    requires n in f.entries
  {
    f.entries[n].Dir? ==> Loadable(f.entries[n].children, depth + 1)
  }

  function Restrict(f: Folder, names: seq<string>): Folder {
    Folder(map n | n in f.entries && n in names :: f.entries[n])
  }

  lemma RestrictGrows(f: Folder, names: seq<string>)
    requires Distinct(names) && names != [] && names[|names| - 1] in f.entries
    ensures var n := names[|names| - 1];
            Put(Restrict(f, names[..|names| - 1]), n, f.entries[n]) == Restrict(f, names)
  {
    InitMembers(names);
    var n := names[|names| - 1];
    assert Put(Restrict(f, names[..|names| - 1]), n, f.entries[n]).entries == Restrict(f, names).entries;
  }

  lemma EntriesOfLast(h: Hasher, cur: nat, f: Folder, names: seq<string>)
    requires Writable(f) && names != [] && forall n :: n in names ==> n in f.entries
    ensures var (es, n) := (EntriesOf(h, cur, f, names), names[|names| - 1]);
            && es[..|es| - 1] == EntriesOf(h, cur, f, names[..|names| - 1])
            && es[|es| - 1] == EntryOf(h, cur, n, f.entries[n])
  {
    hide EntryOf, Writable, Len;
  }

  lemma LoadEntriesLast(h: Hasher, ring: Ring, blobs: Blobs, es: seq<Entry>, depth: nat)
    requires depth < MAX_TREE_DEPTH && es != []
    ensures var init := LoadEntries(h, ring, blobs, es[..|es| - 1], depth);
            var e := LoadEntry(h, ring, blobs, es[|es| - 1], depth);
            var r := LoadEntries(h, ring, blobs, es, depth);
            (r.Ok? <==> init.Ok? && e.Ok?) && (r.Ok? ==> r.value == Put(init.value, es[|es| - 1].name, e.value))
  {
    hide LoadEntry, Len;
  }

  ghost predicate AllFine(f: Folder, names: seq<string>, depth: nat)
    requires forall n :: n in names ==> n in f.entries
  {
    forall n :: n in names ==> ChildFine(f, n, depth)
  }

  /** The loader over a prefix of the sealed listing, given that each child loads back. */
  lemma {:induction false} PrefixLoads(h: Hasher, cur: nat, ring: Ring, blobs: Blobs, f: Folder, depth: nat,
                                       names: seq<string>)
    requires Writable(f) && depth < MAX_TREE_DEPTH && Distinct(names) && forall n :: n in names ==> n in f.entries
    requires forall n :: n in f.entries && f.entries[n].Dir? ==>
            LoadsBack(h, cur, ring, blobs, f.entries[n].children, f.entries[n].salt, depth + 1)
    ensures var r := LoadEntries(h, ring, blobs, EntriesOf(h, cur, f, names), depth);
            (r.Ok? <==> AllFine(f, names, depth)) && (r.Ok? ==> r.value == Restrict(f, names))
    decreases |names|
  {
    if names == [] {
      hide Load, LoadEntry, LoadsBack, EntryOf, Writable, Loadable, Len;
      assert Restrict(f, names).entries == map[];
    } else {
      var init, n := names[..|names| - 1], names[|names| - 1];
      var es := EntriesOf(h, cur, f, names);
      assert Len(n) <= 0xFFFF_FFFF && (f.entries[n].Dir? ==> Writable(f.entries[n].children));
      hide Load, LoadEntry, LoadEntries, LoadsBack, EntryOf, Writable, Loadable, EntriesOf, Len, Distinct;
      InitMembers(names);
      PrefixLoads(h, cur, ring, blobs, f, depth, init);
      EntriesOfLast(h, cur, f, names);
      EntryLoads(h, cur, ring, blobs, n, f.entries[n], depth);
      LoadEntriesLast(h, ring, blobs, es, depth);
      RestrictGrows(f, names);
      assert forall m :: m in names <==> m in init || m == n;
      assert AllFine(f, names, depth) <==> AllFine(f, init, depth) && ChildFine(f, n, depth);
    }
  }

  lemma EntryLoads(h: Hasher, cur: nat, ring: Ring, blobs: Blobs, name: string, n: Node, depth: nat)
    requires Len(name) <= 0xFFFF_FFFF && depth < MAX_TREE_DEPTH && (n.Dir? ==> Writable(n.children))
    requires n.Dir? ==> LoadsBack(h, cur, ring, blobs, n.children, n.salt, depth + 1)
    ensures var r := LoadEntry(h, ring, blobs, EntryOf(h, cur, name, n), depth);
            (r.Ok? <==> (n.Dir? ==> Loadable(n.children, depth + 1))) && (r.Ok? ==> r.value == n)
  {
    hide Load, Loadable, Writable, Len, RootId;
  }

  lemma LoadableSplit(f: Folder, depth: nat)
    requires depth < MAX_TREE_DEPTH
    ensures Loadable(f, depth) <==> forall n :: n in f.entries ==> GoodName(n) && ChildFine(f, n, depth)
  {
    hide GoodName;
    if Loadable(f, depth) {
      forall n | n in f.entries ensures GoodName(n) && ChildFine(f, n, depth) { }
    }
    if forall n :: n in f.entries ==> GoodName(n) && ChildFine(f, n, depth) {
      var d := MAX_TREE_DEPTH - 1 - depth;
      forall n | n in f.entries && f.entries[n].Dir? ensures d > 0 && DepthAtMost(f.entries[n].children, d - 1) {
        assert ChildFine(f, n, depth);
      }
      forall n | n in f.entries ensures GoodName(n) && (f.entries[n].Dir? ==> WellNamed(f.entries[n].children)) {
        assert ChildFine(f, n, depth);
      }
    }
  }

  /** What `seal_nodes` accepts and stores loads back to the same nodes, exactly when the loader can follow it. */
  lemma {:induction false} SealedLoads(h: Hasher, cur: nat, ring: Ring, blobs: Blobs, f: Folder, salt: Salt, depth: nat)
    requires Writable(f) && Accepts(h, cur, f) && Held(h, cur, blobs, f, salt) && cur in ring
    ensures LoadsBack(h, cur, ring, blobs, f, salt, depth)
    decreases f
  {
    if depth < MAX_TREE_DEPTH {
      forall n | n in f.entries && f.entries[n].Dir?
        ensures LoadsBack(h, cur, ring, blobs, f.entries[n].children, f.entries[n].salt, depth + 1)
      {
        SealedLoads(h, cur, ring, blobs, f.entries[n].children, f.entries[n].salt, depth + 1);
      }
      SealedLoadsHere(h, cur, ring, blobs, f, salt, depth);
    }
  }

  lemma SealedLoadsHere(h: Hasher, cur: nat, ring: Ring, blobs: Blobs, f: Folder, salt: Salt, depth: nat)
    requires Writable(f) && Accepts(h, cur, f) && depth < MAX_TREE_DEPTH && cur in ring
    requires Stored(h, cur, blobs, f, salt)
    requires forall n :: n in f.entries && f.entries[n].Dir? ==>
            LoadsBack(h, cur, ring, blobs, f.entries[n].children, f.entries[n].salt, depth + 1)
    ensures LoadsBack(h, cur, ring, blobs, f, salt, depth)
  {
    SortedLists(f.entries.Keys);
    var names := Sorted(f.entries.Keys);
    var es := EntriesOf(h, cur, f, names);
    ListingLoads(h, cur, ring, blobs, f, depth, es);
    hide Sorted, EntriesOf, DecodeTree, EncodeTree, LoadEntries, Loadable, Accepts, Writable, Plain;
    LoadOpens(h, cur, ring, blobs, RootId(h, cur, f, salt), salt, depth, Plain(h, cur, f), es);
    hide Load;
  }

  /** The sealed listing decodes and loads exactly when the directory is loadable. */
  lemma ListingLoads(h: Hasher, cur: nat, ring: Ring, blobs: Blobs, f: Folder, depth: nat, es: seq<Entry>)
    requires Writable(f) && Accepts(h, cur, f) && depth < MAX_TREE_DEPTH
    requires (SortedLists(f.entries.Keys); es == EntriesOf(h, cur, f, Sorted(f.entries.Keys)))
    requires forall n :: n in f.entries && f.entries[n].Dir? ==>
            LoadsBack(h, cur, ring, blobs, f.entries[n].children, f.entries[n].salt, depth + 1)
    ensures var d := DecodeTree(Plain(h, cur, f));
            var r := LoadEntries(h, ring, blobs, es, depth);
            && (d.Ok? ==> d == Ok(es)) && (d.Ok? && r.Ok? <==> Loadable(f, depth))
            && (d.Ok? && r.Ok? ==> r.value == f)
  {
    var names := Sorted(f.entries.Keys);
    SortedLists(f.entries.Keys);
    hide Sorted, EntriesOf, DecodeTree, EncodeTree, LoadEntries, Loadable, GoodName, Regular, Accepts, Writable,
      RootId, Plain, ChildFine, Len, LoadsBack, Restrict, AllFine;
    SealedRegular(h, cur, f, es);
    RegularTree(es);
    AscendingDistinct(names);
    PrefixLoads(h, cur, ring, blobs, f, depth, names);
    LoadableSplit(f, depth);
    NamesAgree(f, es);
    WholeRestrict(f, names);
    FineAgree(f, names, depth);
  }

  /** Loading an id whose stored plaintext is the encoding of `es`. */
  lemma LoadOpens(h: Hasher, cur: nat, ring: Ring, blobs: Blobs, id: Hash, salt: Salt, depth: nat,
                  plain: Bytes, es: seq<Entry>)
    requires id in blobs && blobs[id] == Box(id, cur, plain) && h(cur, salt, plain) == id && cur in ring
    requires depth < MAX_TREE_DEPTH
    requires DecodeTree(plain).Ok? ==> DecodeTree(plain) == Ok(es)
    ensures var r := Load(h, ring, blobs, id, salt, depth);
            if DecodeTree(plain).Ok? then r == LoadEntries(h, ring, blobs, es, depth) else r.Err?
  {
    hide DecodeTree, LoadEntries;
  }

  lemma WholeRestrict(f: Folder, names: seq<string>)
    requires forall n :: n in f.entries.Keys <==> n in names
    ensures Restrict(f, names) == f
  {
    assert Restrict(f, names).entries == f.entries;
  }

  lemma FineAgree(f: Folder, names: seq<string>, depth: nat)
    requires forall n :: n in f.entries.Keys <==> n in names
    ensures AllFine(f, names, depth) <==> forall n :: n in f.entries ==> ChildFine(f, n, depth)
  {
    hide ChildFine;
    forall n ensures n in names <==> n in f.entries { assert n in names <==> n in f.entries.Keys; }
  }

  lemma NamesAgree(f: Folder, es: seq<Entry>)
    requires forall n :: n in f.entries <==> exists e :: e in es && e.name == n
    ensures (forall e :: e in es ==> GoodName(e.name)) == (forall n :: n in f.entries ==> GoodName(n))
  {
    hide GoodName;
  }

  /**
   A listing opens if and only if a box sealed for this very id stands under it, of a generation the ring
   holds, whose bytes hash to the id with that generation and salt and are the listing's encoding.
   */
  lemma OpenExact(h: Hasher, ring: Ring, blobs: Blobs, id: Hash, salt: Salt, es: seq<Entry>)
    ensures LoadTree(h, ring, blobs, id, salt) == Ok(es) <==>
            id in blobs && TreeOk(es) && exists gen: nat ::
              gen in ring && blobs[id] == Box(id, gen, EncodeTree(es)) && h(gen, salt, EncodeTree(es)) == id
  {
    if LoadTree(h, ring, blobs, id, salt) == Ok(es) {
      TreeStrict(blobs[id].plain);
      hide EncodeTree, DecodeTree, TreeOk;
      assert blobs[id] == Box(id, blobs[id].gen, EncodeTree(es));
    }
    if TreeOk(es) {
      TreeUndone(es);
      hide EncodeTree, DecodeTree, TreeOk;
    }
  }

  // ---- sealing what was loaded ----

  /** Everything the decoder and the loader guarantee of a loaded directory. */
  ghost predicate Decoded(f: Folder, depth: nat) {
    Writable(f) && Loadable(f, depth) && Fanned(f)
  }

  function NamesOf(es: seq<Entry>): seq<string> {
    seq(|es|, i requires 0 <= i < |es| => es[i].name)
  }

  /** `f` holds exactly what the entries load as. */
  ghost predicate LoadedAs(h: Hasher, ring: Ring, blobs: Blobs, es: seq<Entry>, f: Folder, depth: nat)
    requires depth < MAX_TREE_DEPTH
  {
    && f.entries.Keys == (set n | n in NamesOf(es))
    && forall i :: 0 <= i < |es| ==>
      es[i].name in f.entries && LoadEntry(h, ring, blobs, es[i], depth) == Ok(f.entries[es[i].name])
  }

  /** Every stored level below `id` was sealed at generation `cur`. */
  ghost predicate AllAt(cur: nat, blobs: Blobs, id: Hash, depth: nat)
    decreases MAX_TREE_DEPTH - depth
  {
    && depth < MAX_TREE_DEPTH && id in blobs && blobs[id].gen == cur && DecodeTree(blobs[id].plain).Ok?
    && forall e :: e in DecodeTree(blobs[id].plain).value && e.DirEntry? ==> AllAt(cur, blobs, e.subtree, depth + 1)
  }

  /** Every stored level below `id` is, with its generation and salt, among those in play. */
  ghost predicate StoredIn(u: set<Sealed>, blobs: Blobs, id: Hash, salt: Salt, depth: nat)
    decreases MAX_TREE_DEPTH - depth
  {
    && depth < MAX_TREE_DEPTH && id in blobs && DecodeTree(blobs[id].plain).Ok?
    && (blobs[id].gen, salt, blobs[id].plain) in u
    && forall e :: e in DecodeTree(blobs[id].plain).value && e.DirEntry? ==>
      StoredIn(u, blobs, e.subtree, e.subtreeSalt, depth + 1)
  }

  lemma {:induction false} RulesAscend(last: Option<string>, es: seq<Entry>)
    requires EntriesOk(last, es)
    ensures Ascending(NamesOf(es)) && forall e :: e in es ==> EntryOk(e)
    ensures last.Some? ==> forall i :: 0 <= i < |es| ==> Less(last.value, es[i].name)
    decreases |es|
  {
    hide Less, Len, EntryOk;
    if es != [] {
      RulesAscend(Some(es[0].name), es[1..]);
      forall i | 0 <= i < |es| ensures last.Some? ==> Less(last.value, es[i].name) {
        if i > 0 && last.Some? { LessTransitive(last.value, es[0].name, es[1..][i - 1].name); }
      }
      forall i, j | 0 <= i < j < |es| ensures Less(NamesOf(es)[i], NamesOf(es)[j]) {
        assert es[j] == es[1..][j - 1];
        if i > 0 { assert NamesOf(es[1..])[i - 1] == es[i].name && NamesOf(es[1..])[j - 1] == es[j].name; }
      }
      assert es == [es[0]] + es[1..];
    }
  }

  lemma {:induction false} LoadedPrefix(h: Hasher, ring: Ring, blobs: Blobs, es: seq<Entry>, depth: nat)
    requires depth < MAX_TREE_DEPTH && Distinct(NamesOf(es)) && LoadEntries(h, ring, blobs, es, depth).Ok?
    ensures LoadedAs(h, ring, blobs, es, LoadEntries(h, ring, blobs, es, depth).value, depth)
    decreases |es|
  {
    hide LoadEntries, LoadEntry, Distinct, Len, NamesOf, LoadedAs;
    if es == [] {
      NothingLoaded(h, ring, blobs, depth);
    } else {
      var init, e := es[..|es| - 1], es[|es| - 1];
      LoadEntriesLast(h, ring, blobs, es, depth);
      NamesInit(es);
      InitMembers(NamesOf(es));
      LoadedPrefix(h, ring, blobs, init, depth);
      LoadedGrows(h, ring, blobs, init, e, LoadEntries(h, ring, blobs, init, depth).value, depth);
      assert es == init + [e];
    }
  }

  lemma NothingLoaded(h: Hasher, ring: Ring, blobs: Blobs, depth: nat)
    requires depth < MAX_TREE_DEPTH
    ensures LoadEntries(h, ring, blobs, [], depth) == Ok(Folder(map[]))
    ensures LoadedAs(h, ring, blobs, [], Folder(map[]), depth)
  {
  }

  lemma NamesInit(es: seq<Entry>)
    requires es != []
    ensures |NamesOf(es)| == |es| && NamesOf(es)[..|es| - 1] == NamesOf(es[..|es| - 1]) &&
            NamesOf(es)[|es| - 1] == es[|es| - 1].name
  {
    hide Len;
  }

  lemma LoadedGrows(h: Hasher, ring: Ring, blobs: Blobs, es: seq<Entry>, e: Entry, f: Folder, depth: nat)
    requires depth < MAX_TREE_DEPTH && LoadedAs(h, ring, blobs, es, f, depth)
    requires e.name !in NamesOf(es) && LoadEntry(h, ring, blobs, e, depth).Ok?
    ensures LoadedAs(h, ring, blobs, es + [e], Put(f, e.name, LoadEntry(h, ring, blobs, e, depth).value), depth)
  {
    hide LoadEntry, Len;
    assert NamesOf(es + [e]) == NamesOf(es) + [e.name];
    forall i | 0 <= i < |es| ensures es[i].name != e.name {
      assert NamesOf(es)[i] == es[i].name;
    }
  }

  /** A load opens one listing, whose rules hold, and loads its entries. */
  lemma LoadedListing(h: Hasher, ring: Ring, blobs: Blobs, id: Hash, salt: Salt, depth: nat) returns (es: seq<Entry>)
    requires Load(h, ring, blobs, id, salt, depth).Ok?
    ensures depth < MAX_TREE_DEPTH && id in blobs && h(blobs[id].gen, salt, blobs[id].plain) == id
    ensures DecodeTree(blobs[id].plain) == Ok(es) && EncodeTree(es) == blobs[id].plain && |es| <= MAX_TREE_FANOUT
    ensures Ascending(NamesOf(es)) && forall e :: e in es ==> EntryOk(e)
    ensures LoadedAs(h, ring, blobs, es, Load(h, ring, blobs, id, salt, depth).value, depth)
  {
    es := LoadTree(h, ring, blobs, id, salt).value;
    TreeStrict(blobs[id].plain);
    RulesAscend(None, es);
    AscendingDistinct(NamesOf(es));
    hide DecodeTree, EncodeTree, LoadEntries, NamesOf, EntryOk, EntriesOk, Ascending, Distinct, LoadedAs;
    LoadedPrefix(h, ring, blobs, es, depth);
  }

  /** The entry a loaded child comes from. */
  lemma ChildEntry(h: Hasher, ring: Ring, blobs: Blobs, es: seq<Entry>, f: Folder, depth: nat, n: string)
    returns (e: Entry)
    requires depth < MAX_TREE_DEPTH && LoadedAs(h, ring, blobs, es, f, depth) && n in f.entries
    ensures e in es && e.name == n && e.DirEntry? == f.entries[n].Dir?
    ensures e.DirEntry? ==>
            && e.subtreeSalt == f.entries[n].salt
            && Load(h, ring, blobs, e.subtree, e.subtreeSalt, depth + 1) == Ok(f.entries[n].children)
  {
    hide Load, Len;
    assert n in f.entries.Keys;
    var i :| 0 <= i < |NamesOf(es)| && NamesOf(es)[i] == n;
    e := es[i];
  }

  /** What loads is within every rule the decoder and the depth limit impose. */
  lemma {:induction false} LoadDecoded(h: Hasher, ring: Ring, blobs: Blobs, id: Hash, salt: Salt, depth: nat)
    requires Load(h, ring, blobs, id, salt, depth).Ok?
    ensures Decoded(Load(h, ring, blobs, id, salt, depth).value, depth)
    decreases MAX_TREE_DEPTH - depth
  {
    hide Load, LoadedAs, Ascending, EntryOk, DecodeTree, EncodeTree, Loadable, Fanned, Writable, Len, GoodName, NamesOf;
    var f := Load(h, ring, blobs, id, salt, depth).value;
    var es := LoadedListing(h, ring, blobs, id, salt, depth);
    forall n | n in f.entries
      ensures GoodName(n) && (f.entries[n].Dir? ==> Decoded(f.entries[n].children, depth + 1))
    {
      var e := ChildEntry(h, ring, blobs, es, f, depth, n);
      GoodEntry(e);
      if e.DirEntry? {
        LoadDecoded(h, ring, blobs, e.subtree, e.subtreeSalt, depth + 1);
      }
    }
    FannedHere(h, ring, blobs, es, f, depth);
    FolderDecoded(f, depth);
  }

  lemma GoodEntry(e: Entry)
    requires EntryOk(e)
    ensures GoodName(e.name)
  {
  }

  lemma FannedHere(h: Hasher, ring: Ring, blobs: Blobs, es: seq<Entry>, f: Folder, depth: nat)
    requires depth < MAX_TREE_DEPTH && LoadedAs(h, ring, blobs, es, f, depth) && Ascending(NamesOf(es))
    ensures |f.entries| == |es| && NamesOf(es) == Sorted(f.entries.Keys)
  {
    hide Sorted, Less, Len, LoadEntry;
    SortedLists(f.entries.Keys);
    AscendingUnique(NamesOf(es), Sorted(f.entries.Keys));
    NamesCount(f, NamesOf(es));
  }

  lemma FolderDecoded(f: Folder, depth: nat)
    requires depth < MAX_TREE_DEPTH && |f.entries| <= MAX_TREE_FANOUT
    requires forall n :: n in f.entries ==>
            GoodName(n) && (f.entries[n].Dir? ==> Decoded(f.entries[n].children, depth + 1))
    ensures Decoded(f, depth)
  {
    hide Loadable, SafeName, Len;
    forall n | n in f.entries ensures ChildFine(f, n, depth) { }
    LoadableSplit(f, depth);
  }

  /** `n` seals at `cur` to the entry `e` it was loaded from. */
  ghost predicate SealsTo(h: Hasher, cur: nat, e: Entry, n: Node) {
    Len(e.name) <= 0xFFFF_FFFF && (n.Dir? ==> Writable(n.children)) && EntryOf(h, cur, e.name, n) == e
  }

  lemma EntriesBack(h: Hasher, cur: nat, es: seq<Entry>, f: Folder)
    requires Writable(f) && forall i :: 0 <= i < |es| ==> es[i].name in f.entries
    requires forall i :: 0 <= i < |es| ==> SealsTo(h, cur, es[i], f.entries[es[i].name])
    ensures (forall n :: n in NamesOf(es) ==> n in f.entries) && EntriesOf(h, cur, f, NamesOf(es)) == es
  {
    hide EntriesOf, EntryOf, Writable, Len;
    var names := NamesOf(es);
    forall i | 0 <= i < |es| ensures EntriesOf(h, cur, f, names)[i] == es[i] {
      EntriesOfAt(h, cur, f, names, i);
      assert SealsTo(h, cur, es[i], f.entries[es[i].name]);
    }
  }

  lemma {:induction false} CurrentReseals(h: Hasher, cur: nat, ring: Ring, blobs: Blobs, id: Hash, salt: Salt,
                                          depth: nat)
    requires Load(h, ring, blobs, id, salt, depth).Ok? && AllAt(cur, blobs, id, depth)
    ensures var f := Load(h, ring, blobs, id, salt, depth).value; Writable(f) && RootId(h, cur, f, salt) == id
    decreases MAX_TREE_DEPTH - depth, 1
  {
    hide Load, LoadEntry, Ascending, EntryOk, DecodeTree, EncodeTree, Loadable, Fanned, Writable, Len, SealsTo, Sorted,
      EntriesOf, NamesOf;
    var f := Load(h, ring, blobs, id, salt, depth).value;
    var es := LoadedListing(h, ring, blobs, id, salt, depth);
    LoadDecoded(h, ring, blobs, id, salt, depth);
    forall i | 0 <= i < |es| ensures SealsTo(h, cur, es[i], f.entries[es[i].name]) {
      EntryReseals(h, cur, ring, blobs, es[i], depth);
    }
    EntriesBack(h, cur, es, f);
    FannedHere(h, ring, blobs, es, f, depth);
  }

  lemma EntryReseals(h: Hasher, cur: nat, ring: Ring, blobs: Blobs, e: Entry, depth: nat)
    requires depth < MAX_TREE_DEPTH && LoadEntry(h, ring, blobs, e, depth).Ok? && EntryOk(e)
    requires e.DirEntry? ==> AllAt(cur, blobs, e.subtree, depth + 1)
    ensures SealsTo(h, cur, e, LoadEntry(h, ring, blobs, e, depth).value)
    decreases MAX_TREE_DEPTH - depth, 0
  {
    hide Load, AllAt, Writable, SafeName, RootId;
    if e.DirEntry? {
      CurrentReseals(h, cur, ring, blobs, e.subtree, e.subtreeSalt, depth + 1);
    }
  }

  /** A loaded directory can only re-encode to the bytes it came from as the very same listing. */
  lemma SameListing(h: Hasher, cur: nat, ring: Ring, blobs: Blobs, es: seq<Entry>, f: Folder, depth: nat)
    requires depth < MAX_TREE_DEPTH && LoadedAs(h, ring, blobs, es, f, depth) && Writable(f)
    requires Ascending(NamesOf(es)) && (forall e :: e in es ==> EntryOk(e)) && |es| <= MAX_TREE_FANOUT
    requires DecodeTree(EncodeTree(es)) == Ok(es) && Plain(h, cur, f) == EncodeTree(es)
    ensures (forall n :: n in NamesOf(es) ==> n in f.entries) && EntriesOf(h, cur, f, NamesOf(es)) == es
  {
    FannedHere(h, ring, blobs, es, f, depth);
    SortedLists(f.entries.Keys);
    var again := EntriesOf(h, cur, f, NamesOf(es));
    assert EncodeTree(again) == EncodeTree(es);
    hide Load, EntriesOf, EntryOf, Writable, DecodeTree, EncodeTree, Less, Len, Sorted, Plain, EntryOk, LoadEntry,
      RootId, Regular;
    forall i | 0 <= i < |es|
      ensures again[i].name == es[i].name && GoodName(es[i].name)
      ensures again[i].FileEntry? ==> |again[i].chunks| <= MAX_CHUNKS_PER_FILE
    {
      EntriesOfAt(h, cur, f, NamesOf(es), i);
      Resembles(h, cur, ring, blobs, es[i], f.entries[es[i].name], depth);
    }
    AscendingListing(es, again);
    RegularTree(again);
  }

  lemma AscendingListing(es: seq<Entry>, again: seq<Entry>)
    requires Ascending(NamesOf(es)) && |again| == |es| && forall i :: 0 <= i < |es| ==> again[i].name == es[i].name
    requires forall i :: 0 <= i < |again| && again[i].FileEntry? ==> |again[i].chunks| <= MAX_CHUNKS_PER_FILE
    ensures Regular(None, again)
  {
    hide Less, Len, Regular;
    forall i, j | 0 <= i < j < |again| ensures Less(again[i].name, again[j].name) {
      assert NamesOf(es)[i] == again[i].name && NamesOf(es)[j] == again[j].name;
    }
    AscendingRegular(None, again);
  }

  /** Re-sealing an entry changes nothing in it but a subtree id. */
  lemma Resembles(h: Hasher, cur: nat, ring: Ring, blobs: Blobs, e: Entry, n: Node, depth: nat)
    requires depth < MAX_TREE_DEPTH && EntryOk(e) && LoadEntry(h, ring, blobs, e, depth) == Ok(n)
    requires Len(e.name) <= 0xFFFF_FFFF && (n.Dir? ==> Writable(n.children))
    ensures GoodName(e.name) && EntryOf(h, cur, e.name, n).name == e.name
    ensures var a := EntryOf(h, cur, e.name, n); a.FileEntry? ==> |a.chunks| <= MAX_CHUNKS_PER_FILE
  {
    hide Load, Writable, RootId, Len, SafeName;
  }

  lemma {:induction false} ResealsCurrent(h: Hasher, cur: nat, ring: Ring, u: set<Sealed>, blobs: Blobs, id: Hash,
                                          salt: Salt, depth: nat)
    requires Load(h, ring, blobs, id, salt, depth).Ok? && InjectiveOn(h, u) && StoredIn(u, blobs, id, salt, depth)
    requires var f := Load(h, ring, blobs, id, salt, depth).value;
             Writable(f) && PlainsIn(h, cur, u, f, salt) && RootId(h, cur, f, salt) == id
    ensures AllAt(cur, blobs, id, depth)
    decreases MAX_TREE_DEPTH - depth
  {
    hide Load, LoadedAs, Ascending, EntryOk, DecodeTree, EncodeTree, Loadable, Fanned, Writable, Len, Sorted,
      EntriesOf, NamesOf, Plain;
    var f := Load(h, ring, blobs, id, salt, depth).value;
    var es := LoadedListing(h, ring, blobs, id, salt, depth);
    assert Plain(h, cur, f) == EncodeTree(es) && blobs[id].gen == cur;
    SameListing(h, cur, ring, blobs, es, f, depth);
    forall e | e in es && e.DirEntry? ensures AllAt(cur, blobs, e.subtree, depth + 1) {
      SameSubtree(h, cur, ring, blobs, es, f, depth, e);
      ResealsCurrent(h, cur, ring, u, blobs, e.subtree, e.subtreeSalt, depth + 1);
    }
  }

  lemma SameSubtree(h: Hasher, cur: nat, ring: Ring, blobs: Blobs, es: seq<Entry>, f: Folder, depth: nat, e: Entry)
    requires depth < MAX_TREE_DEPTH && LoadedAs(h, ring, blobs, es, f, depth) && Writable(f)
    requires e in es && e.DirEntry? && forall n :: n in NamesOf(es) ==> n in f.entries
    requires EntriesOf(h, cur, f, NamesOf(es)) == es
    ensures var n := f.entries[e.name];
            e.name in f.entries && n.Dir? && n.salt == e.subtreeSalt && Writable(n.children) &&
            Load(h, ring, blobs, e.subtree, e.subtreeSalt, depth + 1) == Ok(n.children) &&
            RootId(h, cur, n.children, n.salt) == e.subtree
  {
    hide Load, EntriesOf, Len, RootId;
    var i :| 0 <= i < |es| && es[i] == e;
    EntriesOfAt(h, cur, f, NamesOf(es), i);
  }

  /**
   A loaded tree re-seals at the current generation to the id it was loaded from if and only if every
   stored level of it is of the current generation. Only "only if" needs `h` to be injective on the
   listings involved, those stored and those sealed anew.
   */
  lemma LoadReseals(h: Hasher, cur: nat, ring: Ring, u: set<Sealed>, blobs: Blobs, id: Hash, salt: Salt, depth: nat)
    requires Load(h, ring, blobs, id, salt, depth).Ok?
    ensures var f := Load(h, ring, blobs, id, salt, depth).value;
            && Decoded(f, depth)
            && (AllAt(cur, blobs, id, depth) ==> RootId(h, cur, f, salt) == id)
            && (InjectiveOn(h, u) && StoredIn(u, blobs, id, salt, depth) && PlainsIn(h, cur, u, f, salt) ==>
                  (RootId(h, cur, f, salt) == id <==> AllAt(cur, blobs, id, depth)))
  {
    hide Load, AllAt, Loadable, Fanned, Writable, RootId, InjectiveOn, StoredIn, PlainsIn;
    var f := Load(h, ring, blobs, id, salt, depth).value;
    LoadDecoded(h, ring, blobs, id, salt, depth);
    if AllAt(cur, blobs, id, depth) {
      CurrentReseals(h, cur, ring, blobs, id, salt, depth);
    } else if InjectiveOn(h, u) && StoredIn(u, blobs, id, salt, depth) && PlainsIn(h, cur, u, f, salt) {
      if RootId(h, cur, f, salt) == id {
        ResealsCurrent(h, cur, ring, u, blobs, id, salt, depth);
      }
    }
  }

  /** An empty folder sealed at generation 1 still loads after a rotation, and re-seals under another id. */
  lemma OldTreeResealsAnew(h: Hasher, salt: Salt)
    requires InjectiveOn(h, {(1, salt, EncodeTree([])), (2, salt, EncodeTree([]))})
    ensures var f, ring := Folder(map[]), {1, 2};
            var id := h(1, salt, EncodeTree([]));
            var blobs := map[id := Box(id, 1, EncodeTree([]))];
            && RootId(h, 1, f, salt) == id && Held(h, 1, blobs, f, salt)
            && Load(h, ring, blobs, id, salt, 0) == Ok(f)
            && RootId(h, 2, f, salt) != id
  {
    var f := Folder(map[]);
    EmptyPlain(h, 1, f);
    EmptyPlain(h, 2, f);
    TreeUndone([]);
    hide EncodeTree, DecodeTree, Plain;
  }

  lemma EmptyPlain(h: Hasher, g: nat, f: Folder)
    requires f == Folder(map[])
    ensures Writable(f) && Plain(h, g, f) == EncodeTree([])
  {
    hide EncodeTree, Sorted, Len;
    SortedLists(f.entries.Keys);
    AscendingUnique(Sorted(f.entries.Keys), []);
  }

  // ---- a merge never authors an undecodable tree ----

  /** The base of a merge may be missing, and is then empty. */
  ghost predicate LoadedOr(h: Hasher, ring: Ring, blobs: Blobs, f: Folder) {
    f == Folder(map[]) || exists id, salt :: Load(h, ring, blobs, id, salt, 0) == Ok(f)
  }

  lemma LoadedShape(h: Hasher, ring: Ring, blobs: Blobs, f: Folder)
    requires LoadedOr(h, ring, blobs, f)
    ensures Decoded(f, 0)
  {
    if f != Folder(map[]) {
      var id, salt :| Load(h, ring, blobs, id, salt, 0) == Ok(f);
      LoadDecoded(h, ring, blobs, id, salt, 0);
    }
  }

  lemma {:induction false} WellNamedWritable(f: Folder)
    requires WellNamed(f)
    ensures Writable(f)
    decreases f
  {
    forall n | n in f.entries ensures Len(n) <= 0xFFFF_FFFF && (f.entries[n].Dir? ==> Writable(f.entries[n].children)) {
      if f.entries[n].Dir? { WellNamedWritable(f.entries[n].children); }
    }
  }

  /**
   Merging trees loaded from any generations of the ring: if `seal_nodes` accepts the result at the
   current one, it loads back to exactly the merged nodes.
   */
  lemma MergedTreeLoads(h: Hasher, cur: nat, ring: Ring, before: Blobs, after: Blobs, b: Folder, o: Folder,
                        t: Folder, tag: string, salt: Salt)
    requires LoadedOr(h, ring, before, b) && LoadedOr(h, ring, before, o) && LoadedOr(h, ring, before, t)
    requires cur in ring && SafeChars(tag) && Len(tag) <= 4000
    ensures var m := MergeDir("", b, o, t, tag).tree;
            Writable(m) && (Accepts(h, cur, m) && Held(h, cur, after, m, salt) ==>
              Load(h, ring, after, RootId(h, cur, m, salt), salt, 0) == Ok(m))
  {
    hide MergeDir, Load, Accepts, Held, Len, RootId;
    LoadedShape(h, ring, before, b);
    LoadedShape(h, ring, before, o);
    LoadedShape(h, ring, before, t);
    var m := MergeDir("", b, o, t, tag).tree;
    MergeNamesGood("", b, o, t, tag);
    MergeDepth("", b, o, t, tag, MAX_TREE_DEPTH - 1);
    WellNamedWritable(m);
    if Accepts(h, cur, m) && Held(h, cur, after, m, salt) {
      SealedLoads(h, cur, ring, after, m, salt, 0);
    }
  }

  // ---- sealing alone does not check names ----

  /** One empty file under a name with a slash in it. */
  function Slashed(salt: Salt): Folder {
    Folder(map["a/b" := Node.File(0, 0, 0, salt, [])])
  }

  lemma SlashedEntries(h: Hasher, cur: nat, salt: Salt)
    ensures var f := Slashed(salt);
            Writable(f) && Sorted(f.entries.Keys) == ["a/b"] &&
            EntriesOf(h, cur, f, ["a/b"]) == [FileEntry("a/b", 0, 0, 0, salt, [])]
  {
    var f := Slashed(salt);
    assert f.entries.Keys == {"a/b"};
    assert Len("a/b") == 3;
    SortedLists({"a/b"});
    AscendingUnique(Sorted({"a/b"}), ["a/b"]);
    assert ["a/b"][..0] == [];
  }

  lemma SlashedSize(salt: Salt)
    ensures |EncodeTree([FileEntry("a/b", 0, 0, 0, salt, [])])| <= 100
  {
    assert Len("a/b") == 3;
    var e := FileEntry("a/b", 0, 0, 0, salt, []);
    assert [e][1..] == [];
    assert PutList(PutEntry, [e], []) == PutEntry(e, []);
  }

  /** `seal_nodes` accepts this folder, yet nothing it stores can be loaded again. */
  lemma UnsafeNameSealsUnloadable(h: Hasher, cur: nat, ring: Ring, blobs: Blobs, salt: Salt)
    requires cur in ring
    ensures var f := Slashed(salt);
            && Writable(f) && Accepts(h, cur, f)
            && (Held(h, cur, blobs, f, salt) ==> Load(h, ring, blobs, RootId(h, cur, f, salt), salt, 0).Err?)
  {
    var f := Slashed(salt);
    SlashedEntries(h, cur, salt);
    SlashedSize(salt);
    assert Accepts(h, cur, f);
    assert !GoodName("a/b") by {
      assert "a/b"[1] == '/' && !SafeChar("a/b"[1]);
    }
    assert "a/b" in f.entries && !WellNamed(f);
    if Held(h, cur, blobs, f, salt) {
      SealedLoads(h, cur, ring, blobs, f, salt, 0);
    }
  }
}
