/** The canonical bytes of a directory listing: safe names, strictly ascending, within the limits. */
module TreeCodec {
  import opened Prelude
  import opened Frame
  import opened Canon
  import opened Names
  import opened Utf8

  const MAX_CHUNKS_PER_FILE: nat := MAX_BLOB_SIZE / 32

  /** A name whose UTF-8 length fits its prefix; the writer refuses longer ones. */
  type Name = s: string | Len(s) <= 0xFFFF_FFFF

  datatype Entry =
    | FileEntry(name: Name, mode: U32, mtime: U64, size: U64, salt: Salt, chunks: seq<Hash>)
    | DirEntry(name: Name, mode: U32, mtime: U64, subtree: Hash, subtreeSalt: Salt)

  function PutName(n: Name, k: Bytes): Bytes {
    PutBytes(Utf8.Utf8(n), k)
  }

  /** A name that is valid UTF-8, safe, and after the previous entry's. */
  function GetName(last: Option<string>, s: Bytes): (r: Parsed<Name>)
    ensures r.Done? ==> s == PutName(r.value, r.rest) && GoodName(r.value) && (last.Some? ==> Less(last.value, r.value))
  {
    var (b, k) :- GetBytes(MAX_NAME_LEN, s);
    match FromUtf8(b)
    case None => Fail(NonUtf8Name)
    case Some(n) =>
      if !SafeName(n) then Fail(UnsafeName)
      else if last.Some? && !Less(last.value, n) then Fail(NotAscending)
      else Done(n, k)
  }

  function PutFileBody(e: Entry, k: Bytes): Bytes
    requires e.FileEntry?
  {
    PutU64(e.size, PutRaw(e.salt, PutHashes(e.chunks, k)))
  }

  function PutEntry(e: Entry, k: Bytes): Bytes {
    match e
    case FileEntry(name, mode, mtime, _, _, _) =>
      PutU8(0, PutName(name, PutU32(mode, PutU64(mtime, PutFileBody(e, k)))))
    case DirEntry(name, mode, mtime, sub, salt) =>
      PutU8(1, PutName(name, PutU32(mode, PutU64(mtime, PutRaw(sub, PutRaw(salt, k))))))
  }

  function GetFileBody(name: Name, mode: U32, mtime: U64, s: Bytes): Parsed<Entry> {
    var (size, s) :- GetU64(s);
    var (salt, s) :- GetSalt(s);
    var (chunks, k) :- GetHashes(MAX_CHUNKS_PER_FILE, s);
    Done(FileEntry(name, mode, mtime, size, salt, chunks), k)
  }

  function GetDirBody(name: Name, mode: U32, mtime: U64, s: Bytes): Parsed<Entry> {
    var (sub, s) :- GetHash(s);
    var (salt, k) :- GetSalt(s);
    Done(DirEntry(name, mode, mtime, sub, salt), k)
  }

  function GetEntry(last: Option<string>, s: Bytes): Parsed<Entry> {
    var (kind, s) :- GetU8(s);
    var (name, s) :- GetName(last, s);
    var (mode, s) :- GetU32(s);
    var (mtime, s) :- GetU64(s);
    if kind == 0 then GetFileBody(name, mode, mtime, s)
    else if kind == 1 then GetDirBody(name, mode, mtime, s)
    else Fail(BadTag(kind))
  }

  function GetEntries(n: nat, last: Option<string>, s: Bytes): Parsed<seq<Entry>> {
    if n == 0 then Done([], s)
    else
      var (e, s) :- GetEntry(last, s);
      var (es, k) :- GetEntries(n - 1, Some(e.name), s);
      Done([e] + es, k)
  }

  /** `encode_tree`. */
  function EncodeTree(es: seq<Entry>): Bytes {
    PutCount(|es|, PutList(PutEntry, es, []))
  }

  function GetTree(s: Bytes): Parsed<seq<Entry>> {
    var (n, s) :- GetCount(MAX_TREE_FANOUT, s);
    GetEntries(n, None, s)
  }

  /** `decode_tree`. */
  function DecodeTree(s: Bytes): Result<seq<Entry>, DecodeError> {
    Whole(GetTree(s))
  }

  // ---- exactly the decodable listings ----

  predicate EntryOk(e: Entry) {
    GoodName(e.name) && (e.FileEntry? ==> |e.chunks| <= MAX_CHUNKS_PER_FILE)
  }

  /** The entries are fine and ascend from `last`. */
  predicate EntriesOk(last: Option<string>, es: seq<Entry>)
    decreases |es|
  {
    es == [] ||
    (EntryOk(es[0]) && (last.Some? ==> Less(last.value, es[0].name)) && EntriesOk(Some(es[0].name), es[1..]))
  }

  predicate TreeOk(es: seq<Entry>) {
    |es| <= MAX_TREE_FANOUT && EntriesOk(None, es)
  }

  lemma NameUndone(last: Option<string>, n: Name, k: Bytes)
    requires GoodName(n) && (last.Some? ==> Less(last.value, n))
    ensures GetName(last, PutName(n, k)) == Done(n, k)
  {
    Prims();
    hide GetBytes, PutBytes, Less, SafeName;
    Utf8Undone(n);
  }

  lemma FileBodyUndone(e: Entry, k: Bytes)
    requires e.FileEntry? && |e.chunks| <= MAX_CHUNKS_PER_FILE
    ensures GetFileBody(e.name, e.mode, e.mtime, PutFileBody(e, k)) == Done(e, k)
  {
    hide GetU64, PutU64, GetSalt, PutRaw, GetHashes, PutHashes;
    Prims();
    HashesUndone(MAX_CHUNKS_PER_FILE, e.chunks, k);
  }

  lemma DirBodyUndone(e: Entry, k: Bytes)
    requires e.DirEntry?
    ensures GetDirBody(e.name, e.mode, e.mtime, PutRaw(e.subtree, PutRaw(e.subtreeSalt, k))) == Done(e, k)
  {
    hide GetHash, GetSalt, PutRaw;
    Prims();
  }

  lemma EntryUndone(last: Option<string>, e: Entry, k: Bytes)
    requires EntryOk(e) && (last.Some? ==> Less(last.value, e.name))
    ensures GetEntry(last, PutEntry(e, k)) == Done(e, k)
  {
    hide GetU8, PutU8, GetU32, PutU32, GetU64, PutU64, GetName, PutName, PutRaw, GetFileBody, PutFileBody, GetDirBody,
      GoodName, Less;
    Prims();
    var body := if e.FileEntry? then PutFileBody(e, k) else PutRaw(e.subtree, PutRaw(e.subtreeSalt, k));
    NameUndone(last, e.name, PutU32(e.mode, PutU64(e.mtime, body)));
    if e.FileEntry? { FileBodyUndone(e, k); } else { DirBodyUndone(e, k); }
  }

  lemma FileBodyStrict(name: Name, mode: U32, mtime: U64, s: Bytes)
    requires GetFileBody(name, mode, mtime, s).Done?
    ensures var r := GetFileBody(name, mode, mtime, s);
            r.value.FileEntry? && r.value.name == name && r.value.mode == mode && r.value.mtime == mtime &&
            |r.value.chunks| <= MAX_CHUNKS_PER_FILE && s == PutFileBody(r.value, r.rest)
  {
    hide GetU64, PutU64, GetSalt, PutRaw, GetHashes, PutHashes;
    HashesStrict(MAX_CHUNKS_PER_FILE, GetSalt(GetU64(s).rest).rest);
  }

  lemma EntryStrict(last: Option<string>, s: Bytes)
    requires GetEntry(last, s).Done?
    ensures var r := GetEntry(last, s);
            s == PutEntry(r.value, r.rest) && EntryOk(r.value) && (last.Some? ==> Less(last.value, r.value.name))
  {
    hide GetU8, PutU8, GetU32, PutU32, GetU64, PutU64, GetName, PutName, PutRaw, GetHash, GetSalt, GetFileBody,
      PutFileBody, GoodName, Less;
    var kind := GetU8(s);
    var name := GetName(last, kind.rest);
    var mode := GetU32(name.rest);
    var mtime := GetU64(mode.rest);
    if kind.value == 0 {
      FileBodyStrict(name.value, mode.value, mtime.value, mtime.rest);
    }
  }

  lemma EntriesFirst(last: Option<string>, e: Entry, es: seq<Entry>, k: Bytes)
    requires EntryOk(e) && (last.Some? ==> Less(last.value, e.name))
    requires GetEntries(|es|, Some(e.name), PutList(PutEntry, es, k)) == Done(es, k)
    ensures GetEntries(|es| + 1, last, PutEntry(e, PutList(PutEntry, es, k))) == Done([e] + es, k)
  {
    EntryUndone(last, e, PutList(PutEntry, es, k));
    hide GetEntry, PutEntry, EntryOk, Less, PutList;
  }

  lemma NoEntries(last: Option<string>, k: Bytes)
    ensures PutList(PutEntry, [], k) == k && GetEntries(0, last, k) == Done([], k)
  {
    hide PutEntry, GetEntry;
  }

  /** A non-empty listing is its first entry and the rest. */
  lemma EntriesSplit(n: nat, last: Option<string>, s: Bytes)
    requires n > 0 && GetEntries(n, last, s).Done?
    ensures var e := GetEntry(last, s);
            e.Done? && var es := GetEntries(n - 1, Some(e.value.name), e.rest);
            es.Done? && GetEntries(n, last, s) == Done([e.value] + es.value, es.rest)
  {
    hide GetEntry, Len;
  }

  lemma PutListFirst(es: seq<Entry>, k: Bytes)
    requires es != []
    ensures PutList(PutEntry, es, k) == PutEntry(es[0], PutList(PutEntry, es[1..], k))
  {
    hide PutEntry;
  }

  lemma {:induction false} EntriesUndone(last: Option<string>, es: seq<Entry>, k: Bytes)
    requires EntriesOk(last, es)
    ensures GetEntries(|es|, last, PutList(PutEntry, es, k)) == Done(es, k)
    decreases |es|
  {
    hide GetEntries, PutEntry, EntryOk, Less, PutList, Len;
    if es == [] {
      NoEntries(last, k);
    } else {
      PutListFirst(es, k);
      EntriesUndone(Some(es[0].name), es[1..], k);
      EntriesFirst(last, es[0], es[1..], k);
      assert es == [es[0]] + es[1..];
    }
  }

  lemma {:induction false} EntriesStrict(n: nat, last: Option<string>, s: Bytes)
    requires GetEntries(n, last, s).Done?
    ensures var r := GetEntries(n, last, s);
            |r.value| == n && s == PutList(PutEntry, r.value, r.rest) && EntriesOk(last, r.value)
    decreases n
  {
    hide GetEntry, GetEntries, PutEntry, EntryOk, Less, PutList, Len;
    if n == 0 {
      NoEntries(last, s);
    } else {
      EntriesSplit(n, last, s);
      var e := GetEntry(last, s);
      var es := GetEntries(n - 1, Some(e.value.name), e.rest);
      EntryStrict(last, s);
      EntriesStrict(n - 1, Some(e.value.name), e.rest);
      var all := [e.value] + es.value;
      assert all[0] == e.value && all[1..] == es.value;
      PutListFirst(all, es.rest);
    }
  }

  lemma TreeUndone(es: seq<Entry>)
    requires TreeOk(es)
    ensures DecodeTree(EncodeTree(es)) == Ok(es)
  {
    Prims();
    hide GetCount, PutCount, GetEntries, PutList, EntriesOk;
    EntriesUndone(None, es, []);
  }

  /** Every accepted byte string is the encoding of a listing within the rules. */
  lemma TreeStrict(s: Bytes)
    requires DecodeTree(s).Ok?
    ensures TreeOk(DecodeTree(s).value) && EncodeTree(DecodeTree(s).value) == s
  {
    hide GetCount, PutCount, GetEntries, PutList, EntriesOk;
    var c := GetCount(MAX_TREE_FANOUT, s);
    EntriesStrict(c.value, None, c.rest);
  }

  /** A listing survives the codec exactly when it keeps the rules. */
  lemma TreeExact(es: seq<Entry>)
    ensures TreeOk(es) <==> DecodeTree(EncodeTree(es)) == Ok(es)
  {
    hide TreeOk, DecodeTree, EncodeTree;
    if TreeOk(es) { TreeUndone(es); }
    if DecodeTree(EncodeTree(es)) == Ok(es) { TreeStrict(EncodeTree(es)); }
  }

  // ---- what an unsafe name does ----

  lemma BadNameFails(last: Option<string>, n: Name, k: Bytes)
    requires !GoodName(n)
    ensures GetName(last, PutName(n, k)).Fail?
  {
    var u := Utf8.Utf8(n);
    Utf8Undone(n);
    Prims();
    hide GetU32, PutU32, Utf8.Utf8, FromUtf8, Len, SafeName, GetRaw, PutRaw, Less;
    assert GetU32(PutU32(|u|, PutRaw(u, k))) == Done(|u|, PutRaw(u, k));
    if |u| <= MAX_NAME_LEN {
      assert GetBytes(MAX_NAME_LEN, PutBytes(u, k)) == Done(u, k);
    }
  }

  lemma BadEntryFails(last: Option<string>, e: Entry, k: Bytes)
    requires !GoodName(e.name)
    ensures GetEntry(last, PutEntry(e, k)).Fail?
  {
    hide GetU8, PutU8, GetName, PutName, PutU32, PutU64, PutRaw, PutFileBody, GoodName, Less, Len;
    Prims();
    var body := if e.FileEntry? then PutFileBody(e, k) else PutRaw(e.subtree, PutRaw(e.subtreeSalt, k));
    BadNameFails(last, e.name, PutU32(e.mode, PutU64(e.mtime, body)));
  }

  /** The rules apart from the names themselves: ascending, and chunk lists within the limit. */
  predicate Regular(last: Option<string>, es: seq<Entry>)
    decreases |es|
  {
    es == [] ||
    ((es[0].FileEntry? ==> |es[0].chunks| <= MAX_CHUNKS_PER_FILE) && (last.Some? ==> Less(last.value, es[0].name)) &&
     Regular(Some(es[0].name), es[1..]))
  }

  lemma {:induction false} RegularDecodes(last: Option<string>, es: seq<Entry>, k: Bytes)
    requires Regular(last, es)
    ensures GetEntries(|es|, last, PutList(PutEntry, es, k)) == Done(es, k) ||
            GetEntries(|es|, last, PutList(PutEntry, es, k)).Fail?
    ensures GetEntries(|es|, last, PutList(PutEntry, es, k)).Done? <==> forall e :: e in es ==> GoodName(e.name)
    decreases |es|
  {
    hide GetEntries, PutEntry, Less, PutList, Len, GoodName;
    if es == [] {
      NoEntries(last, k);
    } else {
      var e, rest := es[0], es[1..];
      PutListFirst(es, k);
      RegularDecodes(Some(e.name), rest, k);
      FirstDecides(last, e, rest, k);
      assert es == [e] + rest;
      assert forall x :: x in es <==> x == e || x in rest;
    }
  }

  lemma FirstDecides(last: Option<string>, e: Entry, es: seq<Entry>, k: Bytes)
    requires (e.FileEntry? ==> |e.chunks| <= MAX_CHUNKS_PER_FILE) && (last.Some? ==> Less(last.value, e.name))
    ensures var r := GetEntries(|es| + 1, last, PutEntry(e, PutList(PutEntry, es, k)));
            var more := GetEntries(|es|, Some(e.name), PutList(PutEntry, es, k));
            if !GoodName(e.name) then r.Fail?
            else match more case Fail(x) => r == Fail(x) case Done(xs, k) => r == Done([e] + xs, k)
  {
    var rest := PutList(PutEntry, es, k);
    if GoodName(e.name) { EntryUndone(last, e, rest); } else { BadEntryFails(last, e, rest); }
    hide GetEntry, PutEntry, Less, Len, PutList, GoodName;
  }

  /** A regular listing within the fan-out limit decodes exactly when all its names are good. */
  lemma RegularTree(es: seq<Entry>)
    requires |es| <= MAX_TREE_FANOUT && Regular(None, es)
    ensures DecodeTree(EncodeTree(es)).Ok? <==> forall e :: e in es ==> GoodName(e.name)
    ensures DecodeTree(EncodeTree(es)).Ok? ==> DecodeTree(EncodeTree(es)) == Ok(es)
  {
    Prims();
    hide GetCount, PutCount, GetEntries, PutList, Regular, GoodName;
    RegularDecodes(None, es, []);
  }

  // ---- sizes ----

  lemma {:induction false} ChunksSize(xs: seq<Hash>, k: Bytes)
    ensures |PutList(PutHash, xs, k)| == 32 * |xs| + |k|
  {
    if xs != [] {
      ChunksSize(xs[1..], k);
      var rest := PutList(PutHash, xs[1..], k);
      assert PutList(PutHash, xs, k) == PutHash(xs[0], rest);
    }
  }

  lemma EntrySize(e: Entry, k: Bytes)
    ensures |PutEntry(e, k)| >= |k| + if e.FileEntry? then 32 * |e.chunks| else 0
  {
    hide Len, PutU8, PutU32, PutU64, PutRaw, PutCount, PutList, PutBytes;
    if e.FileEntry? { ChunksSize(e.chunks, k); }
  }

  /** A file's chunk list never outgrows the listing that holds it. */
  lemma {:induction false} ListingSize(es: seq<Entry>, k: Bytes)
    ensures |PutList(PutEntry, es, k)| >= |k|
    ensures forall e :: e in es && e.FileEntry? ==> |PutList(PutEntry, es, k)| >= 32 * |e.chunks|
    decreases |es|
  {
    hide PutEntry, PutList, Len;
    if es == [] {
      NoEntries(None, k);
    } else {
      PutListFirst(es, k);
      ListingSize(es[1..], k);
      EntrySize(es[0], PutList(PutEntry, es[1..], k));
      assert es == [es[0]] + es[1..];
      assert forall x :: x in es <==> x == es[0] || x in es[1..];
    }
  }
}
