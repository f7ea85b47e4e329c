/** The tree codec as the program runs it, over a writer and a reader. */
module TreeBuffers {
  import opened Prelude
  import opened Frame
  import opened Canon
  import opened Names
  import opened Utf8
  import opened TreeCodec

  method WriteEntry(w: Writer, e: Entry)
    modifies w
    ensures forall k :: w.buf + k == old(w.buf) + PutEntry(e, k)
  {
    hide PutU8, PutBytes, PutU32, PutU64, PutRaw, PutHashes, Len, Utf8.Utf8;
    w.WriteU8(if e.FileEntry? then 0 else 1);
    w.WriteBytes(Utf8.Utf8(e.name));
    w.WriteU32(e.mode);
    w.WriteU64(e.mtime);
    match e {
      case FileEntry(_, _, _, size, salt, chunks) =>
        w.WriteU64(size);
        w.WriteRaw(salt);
        WriteHashes(w, chunks);
      case DirEntry(_, _, _, sub, salt) =>
        w.WriteRaw(sub);
        w.WriteRaw(salt);
    }
  }

  /** `encode_tree` over a writer. */
  method EncodeTreeBytes(es: seq<Entry>) returns (out: Bytes)
    ensures out == EncodeTree(es)
  {
    hide PutCount, PutEntry, Written, PutList;
    var w := new Writer();
    w.WriteCount(|es|);
    ghost var start := w.buf;
    WriteStart(PutEntry, es, start);
    var i := 0;
    while i < |es|
      invariant 0 <= i <= |es| && Written(PutEntry, es, i, start, w.buf)
    {
      ghost var before := w.buf;
      WriteEntry(w, es[i]);
      WriteNext(PutEntry, es, i, start, before, w.buf);
      i := i + 1;
    }
    WriteEnd(PutEntry, es, start, w.buf);
    out := w.buf;
    assert w.buf + [] == w.buf;
  }

  method ReadName(r: Reader, last: Option<string>) returns (out: Result<Name, DecodeError>)
    requires r.Valid()
    modifies r
    ensures r.Agrees(GetName(last, old(r.Rest())), out)
  {
    hide GetBytes, Len, SafeName, Less;
    var b :- r.ReadBytes(MAX_NAME_LEN);
    var n := FromUtf8(b);
    if n.None? {
      return Err(NonUtf8Name);
    }
    if !SafeName(n.value) {
      return Err(UnsafeName);
    }
    if last.Some? && !Less(last.value, n.value) {
      return Err(NotAscending);
    }
    out := Ok(n.value);
  }

  method ReadEntry(r: Reader, last: Option<string>) returns (out: Result<Entry, DecodeError>)
    requires r.Valid()
    modifies r
    ensures r.Agrees(GetEntry(last, old(r.Rest())), out)
  {
    hide GetU8, GetName, GetU32, GetU64, GetHash, GetSalt, GetHashes, Len;
    var kind :- r.ReadU8();
    var name :- ReadName(r, last);
    var mode :- r.ReadU32();
    var mtime :- r.ReadU64();
    if kind == 0 {
      var size :- r.ReadU64();
      var salt :- r.ReadSalt();
      var chunks :- ReadHashes(r, MAX_CHUNKS_PER_FILE);
      return Ok(FileEntry(name, mode, mtime, size, salt, chunks));
    }
    if kind == 1 {
      var sub :- r.ReadHash();
      var salt :- r.ReadSalt();
      return Ok(DirEntry(name, mode, mtime, sub, salt));
    }
    return Err(BadTag(kind));
  }

  function LastName(es: seq<Entry>): Option<string> {
    if es == [] then None else Some(es[|es| - 1].name)
  }

  /** Reading `n` entries from `s0` comes down to reading the rest of them from `s`, after `es`. */
  ghost predicate EntriesResume(n: nat, s0: Bytes, es: seq<Entry>, s: Bytes) {
    |es| <= n &&
    match GetEntries(n - |es|, LastName(es), s)
    case Done(more, k) => GetEntries(n, None, s0) == Done(es + more, k)
    case Fail(e) => GetEntries(n, None, s0) == Fail(e)
  }

  lemma EntriesBegin(n: nat, s: Bytes)
    ensures EntriesResume(n, s, [], s)
  {
    hide GetEntries;
    var r := GetEntries(n, None, s);
    if r.Done? { assert [] + r.value == r.value; }
  }

  lemma EntriesSplitAny(n: nat, last: Option<string>, s: Bytes)
    requires n > 0
    ensures GetEntries(n, last, s) ==
            match GetEntry(last, s)
            case Fail(e) => Fail(e)
            case Done(x, s1) =>
              match GetEntries(n - 1, Some(x.name), s1) case Fail(e) => Fail(e) case Done(xs, k) => Done([x] + xs, k)
  {
    hide GetEntry, Len;
  }

  lemma EntriesNext(n: nat, s0: Bytes, es: seq<Entry>, s: Bytes)
    requires EntriesResume(n, s0, es, s) && |es| < n
    ensures var p := GetEntry(LastName(es), s);
            && (p.Fail? ==> GetEntries(n, None, s0) == Fail(p.error))
            && (p.Done? ==> EntriesResume(n, s0, es + [p.value], p.rest))
  {
    hide GetEntries, GetEntry, Len, LastName;
    EntriesSplitAny(n - |es|, LastName(es), s);
    var p := GetEntry(LastName(es), s);
    if p.Done? {
      LastOf(es, p.value);
      var r := GetEntries(n - |es| - 1, Some(p.value.name), p.rest);
      assert |es + [p.value]| == |es| + 1;
      if r.Done? { assert es + ([p.value] + r.value) == es + [p.value] + r.value; }
    }
  }

  lemma LastOf(es: seq<Entry>, e: Entry)
    ensures LastName(es + [e]) == Some(e.name)
  {
    hide Len;
  }

  lemma EntriesEnd(n: nat, s0: Bytes, es: seq<Entry>, s: Bytes)
    requires EntriesResume(n, s0, es, s) && |es| == n
    ensures GetEntries(n, None, s0) == Done(es, s)
  {
    hide GetEntry, Len;
    assert es + [] == es;
  }

  method ReadEntries(r: Reader, n: nat) returns (out: Result<seq<Entry>, DecodeError>)
    requires r.Valid()
    modifies r
    ensures r.Agrees(GetEntries(n, None, old(r.Rest())), out)
  {
    hide GetEntry, GetEntries, EntriesResume, Len, LastName;
    ghost var start := r.Rest();
    var es: seq<Entry> := [];
    EntriesBegin(n, start);
    while |es| < n
      invariant |es| <= n && r.Valid() && EntriesResume(n, start, es, r.Rest())
    {
      EntriesNext(n, start, es, r.Rest());
      var e :- ReadEntry(r, LastName(es));
      es := es + [e];
    }
    EntriesEnd(n, start, es, r.Rest());
    out := Ok(es);
  }

  /** Decoding is the count, that many entries, and nothing after them. */
  lemma DecodeParts(s: Bytes)
    ensures DecodeTree(s) ==
            match GetCount(MAX_TREE_FANOUT, s)
            case Fail(e) => Err(e)
            case Done(n, k) => Whole(GetEntries(n, None, k))
  {
    hide GetCount, PutCount, GetEntries, Len;
  }

  /** `decode_tree` over a reader. */
  method DecodeTreeBytes(s: Bytes) returns (out: Result<seq<Entry>, DecodeError>)
    ensures out == DecodeTree(s)
  {
    hide DecodeTree, GetCount, PutCount, GetEntries, Len;
    DecodeParts(s);
    var r := new Reader(s);
    var n :- r.ReadCount(MAX_TREE_FANOUT);
    var es :- ReadEntries(r, n);
    var _ :- r.Finish();
    out := Ok(es);
  }
}
