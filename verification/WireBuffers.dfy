/** The request codec as the program runs it: fields appended to a writer, loops over a reader. */
module WireBuffers {
  import opened Prelude
  import opened Frame
  import opened Canon
  import opened Wire

  method WriteEntries(w: Writer, xs: seq<Canon.Blob>)
    modifies w
    ensures forall k :: w.buf + k == old(w.buf) + PutEntries(xs, k)
  {
    hide PutCount, PutBytes, PutRaw, PutU32, Written, PutList;
    w.WriteCount(|xs|);
    ghost var start := w.buf;
    WriteStart(PutEntry, xs, start);
    var i := 0;
    while i < |xs|
      invariant 0 <= i <= |xs| && Written(PutEntry, xs, i, start, w.buf)
    {
      ghost var before := w.buf;
      w.WriteBytes(xs[i]);
      WriteNext(PutEntry, xs, i, start, before, w.buf);
      i := i + 1;
    }
    WriteEnd(PutEntry, xs, start, w.buf);
  }

  method WriteKeyslots(w: Writer, xs: seq<KeyslotPut>)
    modifies w
    ensures forall k :: w.buf + k == old(w.buf) + PutKeyslots(xs, k)
  {
    hide PutCount, PutBytes, PutRaw, PutU32, Written, PutList;
    w.WriteCount(|xs|);
    ghost var start := w.buf;
    WriteStart(PutKeyslot, xs, start);
    var i := 0;
    while i < |xs|
      invariant 0 <= i <= |xs| && Written(PutKeyslot, xs, i, start, w.buf)
    {
      ghost var before := w.buf;
      w.WriteRaw(xs[i].device);
      w.WriteU32(xs[i].gen);
      w.WriteBytes(xs[i].blob);
      WriteNext(PutKeyslot, xs, i, start, before, w.buf);
      i := i + 1;
    }
    WriteEnd(PutKeyslot, xs, start, w.buf);
  }

  method ReadEntries(r: Reader) returns (out: Result<seq<Canon.Blob>, DecodeError>)
    requires r.Valid()
    modifies r
    ensures r.Agrees(GetEntries(old(r.Rest())), out)
  {
    hide GetCount, GetBytes, GetRaw, GetU32, GetList, Resumes;
    var n :- r.ReadCount(MAX_LIST_ELEMENTS);
    ghost var start := r.Rest();
    var xs: seq<Canon.Blob> := [];
    ResumeStart(GetEntry, n, start);
    while |xs| < n
      invariant |xs| <= n && r.Valid() && Resumes(GetEntry, n, start, xs, r.Rest())
    {
      ResumeNext(GetEntry, n, start, xs, r.Rest());
      var x :- r.ReadBytes(MAX_ROSTER_ENTRY_SIZE);
      xs := xs + [x];
    }
    ResumeEnd(GetEntry, n, start, xs, r.Rest());
    out := Ok(xs);
  }

  method ReadKeyslots(r: Reader) returns (out: Result<seq<KeyslotPut>, DecodeError>)
    requires r.Valid()
    modifies r
    ensures r.Agrees(GetKeyslots(old(r.Rest())), out)
  {
    hide GetCount, GetBytes, GetRaw, GetU32, GetList, Resumes;
    var n :- r.ReadCount(MAX_LIST_ELEMENTS);
    ghost var start := r.Rest();
    var xs: seq<KeyslotPut> := [];
    ResumeStart(GetKeyslotPut, n, start);
    while |xs| < n
      invariant |xs| <= n && r.Valid() && Resumes(GetKeyslotPut, n, start, xs, r.Rest())
    {
      ResumeNext(GetKeyslotPut, n, start, xs, r.Rest());
      var x :- ReadKeyslot(r);
      xs := xs + [x];
    }
    ResumeEnd(GetKeyslotPut, n, start, xs, r.Rest());
    out := Ok(xs);
  }

  method ReadKeyslot(r: Reader) returns (out: Result<KeyslotPut, DecodeError>)
    requires r.Valid()
    modifies r
    ensures r.Agrees(GetKeyslotPut(old(r.Rest())), out)
  {
    hide GetHash, GetU32, GetBytes;
    var d :- r.ReadHash();
    var g :- r.ReadU32();
    var b :- r.ReadBytes(MAX_ROSTER_ENTRY_SIZE);
    out := Ok(KeyslotPut(d, g, b));
  }

  method WriteWrap(w: Writer, x: Option<Wrap>)
    modifies w
    ensures forall k :: w.buf + k == old(w.buf) + PutWrap(x, k)
  {
    hide PutFlag, PutU32, PutBytes;
    w.WriteFlag(x.Some?);
    if x.Some? {
      w.WriteU32(x.value.gen);
      w.WriteBytes(x.value.blob);
    }
  }

  method ReadWrap(r: Reader) returns (out: Result<Option<Wrap>, DecodeError>)
    requires r.Valid()
    modifies r
    ensures r.Agrees(GetWrap(old(r.Rest())), out)
  {
    hide GetFlag, GetU32, GetBytes;
    var some :- r.ReadFlag();
    if !some {
      return Ok(None);
    }
    var g :- r.ReadU32();
    var b :- r.ReadBytes(MAX_ROSTER_ENTRY_SIZE);
    out := Ok(Some(Wrap(g, b)));
  }

  method WriteHead(w: Writer, x: Option<HeadPut>)
    modifies w
    ensures forall k :: w.buf + k == old(w.buf) + PutHead(x, k)
  {
    hide PutFlag, PutRaw, PutBytes;
    w.WriteFlag(x.Some?);
    if x.Some? {
      w.WriteRaw(x.value.refH);
      w.WriteRaw(x.value.oldHead);
      w.WriteBytes(x.value.newBlob);
    }
  }

  method ReadHead(r: Reader) returns (out: Result<Option<HeadPut>, DecodeError>)
    requires r.Valid()
    modifies r
    ensures r.Agrees(GetHead(old(r.Rest())), out)
  {
    hide GetFlag, GetHash, GetBytes;
    var some :- r.ReadFlag();
    if !some {
      return Ok(None);
    }
    var h :- r.ReadHash();
    var o :- r.ReadHash();
    var b :- r.ReadBytes(MAX_BLOB_SIZE);
    out := Ok(Some(HeadPut(h, o, b)));
  }

  method WriteBatch(w: Writer, b: Batch)
    modifies w
    ensures forall k :: w.buf + k == old(w.buf) + PutBatch(b, k)
  {
    hide PutRaw, PutEntries, PutKeyslots, PutWrap, PutHashes, PutHead;
    w.WriteRaw(b.oldTip);
    WriteEntries(w, b.entries);
    WriteKeyslots(w, b.keyslots);
    WriteWrap(w, b.keyhist);
    WriteWrap(w, b.rosterKeyhist);
    WriteHashes(w, b.revoke);
    WriteHead(w, b.head);
  }

  method ReadBatch(r: Reader) returns (out: Result<Batch, DecodeError>)
    requires r.Valid()
    modifies r
    ensures r.Agrees(GetBatch(old(r.Rest())), out)
  {
    hide GetHash, GetEntries, GetKeyslots, GetWrap, GetHashes, GetHead;
    var tip :- r.ReadHash();
    var es :- ReadEntries(r);
    var ks :- ReadKeyslots(r);
    var kh :- ReadWrap(r);
    var rh :- ReadWrap(r);
    var rv :- ReadHashes(r, MAX_LIST_ELEMENTS);
    var h :- ReadHead(r);
    out := Ok(Batch(tip, es, ks, kh, rh, rv, h));
  }

  /** `Request::encode` over a writer. */
  method EncodeRequest(r: Request) returns (out: Bytes)
    ensures out == Encode(r)
  {
    hide PutU8, PutU32, PutU64, PutRaw, PutBytes, PutHashes, PutBatch;
    var w := new Writer();
    match r {
      case Get(id) =>
        w.WriteU8(0);
        w.WriteRaw(id);
      case Has(ids) =>
        w.WriteU8(1);
        WriteHashes(w, ids);
      case Put(id, size, push, blob) =>
        w.WriteU8(2);
        w.WriteRaw(id);
        w.WriteU32(size);
        w.WriteRaw(push);
        w.WriteBytes(blob);
      case CasHead(h, o, n, p, blob) =>
        w.WriteU8(3);
        w.WriteRaw(h);
        w.WriteRaw(o);
        w.WriteRaw(n);
        w.WriteRaw(p);
        w.WriteBytes(blob);
      case RosterBatch(b) =>
        w.WriteU8(4);
        WriteBatch(w, b);
      case GetRef(h) =>
        w.WriteU8(5);
        w.WriteRaw(h);
      case GetRosterEntry(n) =>
        w.WriteU8(6);
        w.WriteU64(n);
      case GetKeyslot(d, g) =>
        w.WriteU8(7);
        w.WriteRaw(d);
        w.WriteU32(g);
      case Prune(dead, h, n) =>
        w.WriteU8(8);
        WriteHashes(w, dead);
        w.WriteRaw(h);
        w.WriteU64(n);
      case GetRosterKeyhist(g) =>
        w.WriteU8(9);
        w.WriteU32(g);
      case GetKeyhist(g) =>
        w.WriteU8(10);
        w.WriteU32(g);
      case PairPut(slot, blob) =>
        w.WriteU8(12);
        w.WriteRaw(slot);
        w.WriteBytes(blob);
      case PairGet(slot) =>
        w.WriteU8(13);
        w.WriteRaw(slot);
    }
    out := w.buf;
    assert w.buf + [] == w.buf;
  }

  method ReadRequest(r: Reader) returns (out: Result<Request, DecodeError>)
    requires r.Valid()
    modifies r
    ensures r.Agrees(GetRequest(old(r.Rest())), out)
  {
    hide GetU8, GetU32, GetU64, GetHash, GetSalt, GetBytes, GetHashes, GetBatch;
    var tag :- r.ReadU8();
    match tag {
      case 0 =>
        var id :- r.ReadHash();
        return Ok(Get(id));
      case 1 =>
        var ids :- ReadHashes(r, MAX_HAS_IDS);
        return Ok(Has(ids));
      case 2 =>
        var id :- r.ReadHash();
        var size :- r.ReadU32();
        var push :- r.ReadSalt();
        var blob :- r.ReadBytes(MAX_BLOB_SIZE);
        return Ok(Put(id, size, push, blob));
      case 3 =>
        var h :- r.ReadHash();
        var o :- r.ReadHash();
        var n :- r.ReadHash();
        var p :- r.ReadSalt();
        var blob :- r.ReadBytes(MAX_BLOB_SIZE);
        return Ok(CasHead(h, o, n, p, blob));
      case 4 =>
        var b :- ReadBatch(r);
        return Ok(RosterBatch(b));
      case 5 =>
        var h :- r.ReadHash();
        return Ok(GetRef(h));
      case 6 =>
        var n :- r.ReadU64();
        return Ok(GetRosterEntry(n));
      case 7 =>
        var d :- r.ReadHash();
        var g :- r.ReadU32();
        return Ok(GetKeyslot(d, g));
      case 8 =>
        var dead :- ReadHashes(r, MAX_HAS_IDS);
        var h :- r.ReadHash();
        var n :- r.ReadU64();
        return Ok(Prune(dead, h, n));
      case 9 =>
        var g :- r.ReadU32();
        return Ok(GetRosterKeyhist(g));
      case 10 =>
        var g :- r.ReadU32();
        return Ok(GetKeyhist(g));
      case 12 =>
        var slot :- r.ReadHash();
        var blob :- r.ReadBytes(MAX_ROSTER_ENTRY_SIZE);
        return Ok(PairPut(slot, blob));
      case 13 =>
        var slot :- r.ReadHash();
        return Ok(PairGet(slot));
      case _ =>
        return Err(BadTag(tag));
    }
  }

  /** `Request::decode` over a reader: the bytes must be one request and nothing more. */
  method DecodeRequest(s: Bytes) returns (out: Result<Request, DecodeError>)
    ensures out == Decode(s)
  {
    hide GetRequest;
    var r := new Reader(s);
    var req :- ReadRequest(r);
    var _ :- r.Finish();
    out := Ok(req);
  }

  /** `AuthedRequest::decode` over a reader. */
  method DecodeEnvelope(s: Bytes) returns (out: Result<AuthedRequest, DecodeError>)
    ensures out == DecodeAuthed(s)
  {
    hide Decode, GetBytes;
    var r := new Reader(s);
    var sig :- r.ReadBytes(MAX_SIG_LEN);
    var body :- r.ReadBytes(MAX_REQUEST_LEN);
    var req :- DecodeRequest(body);
    var _ :- r.Finish();
    out := Ok(AuthedRequest(sig, req));
  }
}
