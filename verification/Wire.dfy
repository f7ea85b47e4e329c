/** The wire messages: requests, responses and the signed envelope, as strict bounded codecs. */
module Wire {
  import opened Prelude
  import opened Frame
  import opened Canon

  const MAX_SIG_LEN: nat := 4096
  const MAX_HAS_IDS: nat := 1024
  const MAX_REQUEST_LEN: nat := MAX_BLOB_SIZE + 4096
  /** The bound `UnenrolledSize` proves for a first batch and for pairing messages. */
  const GENESIS_BATCH_MAX: nat :=
    1 + 32 + 4 + (4 + MAX_ROSTER_ENTRY_SIZE) + 4 + (32 + 4 + 4 + MAX_ROSTER_ENTRY_SIZE) + 1 + 1 + 4 + 1
  const MAX_UNENROLLED_AUTHED_LEN: nat := 4 + MAX_SIG_LEN + 4 + GENESIS_BATCH_MAX
  const MAX_AUTHED_LEN: nat := 4 + MAX_SIG_LEN + 4 + MAX_REQUEST_LEN

  type PushId = Salt

  datatype KeyslotPut = KeyslotPut(device: Hash, gen: U32, blob: Blob)
  datatype HeadPut = HeadPut(refH: Hash, oldHead: Hash, newBlob: Blob)
  datatype Wrap = Wrap(gen: U32, blob: Blob)
  datatype Batch = Batch(oldTip: Hash, entries: seq<Blob>, keyslots: seq<KeyslotPut>, keyhist: Option<Wrap>,
                         rosterKeyhist: Option<Wrap>, revoke: seq<Hash>, head: Option<HeadPut>)

  datatype Request =
    | Get(id: Hash)
    | Has(ids: seq<Hash>)
    | Put(id: Hash, declaredSize: U32, push: PushId, blob: Blob)
    | CasHead(refH: Hash, oldHead: Hash, newHead: Hash, promote: PushId, newBlob: Blob)
    | RosterBatch(batch: Batch)
    | GetRef(refH: Hash)
    | GetRosterEntry(at: U64)
    | GetKeyslot(device: Hash, gen: U32)
    | Prune(dead: seq<Hash>, allHeads: Hash, rosterLen: U64)
    | GetRosterKeyhist(gen: U32)
    | GetKeyhist(gen: U32)
    | PairPut(slot: Hash, blob: Blob)
    | PairGet(slot: Hash)

  // ---- parts ----

  function PutEntry(e: Blob, k: Bytes): (s: Bytes)
    ensures |s| == 4 + |e| + |k|
  { PutBytes(e, k) }

  function GetEntry(s: Bytes): Parsed<Blob> { GetBytes(MAX_ROSTER_ENTRY_SIZE, s) }

  predicate EntryOk(e: Blob) { |e| <= MAX_ROSTER_ENTRY_SIZE }

  function PutKeyslot(x: KeyslotPut, k: Bytes): (s: Bytes)
    ensures |s| == 40 + |x.blob| + |k|
  { PutRaw(x.device, PutU32(x.gen, PutBytes(x.blob, k))) }

  function GetKeyslotPut(s: Bytes): Parsed<KeyslotPut> {
    var (d, s) :- GetHash(s);
    var (g, s) :- GetU32(s);
    var (b, k) :- GetBytes(MAX_ROSTER_ENTRY_SIZE, s);
    Done(KeyslotPut(d, g, b), k)
  }

  predicate KeyslotOk(x: KeyslotPut) { |x.blob| <= MAX_ROSTER_ENTRY_SIZE }

  function PutWrap(w: Option<Wrap>, k: Bytes): (s: Bytes)
    ensures w.None? ==> |s| == 1 + |k|
  {
    match w
    case None => PutFlag(false, k)
    case Some(x) => PutFlag(true, PutU32(x.gen, PutBytes(x.blob, k)))
  }

  function GetWrap(s: Bytes): (r: Parsed<Option<Wrap>>)
    ensures r.Done? ==> WrapOk(r.value) && s == PutWrap(r.value, r.rest)
  {
    var (f, s) :- GetFlag(s);
    if !f then Done(None, s)
    else
      var (g, s) :- GetU32(s);
      var (b, k) :- GetBytes(MAX_ROSTER_ENTRY_SIZE, s);
      Done(Some(Wrap(g, b)), k)
  }

  predicate WrapOk(w: Option<Wrap>) { w.Some? ==> |w.value.blob| <= MAX_ROSTER_ENTRY_SIZE }

  function PutHead(h: Option<HeadPut>, k: Bytes): (s: Bytes)
    ensures h.None? ==> |s| == 1 + |k|
  {
    match h
    case None => PutFlag(false, k)
    case Some(x) => PutFlag(true, PutRaw(x.refH, PutRaw(x.oldHead, PutBytes(x.newBlob, k))))
  }

  function GetHead(s: Bytes): (r: Parsed<Option<HeadPut>>)
    ensures r.Done? ==> HeadOk(r.value) && s == PutHead(r.value, r.rest)
  {
    var (f, s) :- GetFlag(s);
    if !f then Done(None, s)
    else
      var (a, s) :- GetHash(s);
      var (o, s) :- GetHash(s);
      var (b, k) :- GetBytes(MAX_BLOB_SIZE, s);
      Done(Some(HeadPut(a, o, b)), k)
  }

  predicate HeadOk(h: Option<HeadPut>) { h.Some? ==> |h.value.newBlob| <= MAX_BLOB_SIZE }

  function PutEntries(xs: seq<Blob>, k: Bytes): Bytes { PutCount(|xs|, PutList(PutEntry, xs, k)) }

  function GetEntries(s: Bytes): Parsed<seq<Blob>> {
    var (n, s) :- GetCount(MAX_LIST_ELEMENTS, s);
    GetList(GetEntry, n, s)
  }

  function PutKeyslots(xs: seq<KeyslotPut>, k: Bytes): Bytes { PutCount(|xs|, PutList(PutKeyslot, xs, k)) }

  function GetKeyslots(s: Bytes): Parsed<seq<KeyslotPut>> {
    var (n, s) :- GetCount(MAX_LIST_ELEMENTS, s);
    GetList(GetKeyslotPut, n, s)
  }

  function PutBatch(b: Batch, k: Bytes): Bytes {
    PutRaw(b.oldTip, PutEntries(b.entries, PutKeyslots(b.keyslots,
      PutWrap(b.keyhist, PutWrap(b.rosterKeyhist, PutHashes(b.revoke, PutHead(b.head, k)))))))
  }

  function GetBatch(s: Bytes): Parsed<Batch> {
    var (tip, s) :- GetHash(s);
    var (es, s) :- GetEntries(s);
    var (ks, s) :- GetKeyslots(s);
    var (kh, s) :- GetWrap(s);
    var (rh, s) :- GetWrap(s);
    var (rv, s) :- GetHashes(MAX_LIST_ELEMENTS, s);
    var (h, k) :- GetHead(s);
    Done(Batch(tip, es, ks, kh, rh, rv, h), k)
  }

  /** The bounds `validate` puts on a batch before its total size. */
  predicate BatchOk(b: Batch) {
    && |b.entries| <= MAX_LIST_ELEMENTS && |b.keyslots| <= MAX_LIST_ELEMENTS && |b.revoke| <= MAX_LIST_ELEMENTS
    && (forall e :: e in b.entries ==> EntryOk(e))
    && (forall x :: x in b.keyslots ==> KeyslotOk(x))
    && WrapOk(b.keyhist) && WrapOk(b.rosterKeyhist) && HeadOk(b.head)
  }

  // ---- requests ----

  /** `Request::encode`. */
  function Encode(r: Request): Bytes {
    match r
    case Get(id) => PutU8(0, PutRaw(id, []))
    case Has(ids) => PutU8(1, PutHashes(ids, []))
    case Put(id, size, push, blob) => PutU8(2, PutRaw(id, PutU32(size, PutRaw(push, PutBytes(blob, [])))))
    case CasHead(h, o, n, p, blob) => PutU8(3, PutRaw(h, PutRaw(o, PutRaw(n, PutRaw(p, PutBytes(blob, []))))))
    case RosterBatch(b) => PutU8(4, PutBatch(b, []))
    case GetRef(h) => PutU8(5, PutRaw(h, []))
    case GetRosterEntry(n) => PutU8(6, PutU64(n, []))
    case GetKeyslot(d, g) => PutU8(7, PutRaw(d, PutU32(g, [])))
    case Prune(dead, h, n) => PutU8(8, PutHashes(dead, PutRaw(h, PutU64(n, []))))
    case GetRosterKeyhist(g) => PutU8(9, PutU32(g, []))
    case GetKeyhist(g) => PutU8(10, PutU32(g, []))
    case PairPut(slot, blob) => PutU8(12, PutRaw(slot, PutBytes(blob, [])))
    case PairGet(slot) => PutU8(13, PutRaw(slot, []))
  }

  function GetRequest(s: Bytes): Parsed<Request> {
    var (tag, s) :- GetU8(s);
    match tag
    case 0 => var (id, k) :- GetHash(s); Done(Get(id), k)
    case 1 => var (ids, k) :- GetHashes(MAX_HAS_IDS, s); Done(Has(ids), k)
    case 2 =>
      var (id, s) :- GetHash(s);
      var (size, s) :- GetU32(s);
      var (push, s) :- GetSalt(s);
      var (blob, k) :- GetBytes(MAX_BLOB_SIZE, s);
      Done(Put(id, size, push, blob), k)
    case 3 =>
      var (h, s) :- GetHash(s);
      var (o, s) :- GetHash(s);
      var (n, s) :- GetHash(s);
      var (p, s) :- GetSalt(s);
      var (blob, k) :- GetBytes(MAX_BLOB_SIZE, s);
      Done(CasHead(h, o, n, p, blob), k)
    case 4 => var (b, k) :- GetBatch(s); Done(RosterBatch(b), k)
    case 5 => var (h, k) :- GetHash(s); Done(GetRef(h), k)
    case 6 => var (n, k) :- GetU64(s); Done(GetRosterEntry(n), k)
    case 7 =>
      var (d, s) :- GetHash(s);
      var (g, k) :- GetU32(s);
      Done(GetKeyslot(d, g), k)
    case 8 =>
      var (dead, s) :- GetHashes(MAX_HAS_IDS, s);
      var (h, s) :- GetHash(s);
      var (n, k) :- GetU64(s);
      Done(Prune(dead, h, n), k)
    case 9 => var (g, k) :- GetU32(s); Done(GetRosterKeyhist(g), k)
    case 10 => var (g, k) :- GetU32(s); Done(GetKeyhist(g), k)
    case 12 =>
      var (slot, s) :- GetHash(s);
      var (blob, k) :- GetBytes(MAX_ROSTER_ENTRY_SIZE, s);
      Done(PairPut(slot, blob), k)
    case 13 => var (slot, k) :- GetHash(s); Done(PairGet(slot), k)
    case _ => Fail(BadTag(tag))
  }

  /** `Request::decode`. */
  function Decode(s: Bytes): Result<Request, DecodeError> {
    Whole(GetRequest(s))
  }

  /** The field bounds of `validate`, without its bound on the whole encoding. */
  predicate FieldsOk(r: Request) {
    match r
    case Has(ids) => |ids| <= MAX_HAS_IDS
    case Prune(dead, _, _) => |dead| <= MAX_HAS_IDS
    case Put(_, _, _, blob) => |blob| <= MAX_BLOB_SIZE
    case CasHead(_, _, _, _, blob) => |blob| <= MAX_BLOB_SIZE
    case PairPut(_, blob) => |blob| <= MAX_ROSTER_ENTRY_SIZE
    case RosterBatch(b) => BatchOk(b)
    case _ => true
  }

  /** `Request::validate`. */
  function Validate(r: Request): (v: Result<(), DecodeError>)
    ensures v.Ok? <==> FieldsOk(r) && |Encode(r)| <= MAX_REQUEST_LEN
  {
    match r
    case Has(ids) => if |ids| > MAX_HAS_IDS then Err(TooLarge) else Fits(r)
    case Prune(dead, _, _) => if |dead| > MAX_HAS_IDS then Err(TooLarge) else Fits(r)
    case Put(_, _, _, blob) => if |blob| > MAX_BLOB_SIZE then Err(FieldTooLong) else Fits(r)
    case CasHead(_, _, _, _, blob) => if |blob| > MAX_BLOB_SIZE then Err(FieldTooLong) else Fits(r)
    case PairPut(_, blob) => if |blob| > MAX_ROSTER_ENTRY_SIZE then Err(FieldTooLong) else Fits(r)
    case RosterBatch(b) =>
      if |b.entries| > MAX_LIST_ELEMENTS || |b.keyslots| > MAX_LIST_ELEMENTS || |b.revoke| > MAX_LIST_ELEMENTS
        then Err(TooLarge)
      else if !BatchOk(b) then Err(FieldTooLong)
      else Fits(r)
    case _ => Fits(r)
  }

  function Fits(r: Request): Result<(), DecodeError> {
    if |Encode(r)| <= MAX_REQUEST_LEN then Ok(()) else Err(FieldTooLong)
  }

  // ---- decoding undoes encoding ----

  lemma Items()
    ensures ItemUndone(PutEntry, GetEntry, EntryOk) && ItemStrict(PutEntry, GetEntry, EntryOk)
    ensures ItemUndone(PutKeyslot, GetKeyslotPut, KeyslotOk) && ItemStrict(PutKeyslot, GetKeyslotPut, KeyslotOk)
  {
    Prims();
    hide GetHash, PutRaw, GetBytes, PutBytes, GetU32, PutU32;
  }

  lemma EntriesUndone(xs: seq<Blob>, k: Bytes)
    requires |xs| <= MAX_LIST_ELEMENTS && forall e :: e in xs ==> EntryOk(e)
    ensures GetEntries(PutEntries(xs, k)) == Done(xs, k)
  {
    Prims();
    Items();
    ListUndone(PutEntry, GetEntry, EntryOk, xs, k);
  }

  lemma EntriesStrict(s: Bytes)
    requires GetEntries(s).Done?
    ensures var r := GetEntries(s);
            && |r.value| <= MAX_LIST_ELEMENTS && s == PutEntries(r.value, r.rest)
            && forall e :: e in r.value ==> EntryOk(e)
  {
    Items();
    var c := GetCount(MAX_LIST_ELEMENTS, s);
    ListStrict(PutEntry, GetEntry, EntryOk, c.value, c.rest);
  }

  lemma KeyslotsUndone(xs: seq<KeyslotPut>, k: Bytes)
    requires |xs| <= MAX_LIST_ELEMENTS && forall x :: x in xs ==> KeyslotOk(x)
    ensures GetKeyslots(PutKeyslots(xs, k)) == Done(xs, k)
  {
    Prims();
    Items();
    ListUndone(PutKeyslot, GetKeyslotPut, KeyslotOk, xs, k);
  }

  lemma KeyslotsStrict(s: Bytes)
    requires GetKeyslots(s).Done?
    ensures var r := GetKeyslots(s);
            && |r.value| <= MAX_LIST_ELEMENTS && s == PutKeyslots(r.value, r.rest)
            && forall x :: x in r.value ==> KeyslotOk(x)
  {
    Items();
    var c := GetCount(MAX_LIST_ELEMENTS, s);
    ListStrict(PutKeyslot, GetKeyslotPut, KeyslotOk, c.value, c.rest);
  }

  lemma WrapUndone(w: Option<Wrap>, k: Bytes)
    requires WrapOk(w)
    ensures GetWrap(PutWrap(w, k)) == Done(w, k)
  {
    Prims();
    hide GetFlag, PutFlag, GetU32, PutU32, GetBytes, PutBytes;
  }

  lemma HeadUndone(h: Option<HeadPut>, k: Bytes)
    requires HeadOk(h)
    ensures GetHead(PutHead(h, k)) == Done(h, k)
  {
    Prims();
    hide GetFlag, PutFlag, GetHash, PutRaw, GetBytes, PutBytes;
  }

  lemma BatchUndone(b: Batch, k: Bytes)
    requires BatchOk(b)
    ensures GetBatch(PutBatch(b, k)) == Done(b, k)
  {
    hide GetHash, PutRaw, GetEntries, PutEntries, GetKeyslots, PutKeyslots, GetWrap, PutWrap, GetHashes, PutHashes,
      GetHead, PutHead;
    var s7 := PutHead(b.head, k);
    var s6 := PutHashes(b.revoke, s7);
    var s5 := PutWrap(b.rosterKeyhist, s6);
    var s4 := PutWrap(b.keyhist, s5);
    var s3 := PutKeyslots(b.keyslots, s4);
    Prims();
    EntriesUndone(b.entries, s3);
    KeyslotsUndone(b.keyslots, s4);
    WrapUndone(b.keyhist, s5);
    WrapUndone(b.rosterKeyhist, s6);
    HashesUndone(MAX_LIST_ELEMENTS, b.revoke, s7);
    HeadUndone(b.head, k);
  }

  lemma BatchStrict(s: Bytes)
    requires GetBatch(s).Done?
    ensures var r := GetBatch(s); BatchOk(r.value) && s == PutBatch(r.value, r.rest)
  {
    hide GetHash, PutRaw, GetEntries, PutEntries, GetKeyslots, PutKeyslots, GetWrap, PutWrap, GetHashes, PutHashes,
         GetHead, PutHead, WrapOk, HeadOk, EntryOk, KeyslotOk;
    var s1 := GetHash(s).rest;
    var s2 := GetEntries(s1).rest;
    var s3 := GetKeyslots(s2).rest;
    var s4 := GetWrap(s3).rest;
    var s5 := GetWrap(s4).rest;
    EntriesStrict(s1);
    KeyslotsStrict(s2);
    HashesStrict(MAX_LIST_ELEMENTS, s5);
  }

  lemma PutUndone(r: Request)
    requires r.Put? && FieldsOk(r)
    ensures Decode(Encode(r)) == Ok(r)
  {
    hide GetU8, PutU8, GetU32, PutU32, GetHash, GetSalt, PutRaw, GetBytes, PutBytes;
    Prims();
    var s4 := PutBytes(r.blob, []);
    var s3 := PutRaw(r.push, s4);
    var s2 := PutU32(r.declaredSize, s3);
    assert GetBytes(MAX_BLOB_SIZE, s4) == Done(r.blob, []);
    assert GetSalt(s3) == Done(r.push, s4);
    assert GetU32(s2) == Done(r.declaredSize, s3);
  }

  lemma CasUndone(r: Request)
    requires r.CasHead? && FieldsOk(r)
    ensures Decode(Encode(r)) == Ok(r)
  {
    hide GetU8, PutU8, GetHash, GetSalt, PutRaw, GetBytes, PutBytes;
    Prims();
    var s5 := PutBytes(r.newBlob, []);
    var s4 := PutRaw(r.promote, s5);
    var s3 := PutRaw(r.newHead, s4);
    var s2 := PutRaw(r.oldHead, s3);
    assert GetBytes(MAX_BLOB_SIZE, s5) == Done(r.newBlob, []);
    assert GetSalt(s4) == Done(r.promote, s5);
    assert GetHash(s3) == Done(r.newHead, s4);
    assert GetHash(s2) == Done(r.oldHead, s3);
  }

  lemma ListedUndone(r: Request)
    requires (r.Has? || r.Prune? || r.RosterBatch?) && FieldsOk(r)
    ensures Decode(Encode(r)) == Ok(r)
  {
    hide GetU8, PutU8, GetU64, PutU64, GetHash, PutRaw, GetHashes, PutHashes, GetBatch, PutBatch, BatchOk;
    Prims();
    match r {
      case Has(ids) => HashesUndone(MAX_HAS_IDS, ids, []);
      case Prune(dead, h, n) => HashesUndone(MAX_HAS_IDS, dead, PutRaw(h, PutU64(n, [])));
      case RosterBatch(b) => BatchUndone(b, []);
    }
  }

  lemma HashUndone(h: Hash, k: Bytes)
    ensures GetHash(PutRaw(h, k)) == Done(h, k)
  { Prims(); }

  lemma U32Undone(v: U32, k: Bytes)
    ensures GetU32(PutU32(v, k)) == Done(v, k)
  { Prims(); }

  lemma U64Undone(v: U64, k: Bytes)
    ensures GetU64(PutU64(v, k)) == Done(v, k)
  { Prims(); }

  lemma U8Undone(v: U8, k: Bytes)
    ensures GetU8(PutU8(v, k)) == Done(v, k)
  { Prims(); }

  lemma BytesUndone(max: nat, b: Canon.Blob, k: Bytes)
    requires |b| <= max
    ensures GetBytes(max, PutBytes(b, k)) == Done(b, k)
  { Prims(); }

  lemma SmallUndone(r: Request)
    requires !(r.Has? || r.Prune? || r.RosterBatch? || r.Put? || r.CasHead?) && FieldsOk(r)
    ensures Decode(Encode(r)) == Ok(r)
  {
    hide GetU8, PutU8, GetU32, PutU32, GetU64, PutU64, GetHash, PutRaw, GetBytes, PutBytes;
    match r {
      case Get(h) => U8Undone(0, PutRaw(h, [])); HashUndone(h, []);
      case GetRef(h) => U8Undone(5, PutRaw(h, [])); HashUndone(h, []);
      case GetRosterEntry(n) => U8Undone(6, PutU64(n, [])); U64Undone(n, []);
      case GetKeyslot(d, g) => U8Undone(7, PutRaw(d, PutU32(g, []))); HashUndone(d, PutU32(g, [])); U32Undone(g, []);
      case GetRosterKeyhist(g) => U8Undone(9, PutU32(g, [])); U32Undone(g, []);
      case GetKeyhist(g) => U8Undone(10, PutU32(g, [])); U32Undone(g, []);
      case PairPut(slot, b) =>
        U8Undone(12, PutRaw(slot, PutBytes(b, [])));
        HashUndone(slot, PutBytes(b, []));
        BytesUndone(MAX_ROSTER_ENTRY_SIZE, b, []);
      case PairGet(slot) => U8Undone(13, PutRaw(slot, [])); HashUndone(slot, []);
    }
  }

  /** A request within its field bounds decodes from its encoding to itself. */
  lemma RequestUndone(r: Request)
    requires FieldsOk(r)
    ensures Decode(Encode(r)) == Ok(r)
  {
    hide Decode, Encode, FieldsOk;
    if r.Put? {
      PutUndone(r);
    } else if r.CasHead? {
      CasUndone(r);
    } else if r.Has? || r.Prune? || r.RosterBatch? {
      ListedUndone(r);
    } else {
      SmallUndone(r);
    }
  }

  /** Every accepted byte string is the encoding of what it decodes to, within the field bounds. */
  lemma RequestStrict(s: Bytes)
    requires Decode(s).Ok?
    ensures FieldsOk(Decode(s).value) && Encode(Decode(s).value) == s
  {
    var t := GetU8(s);
    hide GetU8, PutU8, GetU32, PutU32, GetU64, PutU64, GetHash, GetSalt, PutRaw, GetBytes, PutBytes,
         GetHashes, PutHashes, GetBatch, PutBatch, BatchOk;
    if t.value == 1 || t.value == 8 {
      HashesStrict(MAX_HAS_IDS, t.rest);
    } else if t.value == 4 {
      BatchStrict(t.rest);
    }
  }

  /** Encodings are unique: two accepted inputs with one meaning are one input. */
  lemma RequestUnique(s: Bytes, t: Bytes)
    requires Decode(s).Ok? && Decode(s) == Decode(t)
    ensures s == t
  {
    hide *;
    RequestStrict(s);
    RequestStrict(t);
  }

  /** `validate` admits exactly the requests that fit and that the server decodes to themselves. */
  lemma ValidateExact(r: Request)
    ensures Validate(r).Ok? <==> Decode(Encode(r)) == Ok(r) && |Encode(r)| <= MAX_REQUEST_LEN
  {
    hide Encode, Decode, FieldsOk, Validate;
    if FieldsOk(r) { RequestUndone(r); }
    if Decode(Encode(r)) == Ok(r) { RequestStrict(Encode(r)); }
  }

  // ---- the signed envelope ----

  datatype AuthedRequest = AuthedRequest(opSig: Blob, request: Request)

  function EncodeAuthed(a: AuthedRequest): Bytes
    requires |Encode(a.request)| <= U32_MAX
  {
    PutBytes(a.opSig, PutBytes(Encode(a.request), []))
  }

  function DecodeAuthed(s: Bytes): Result<AuthedRequest, DecodeError> {
    match GetBytes(MAX_SIG_LEN, s)
    case Fail(e) => Err(e)
    case Done(sig, s1) =>
      match GetBytes(MAX_REQUEST_LEN, s1)
      case Fail(e) => Err(e)
      case Done(body, k) =>
        match Decode(body)
        case Err(e) => Err(e)
        case Ok(r) => if k == [] then Ok(AuthedRequest(sig, r)) else Err(TrailingBytes(|k|))
  }

  predicate AuthedOk(a: AuthedRequest) {
    |a.opSig| <= MAX_SIG_LEN && Validate(a.request).Ok?
  }

  /** Every envelope a client may send decodes to itself and fits the frame cap. */
  lemma AuthedUndone(a: AuthedRequest)
    requires AuthedOk(a)
    ensures DecodeAuthed(EncodeAuthed(a)) == Ok(a) && |EncodeAuthed(a)| <= MAX_AUTHED_LEN
  {
    Prims();
    RequestUndone(a.request);
    hide GetBytes, PutBytes, Encode, Decode, Validate;
  }

  lemma AuthedStrict(s: Bytes)
    requires DecodeAuthed(s).Ok?
    ensures AuthedOk(DecodeAuthed(s).value) && EncodeAuthed(DecodeAuthed(s).value) == s
  {
    var body := GetBytes(MAX_REQUEST_LEN, GetBytes(MAX_SIG_LEN, s).rest).value;
    RequestStrict(body);
    hide GetBytes, PutBytes, Encode, Decode, Validate;
  }

  /** What a key without a keyslot may send: pairing posts and takes, or a batch of one entry and one keyslot. */
  predicate Unenrolled(r: Request) {
    r.PairPut? || r.PairGet? ||
    (r.RosterBatch? && |r.batch.entries| <= 1 && |r.batch.keyslots| <= 1 && r.batch.revoke == [] &&
     r.batch.keyhist.None? && r.batch.rosterKeyhist.None? && r.batch.head.None?)
  }

  lemma UnenrolledSize(r: Request)
    requires Unenrolled(r) && FieldsOk(r)
    ensures |Encode(r)| <= GENESIS_BATCH_MAX
  {
    if r.RosterBatch? {
      var b := r.batch;
      var s3 := PutWrap(b.keyhist, PutWrap(b.rosterKeyhist, PutHashes(b.revoke, PutHead(b.head, []))));
      assert |s3| == 7;
      FewSizes(b, s3);
    }
  }

  lemma FewSizes(b: Batch, k: Bytes)
    requires BatchOk(b) && |b.entries| <= 1 && |b.keyslots| <= 1
    ensures var s := PutKeyslots(b.keyslots, k);
            |s| <= 4 + (40 + MAX_ROSTER_ENTRY_SIZE) + |k| &&
              |PutEntries(b.entries, s)| <= 4 + (4 + MAX_ROSTER_ENTRY_SIZE) + |s|
  {
    var s := PutKeyslots(b.keyslots, k);
    if |b.keyslots| == 1 {
      assert KeyslotOk(b.keyslots[0]) && b.keyslots[1..] == [];
      assert PutList(PutKeyslot, b.keyslots, k) == PutKeyslot(b.keyslots[0], k);
    }
    if |b.entries| == 1 {
      assert EntryOk(b.entries[0]) && b.entries[1..] == [];
      assert PutList(PutEntry, b.entries, s) == PutEntry(b.entries[0], s);
    }
  }

  /** Any genesis batch or pairing message is valid and fits the cap for unenrolled keys. */
  lemma UnenrolledFits(a: AuthedRequest)
    requires |a.opSig| <= MAX_SIG_LEN && Unenrolled(a.request) && FieldsOk(a.request)
    ensures AuthedOk(a) && |EncodeAuthed(a)| <= MAX_UNENROLLED_AUTHED_LEN
  {
    UnenrolledSize(a.request);
    hide Encode, Unenrolled;
  }

  // ---- responses ----

  datatype ErrorCode = NotEnrolled | BadAuth | RateLimit | TooManyIds | CasConflict | BadRequest | Internal

  datatype Response = Blob(blob: Option<Canon.Blob>) | Exists(bits: seq<bool>) | Okay | Refused(code: ErrorCode)

  function CodeByte(c: ErrorCode): U8 {
    match c
    case NotEnrolled => 0 case BadAuth => 1 case RateLimit => 2 case TooManyIds => 3
    case CasConflict => 4 case BadRequest => 5 case Internal => 6
  }

  function CodeOf(v: U8): Option<ErrorCode> {
    match v
    case 0 => Some(NotEnrolled) case 1 => Some(BadAuth) case 2 => Some(RateLimit) case 3 => Some(TooManyIds)
    case 4 => Some(CasConflict) case 5 => Some(BadRequest) case 6 => Some(Internal)
    case _ => None
  }

  function EncodeResponse(r: Response): Bytes {
    match r
    case Blob(None) => PutU8(0, PutFlag(false, []))
    case Blob(Some(b)) => PutU8(0, PutFlag(true, PutBytes(b, [])))
    case Exists(bits) => PutU8(1, PutCount(|bits|, PutList(PutFlag, bits, [])))
    case Okay => PutU8(2, [])
    case Refused(c) => PutU8(3, PutU8(CodeByte(c), []))
  }

  function GetResponse(s: Bytes): Parsed<Response> {
    var (tag, s) :- GetU8(s);
    match tag
    case 0 =>
      var (some, s) :- GetFlag(s);
      if !some then Done(Blob(None), s)
      else
        var (b, k) :- GetBytes(MAX_BLOB_SIZE, s);
        Done(Blob(Some(b)), k)
    case 1 =>
      var (n, s) :- GetCount(MAX_HAS_IDS, s);
      var (bits, k) :- GetList(GetFlag, n, s);
      Done(Exists(bits), k)
    case 2 => Done(Okay, s)
    case 3 =>
      var (v, k) :- GetU8(s);
      if CodeOf(v).None? then Fail(BadTag(v)) else Done(Refused(CodeOf(v).value), k)
    case _ => Fail(BadTag(tag))
  }

  function DecodeResponse(s: Bytes): Result<Response, DecodeError> {
    Whole(GetResponse(s))
  }

  predicate ResponseOk(r: Response) {
    match r
    case Blob(Some(b)) => |b| <= MAX_BLOB_SIZE
    case Exists(bits) => |bits| <= MAX_HAS_IDS
    case _ => true
  }

  lemma FlagItems()
    ensures ItemUndone(PutFlag, GetFlag, (b: bool) => true) && ItemStrict(PutFlag, GetFlag, (b: bool) => true)
  {
    Prims();
    hide PutFlag, GetFlag;
  }

  /** A response round-trips exactly when it is within its bounds. */
  lemma ResponseExact(r: Response)
    ensures ResponseOk(r) <==> DecodeResponse(EncodeResponse(r)) == Ok(r)
  {
    if ResponseOk(r) {
      ResponseUndone(r);
    }
    hide EncodeResponse, DecodeResponse, ResponseOk;
    if DecodeResponse(EncodeResponse(r)) == Ok(r) {
      ResponseStrict(EncodeResponse(r));
    }
  }

  lemma BitsUndone(bits: seq<bool>, k: Bytes)
    ensures GetList(GetFlag, |bits|, PutList(PutFlag, bits, k)) == Done(bits, k)
  {
    FlagItems();
    ListUndone(PutFlag, GetFlag, (b: bool) => true, bits, k);
  }

  lemma BitsStrict(n: nat, s: Bytes)
    requires GetList(GetFlag, n, s).Done?
    ensures var r := GetList(GetFlag, n, s); s == PutList(PutFlag, r.value, r.rest)
  {
    FlagItems();
    ListStrict(PutFlag, GetFlag, (b: bool) => true, n, s);
  }

  lemma ResponseUndone(r: Response)
    requires ResponseOk(r)
    ensures DecodeResponse(EncodeResponse(r)) == Ok(r)
  {
    hide PutFlag, GetFlag, PutU8, GetU8, PutBytes, GetBytes, PutCount, GetCount, PutList, GetList, CodeByte, CodeOf;
    match r {
      case Blob(_) => BlobUndone(r.blob);
      case Exists(bits) => ExistsUndone(bits);
      case Okay => U8Undone(2, []);
      case Refused(c) => RefusedUndone(c);
    }
  }

  lemma BlobUndone(b: Option<Canon.Blob>)
    requires ResponseOk(Blob(b))
    ensures DecodeResponse(EncodeResponse(Blob(b))) == Ok(Blob(b))
  {
    hide PutFlag, GetFlag, PutU8, GetU8, PutBytes, GetBytes;
    Prims();
  }

  lemma ExistsUndone(bits: seq<bool>)
    requires |bits| <= MAX_HAS_IDS
    ensures DecodeResponse(EncodeResponse(Exists(bits))) == Ok(Exists(bits))
  {
    hide PutFlag, GetFlag, PutU8, GetU8, PutCount, GetCount, PutList, GetList;
    Prims();
    BitsUndone(bits, []);
  }

  lemma RefusedUndone(c: ErrorCode)
    ensures DecodeResponse(EncodeResponse(Refused(c))) == Ok(Refused(c))
  {
    hide PutU8, GetU8, CodeByte, CodeOf;
    var k := PutU8(CodeByte(c), []);
    U8Undone(3, k);
    U8Undone(CodeByte(c), []);
    CodeUndone(c);
  }

  lemma CodeUndone(c: ErrorCode)
    ensures CodeOf(CodeByte(c)) == Some(c)
  {
  }

  lemma ResponseStrict(s: Bytes)
    requires DecodeResponse(s).Ok?
    ensures ResponseOk(DecodeResponse(s).value) && EncodeResponse(DecodeResponse(s).value) == s
  {
    hide PutFlag, GetFlag, PutU8, GetU8, PutBytes, GetBytes, PutCount, GetCount, PutList, GetList;
    var t := GetU8(s);
    if t.value == 1 {
      var c := GetCount(MAX_HAS_IDS, t.rest);
      BitsStrict(c.value, c.rest);
    }
  }
}
