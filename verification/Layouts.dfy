/**
 The byte layouts, spelled out: every message and tree entry as a plain concatenation of its tag and
 fields, numbers as base-256 digits with the least significant first.
 */
module Layouts {
  import opened Prelude
  import opened Canon
  import opened Wire
  import TreeCodec
  import Utf8

  // ---- numbers ----

  lemma DivTwice(v: nat, p: nat)
    requires p > 0
    ensures (v / 256) / p == v / (256 * p)
  {
    var q := v / 256;
    var r := v % 256;
    var a := q / p;
    var b := q % p;
    assert v == 256 * (p * a + b) + r;
    assert 256 * (p * a) == (256 * p) * a;
    assert 0 <= 256 * b + r < 256 * p;
    DivUnique(v, 256 * p, a, 256 * b + r);
  }

  lemma DivUnique(v: nat, d: nat, a: nat, r: nat)
    requires d > 0 && v == d * a + r && r < d
    ensures v / d == a
  {
    var q := v / d;
    assert v == d * q + v % d;
    Scaled(d, q - a);
    Scaled(d, a - q);
    assert d * (q - a) == d * q - d * a;
  }

  lemma Scaled(d: nat, x: int)
    ensures x >= 1 ==> d * x >= d
    ensures d * -x == -(d * x)
  {
  }

  lemma PowPositive(i: nat)
    ensures Pow256(i) > 0
  {
  }

  /** The `i`-th digit to base 256. */
  function Digit(v: nat, i: nat): nat {
    PowPositive(i);
    (v / Pow256(i)) % 256
  }

  /** Byte `i` of an encoded number is its `i`-th digit to base 256. */
  lemma {:induction false} NumberBytes(v: nat, w: nat, i: nat)
    requires i < w
    ensures LE(v, w)[i] == Digit(v, i)
  {
    if i == 0 {
      assert Pow256(0) == 1;
    } else {
      NumberBytes(v / 256, w - 1, i - 1);
      PowPositive(i - 1);
      DivTwice(v, Pow256(i - 1));
      assert LE(v, w)[i] == LE(v / 256, w - 1)[i - 1];
    }
  }

  // ---- lists ----

  function Joined<T>(flat: T -> Bytes, xs: seq<T>): Bytes {
    if xs == [] then [] else flat(xs[0]) + Joined(flat, xs[1..])
  }

  lemma {:induction false} ListBytes<T(!new)>(put: (T, Bytes) -> Bytes, flat: T -> Bytes, xs: seq<T>, k: Bytes)
    requires forall x, k :: put(x, k) == flat(x) + k
    ensures PutList(put, xs, k) == Joined(flat, xs) + k
  {
    if xs != [] {
      ListBytes(put, flat, xs[1..], k);
    }
  }

  /** A 32-bit length, then the bytes. */
  function Sized(b: Blob): Bytes {
    LE(|b|, 4) + b
  }

  function Itself(b: Hash): Bytes { b }

  /** A 32-bit count, cast, then the ids. */
  function Ids(xs: seq<Hash>): Bytes {
    LE(|xs| % 0x1_0000_0000, 4) + Joined(Itself, xs)
  }

  lemma OneByte(v: U8)
    ensures LE(v, 1) == [v]
  {
    assert LE(v / 256, 0) == [];
  }

  lemma IdsBytes(xs: seq<Hash>, k: Bytes)
    ensures PutHashes(xs, k) == Ids(xs) + k
  {
    ListBytes(PutHash, Itself, xs, k);
    hide LE;
  }

  // ---- requests ----

  function FlatEntry(e: Blob): Bytes { Sized(e) }

  function FlatKeyslot(x: KeyslotPut): Bytes { x.device + (LE(x.gen, 4) + Sized(x.blob)) }

  function FlatWrap(w: Option<Wrap>): Bytes {
    match w
    case None => [0]
    case Some(x) => [1] + (LE(x.gen, 4) + Sized(x.blob))
  }

  function FlatHead(h: Option<HeadPut>): Bytes {
    match h
    case None => [0]
    case Some(x) => [1] + (x.refH + (x.oldHead + Sized(x.newBlob)))
  }

  /** A roster batch: tip, counted entries, counted keyslots, two wraps, the revoked, the head swap. */
  function FlatBatch(b: Batch): Bytes {
    b.oldTip +
    (LE(|b.entries| % 0x1_0000_0000, 4) + (Joined(FlatEntry, b.entries) +
    (LE(|b.keyslots| % 0x1_0000_0000, 4) + (Joined(FlatKeyslot, b.keyslots) +
    (FlatWrap(b.keyhist) + (FlatWrap(b.rosterKeyhist) + (Ids(b.revoke) + FlatHead(b.head))))))))
  }

  /** Every request: its tag, then its fields in this order. */
  function FlatRequest(r: Request): Bytes {
    match r
    case Get(id) => [0] + id
    case Has(ids) => [1] + Ids(ids)
    case Put(id, size, push, blob) => [2] + (id + (LE(size, 4) + (push + Sized(blob))))
    case CasHead(refH, oldHead, newHead, push, blob) =>
      [3] + (refH + (oldHead + (newHead + (push + Sized(blob)))))
    case RosterBatch(b) => [4] + FlatBatch(b)
    case GetRef(refH) => [5] + refH
    case GetRosterEntry(at) => [6] + LE(at, 8)
    case GetKeyslot(device, gen) => [7] + (device + LE(gen, 4))
    case Prune(dead, allHeads, rosterLen) => [8] + (Ids(dead) + (allHeads + LE(rosterLen, 8)))
    case GetRosterKeyhist(gen) => [9] + LE(gen, 4)
    case GetKeyhist(gen) => [10] + LE(gen, 4)
    case PairPut(slot, blob) => [12] + (slot + Sized(blob))
    case PairGet(slot) => [13] + slot
  }

  lemma Prim8(v: U8, k: Bytes)
    ensures PutU8(v, k) == [v] + k
  {
    OneByte(v);
  }

  lemma PrimSized(b: Blob, k: Bytes)
    ensures PutBytes(b, k) == Sized(b) + k
  {
    hide LE;
  }

  lemma NothingAfter(b: Bytes)
    ensures b + [] == b
  {
  }

  lemma EntriesBytes(xs: seq<Blob>, k: Bytes)
    ensures Wire.PutEntries(xs, k) == LE(|xs| % 0x1_0000_0000, 4) + (Joined(FlatEntry, xs) + k)
  {
    hide LE;
    forall x: Blob, k ensures Wire.PutEntry(x, k) == FlatEntry(x) + k { PrimSized(x, k); }
    ListBytes(Wire.PutEntry, FlatEntry, xs, k);
  }

  lemma KeyslotsBytes(xs: seq<KeyslotPut>, k: Bytes)
    ensures PutKeyslots(xs, k) == LE(|xs| % 0x1_0000_0000, 4) + (Joined(FlatKeyslot, xs) + k)
  {
    hide LE;
    forall x, k ensures PutKeyslot(x, k) == FlatKeyslot(x) + k { PrimSized(x.blob, k); }
    ListBytes(PutKeyslot, FlatKeyslot, xs, k);
  }

  lemma WrapBytes(w: Option<Wrap>, k: Bytes)
    ensures PutWrap(w, k) == FlatWrap(w) + k
  {
    match w
    case None => Prim8(0, k);
    case Some(x) =>
      PrimSized(x.blob, k);
      Prim8(1, PutU32(x.gen, PutBytes(x.blob, k)));
      hide LE, PutBytes, Sized, PutU8;
  }

  lemma HeadBytes(h: Option<HeadPut>)
    ensures PutHead(h, []) == FlatHead(h)
  {
    match h
    case None => Prim8(0, []);
    case Some(x) =>
      PrimSized(x.newBlob, []);
      NothingAfter(Sized(x.newBlob));
      Prim8(1, PutRaw(x.refH, PutRaw(x.oldHead, PutBytes(x.newBlob, []))));
      hide LE, PutBytes, Sized, PutU8;
  }

  lemma BatchBytes(b: Batch)
    ensures PutBatch(b, []) == FlatBatch(b)
  {
    HeadBytes(b.head);
    var h := FlatHead(b.head);
    hide LE, Joined, Wire.PutEntries, PutKeyslots, PutWrap, PutHead, PutHashes, FlatWrap, FlatHead, Ids;
    IdsBytes(b.revoke, h);
    var s1 := Ids(b.revoke) + h;
    WrapBytes(b.rosterKeyhist, s1);
    var s2 := FlatWrap(b.rosterKeyhist) + s1;
    WrapBytes(b.keyhist, s2);
    var s3 := FlatWrap(b.keyhist) + s2;
    KeyslotsBytes(b.keyslots, s3);
    EntriesBytes(b.entries, PutKeyslots(b.keyslots, s3));
  }

  /** `Request::encode`, byte for byte. */
  lemma RequestBytes(r: Request)
    ensures Encode(r) == FlatRequest(r)
  {
    match r
    case Get(id) => Prim8(0, PutRaw(id, [])); NothingAfter(id);
    case Has(ids) => Prim8(1, PutHashes(ids, [])); IdsBytes(ids, []); NothingAfter(Ids(ids));
    case Put(id, size, push, blob) =>
      PrimSized(blob, []);
      NothingAfter(Sized(blob));
      hide LE, Sized, PutBytes;
      Prim8(2, PutRaw(id, PutU32(size, PutRaw(push, PutBytes(blob, [])))));
    case CasHead(h, o, n, p, blob) =>
      PrimSized(blob, []);
      NothingAfter(Sized(blob));
      hide LE, Sized, PutBytes;
      Prim8(3, PutRaw(h, PutRaw(o, PutRaw(n, PutRaw(p, PutBytes(blob, []))))));
    case RosterBatch(b) => BatchBytes(b); Prim8(4, PutBatch(b, [])); hide PutBatch, FlatBatch;
    case GetRef(h) => Prim8(5, PutRaw(h, [])); NothingAfter(h);
    case GetRosterEntry(n) => Prim8(6, PutU64(n, [])); NothingAfter(LE(n, 8)); hide LE;
    case GetKeyslot(d, g) => Prim8(7, PutRaw(d, PutU32(g, []))); NothingAfter(LE(g, 4)); hide LE;
    case Prune(dead, h, n) =>
      NothingAfter(LE(n, 8));
      IdsBytes(dead, PutRaw(h, PutU64(n, [])));
      Prim8(8, PutHashes(dead, PutRaw(h, PutU64(n, []))));
      hide LE, PutHashes, Ids;
    case GetRosterKeyhist(g) => Prim8(9, PutU32(g, [])); NothingAfter(LE(g, 4)); hide LE;
    case GetKeyhist(g) => Prim8(10, PutU32(g, [])); NothingAfter(LE(g, 4)); hide LE;
    case PairPut(slot, blob) =>
      PrimSized(blob, []);
      NothingAfter(Sized(blob));
      hide LE, Sized, PutBytes;
      Prim8(12, PutRaw(slot, PutBytes(blob, [])));
    case PairGet(slot) => Prim8(13, PutRaw(slot, [])); NothingAfter(slot);
  }

  // ---- responses ----

  function FlatBit(b: bool): Bytes { [if b then 1 else 0] }

  function FlatResponse(r: Response): Bytes {
    match r
    case Blob(None) => [0, 0]
    case Blob(Some(b)) => [0, 1] + Sized(b)
    case Exists(bits) => [1] + (LE(|bits| % 0x1_0000_0000, 4) + Joined(FlatBit, bits))
    case Okay => [2]
    case Refused(NotEnrolled) => [3, 0]
    case Refused(BadAuth) => [3, 1]
    case Refused(RateLimit) => [3, 2]
    case Refused(TooManyIds) => [3, 3]
    case Refused(CasConflict) => [3, 4]
    case Refused(BadRequest) => [3, 5]
    case Refused(Internal) => [3, 6]
  }

  lemma BitsBytes(bits: seq<bool>)
    ensures PutCount(|bits|, PutList(PutFlag, bits, [])) == LE(|bits| % 0x1_0000_0000, 4) + Joined(FlatBit, bits)
  {
    hide LE;
    forall b, k ensures PutFlag(b, k) == FlatBit(b) + k { Prim8(if b then 1 else 0, k); }
    ListBytes(PutFlag, FlatBit, bits, []);
    NothingAfter(Joined(FlatBit, bits));
  }

  lemma ResponseBytes(r: Response)
    ensures EncodeResponse(r) == FlatResponse(r)
  {
    match r
    case Blob(None) => Prim8(0, PutU8(0, [])); Prim8(0, []);
    case Blob(Some(b)) =>
      Prim8(0, PutU8(1, PutBytes(b, [])));
      Prim8(1, PutBytes(b, []));
      PrimSized(b, []);
      NothingAfter(Sized(b));
      hide PutU8, PutBytes, Sized;
    case Exists(bits) =>
      BitsBytes(bits);
      Prim8(1, PutCount(|bits|, PutList(PutFlag, bits, [])));
      hide PutCount, PutList, LE, Joined, PutU8;
    case Okay => Prim8(2, []);
    case Refused(c) => Prim8(3, PutU8(CodeByte(c), [])); Prim8(CodeByte(c), []); hide PutU8;
  }

  // ---- tree entries ----

  function FlatTreeEntry(e: TreeCodec.Entry): Bytes {
    match e
    case FileEntry(name, mode, mtime, size, salt, chunks) =>
      [0] + (Sized(Utf8.Utf8(name)) + (LE(mode, 4) + (LE(mtime, 8) + (LE(size, 8) + (salt + Ids(chunks))))))
    case DirEntry(name, mode, mtime, subtree, salt) =>
      [1] + (Sized(Utf8.Utf8(name)) + (LE(mode, 4) + (LE(mtime, 8) + (subtree + salt))))
  }

  lemma FileBytes(e: TreeCodec.Entry, k: Bytes)
    requires e.FileEntry?
    ensures TreeCodec.PutEntry(e, k) == FlatTreeEntry(e) + k
  {
    hide LE, PutBytes, Sized, PutU8, PutHashes, Ids, Utf8.Utf8;
    var name: Canon.Blob := Utf8.Utf8(e.name);
    IdsBytes(e.chunks, k);
    var body := PutU64(e.size, PutRaw(e.salt, PutHashes(e.chunks, k)));
    var meta := PutU32(e.mode, PutU64(e.mtime, body));
    PrimSized(name, meta);
    Prim8(0, PutBytes(name, meta));
    assert meta == (LE(e.mode, 4) + (LE(e.mtime, 8) + (LE(e.size, 8) + (e.salt + Ids(e.chunks))))) + k;
  }

  lemma DirBytes(e: TreeCodec.Entry, k: Bytes)
    requires e.DirEntry?
    ensures TreeCodec.PutEntry(e, k) == FlatTreeEntry(e) + k
  {
    hide LE, PutBytes, Sized, PutU8, Utf8.Utf8;
    var name: Canon.Blob := Utf8.Utf8(e.name);
    var meta := PutU32(e.mode, PutU64(e.mtime, PutRaw(e.subtree, PutRaw(e.subtreeSalt, k))));
    PrimSized(name, meta);
    Prim8(1, PutBytes(name, meta));
    assert meta == (LE(e.mode, 4) + (LE(e.mtime, 8) + (e.subtree + e.subtreeSalt))) + k;
  }

  /** `encode_tree`, byte for byte. */
  lemma TreeBytes(es: seq<TreeCodec.Entry>)
    ensures TreeCodec.EncodeTree(es) == LE(|es| % 0x1_0000_0000, 4) + Joined(FlatTreeEntry, es)
  {
    hide LE, TreeCodec.PutEntry, FlatTreeEntry;
    forall e, k ensures TreeCodec.PutEntry(e, k) == FlatTreeEntry(e) + k {
      if e.FileEntry? { FileBytes(e, k); } else { DirBytes(e, k); }
    }
    ListBytes(TreeCodec.PutEntry, FlatTreeEntry, es, []);
    NothingAfter(Joined(FlatTreeEntry, es));
  }
}
