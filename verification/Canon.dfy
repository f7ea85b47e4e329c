/**
 The canonical encoding under every codec. Encoders are written with the bytes that follow as a
 last argument, so a record is a nest of calls and reading is peeling; `Prims` says that each reader
 undoes its encoder, and each reader's contract says that it accepts nothing else. `Writer` and
 `Reader` are the mutable buffers of the program, tied to these functions.
 */
module Canon {
  import opened Prelude
  import Objects

  type Byte = Objects.Byte
  type Bytes = seq<Byte>
  type U8 = n: nat | n <= 0xFF
  type U32 = n: nat | n <= 0xFFFF_FFFF
  type U64 = n: nat | n <= 0xFFFF_FFFF_FFFF_FFFF
  type Hash = b: Bytes | |b| == 32 witness seq(32, i => 0)
  type Salt = b: Bytes | |b| == 16 witness seq(16, i => 0)
  /** A byte string whose length fits its prefix; the encoder refuses longer ones. */
  type Blob = b: Bytes | |b| <= 0xFFFF_FFFF

  /** Why strict decoding fails, in this layer and in the message layers above it. */
  datatype DecodeError =
    | UnexpectedEof(needed: nat, have: nat)
    | LengthExceedsMax(len: nat, max: nat)
    | TrailingBytes(remaining: nat)
    | NonCanonical
    | BadTag(tag: nat)
    | TooLarge
    | FieldTooLong
    | NonUtf8Name
    | UnsafeName
    | NotAscending

  /** What a reader makes of the remaining input. */
  datatype Parsed<+T> = Done(value: T, rest: Bytes) | Fail(error: DecodeError) {
    predicate IsFailure() { Fail? }
    function PropagateFailure<U>(): Parsed<U>
      requires Fail?
    {
      Fail(error)
    }
    function Extract(): (T, Bytes)
      requires Done?
    {
      (value, rest)
    }
  }

  // ---- little-endian numbers ----

  function Pow256(w: nat): nat {
    if w == 0 then 1 else 256 * Pow256(w - 1)
  }

  function LE(v: nat, w: nat): (b: Bytes)
    ensures |b| == w
  {
    if w == 0 then [] else [v % 256] + LE(v / 256, w - 1)
  }

  function FromLE(b: Bytes): nat {
    if b == [] then 0 else b[0] + 256 * FromLE(b[1..])
  }

  lemma {:induction false} FromLEOfLE(v: nat, w: nat)
    requires v < Pow256(w)
    ensures FromLE(LE(v, w)) == v
  {
    if w > 0 {
      FromLEOfLE(v / 256, w - 1);
      assert LE(v, w)[1..] == LE(v / 256, w - 1);
    }
  }

  lemma {:induction false} LEOfFromLE(b: Bytes)
    ensures FromLE(b) < Pow256(|b|) && LE(FromLE(b), |b|) == b
  {
    if b != [] {
      LEOfFromLE(b[1..]);
      assert b == [b[0]] + b[1..];
    }
  }

  lemma Widths()
    ensures Pow256(1) == 0x100 && Pow256(4) == 0x1_0000_0000
    ensures Pow256(8) == 0x1_0000_0000_0000_0000
  {
    assert Pow256(5) == 0x100_0000_0000;
    assert Pow256(6) == 0x1_0000_0000_0000;
  }

  // ---- fields ----

  function PutNum(w: nat, v: nat, k: Bytes): (s: Bytes)
    ensures |s| == w + |k|
  {
    LE(v, w) + k
  }

  function GetNum(w: nat, s: Bytes): (r: Parsed<nat>)
    ensures r.Done? ==> s == PutNum(w, r.value, r.rest) && r.value < Pow256(w)
  {
    if |s| < w then Fail(UnexpectedEof(w, |s|))
    else
      LEOfFromLE(s[..w]);
      assert s == s[..w] + s[w..];
      Done(FromLE(s[..w]), s[w..])
  }

  lemma NumUndone(w: nat, v: nat, k: Bytes)
    requires v < Pow256(w)
    ensures GetNum(w, PutNum(w, v, k)) == Done(v, k)
  {
    FromLEOfLE(v, w);
    var s := LE(v, w) + k;
    assert s[..w] == LE(v, w) && s[w..] == k;
  }

  function PutU8(v: U8, k: Bytes): (s: Bytes)
    ensures |s| == 1 + |k|
  { PutNum(1, v, k) }

  function PutU32(v: U32, k: Bytes): (s: Bytes)
    ensures |s| == 4 + |k|
  { PutNum(4, v, k) }

  function PutU64(v: U64, k: Bytes): (s: Bytes)
    ensures |s| == 8 + |k|
  { PutNum(8, v, k) }

  function GetU8(s: Bytes): (r: Parsed<U8>)
    ensures r.Done? ==> s == PutU8(r.value, r.rest)
  { Widths(); var (v, k) :- GetNum(1, s); Done(v, k) }

  function GetU32(s: Bytes): (r: Parsed<U32>)
    ensures r.Done? ==> s == PutU32(r.value, r.rest)
  { Widths(); var (v, k) :- GetNum(4, s); Done(v, k) }

  function GetU64(s: Bytes): (r: Parsed<U64>)
    ensures r.Done? ==> s == PutU64(r.value, r.rest)
  { Widths(); var (v, k) :- GetNum(8, s); Done(v, k) }

  /** Fixed-length bytes, no prefix. */
  function PutRaw(b: Bytes, k: Bytes): (s: Bytes)
    ensures |s| == |b| + |k|
  {
    b + k
  }

  function GetRaw(n: nat, s: Bytes): (r: Parsed<Bytes>)
    ensures r.Done? ==> |r.value| == n && s == PutRaw(r.value, r.rest)
  {
    if |s| < n then Fail(UnexpectedEof(n, |s|)) else Done(s[..n], s[n..])
  }

  function GetHash(s: Bytes): (r: Parsed<Hash>)
    ensures r.Done? ==> s == PutRaw(r.value, r.rest)
  { var (v, k) :- GetRaw(32, s); Done(v, k) }

  function GetSalt(s: Bytes): (r: Parsed<Salt>)
    ensures r.Done? ==> s == PutRaw(r.value, r.rest)
  { var (v, k) :- GetRaw(16, s); Done(v, k) }

  /** `le32(len) || bytes`. */
  function PutBytes(b: Blob, k: Bytes): (s: Bytes)
    ensures |s| == 4 + |b| + |k|
  {
    PutU32(|b|, PutRaw(b, k))
  }

  function GetBytes(max: nat, s: Bytes): (r: Parsed<Blob>)
    ensures r.Done? ==> |r.value| <= max && s == PutBytes(r.value, r.rest)
  {
    var (n, body) :- GetU32(s);
    if n > max then Fail(LengthExceedsMax(n, max))
    else
      var (b, k) :- GetRaw(n, body);
      Done(b, k)
  }

  /** A boolean as one byte; the reader knows no third value. */
  function PutFlag(b: bool, k: Bytes): (s: Bytes)
    ensures |s| == 1 + |k|
  {
    PutU8(if b then 1 else 0, k)
  }

  function GetFlag(s: Bytes): (r: Parsed<bool>)
    ensures r.Done? ==> s == PutFlag(r.value, r.rest)
  {
    var (v, k) :- GetU8(s);
    if v == 0 then Done(false, k) else if v == 1 then Done(true, k) else Fail(BadTag(v))
  }

  /** A list count; the writer casts it to 32 bits, the reader bounds it before anything is allocated. */
  function PutCount(n: nat, k: Bytes): (s: Bytes)
    ensures |s| == 4 + |k|
  {
    PutU32(n % 0x1_0000_0000, k)
  }

  lemma CountPlain(n: U32, k: Bytes)
    ensures PutCount(n, k) == PutU32(n, k)
  {
    hide PutU32;
    assert n % 0x1_0000_0000 == n;
  }

  function GetCount(max: nat, s: Bytes): (r: Parsed<nat>)
    ensures r.Done? ==> r.value <= max && r.value <= U32_MAX && s == PutCount(r.value, r.rest)
  {
    var (n, k) :- GetU32(s);
    if n > max then Fail(TooLarge) else CountPlain(n, k); Done(n, k)
  }

  /** Every reader undoes its encoder and leaves what follows. */
  lemma Prims()
    ensures forall v: U8, k :: GetU8(PutU8(v, k)) == Done(v, k)
    ensures forall v: U32, k :: GetU32(PutU32(v, k)) == Done(v, k)
    ensures forall v: U64, k :: GetU64(PutU64(v, k)) == Done(v, k)
    ensures forall b, k :: GetRaw(|b|, PutRaw(b, k)) == Done(b, k)
    ensures forall b: Hash, k :: GetHash(PutRaw(b, k)) == Done(b, k)
    ensures forall b: Salt, k :: GetSalt(PutRaw(b, k)) == Done(b, k)
    ensures forall b: bool, k :: GetFlag(PutFlag(b, k)) == Done(b, k)
    ensures forall b: Blob, k, max: nat {:trigger GetBytes(max, PutBytes(b, k))} :: |b| <= max ==>
            GetBytes(max, PutBytes(b, k)) == Done(b, k)
    ensures forall n: nat, k, max: nat {:trigger GetCount(max, PutCount(n, k))} ::
              n <= max && n <= U32_MAX ==> GetCount(max, PutCount(n, k)) == Done(n, k)
  {
    Widths();
    hide LE, FromLE, Pow256, GetNum, PutNum;
    forall v: U8, k ensures GetU8(PutU8(v, k)) == Done(v, k) { NumUndone(1, v, k); }
    forall v: U32, k ensures GetU32(PutU32(v, k)) == Done(v, k) { NumUndone(4, v, k); }
    forall v: U64, k ensures GetU64(PutU64(v, k)) == Done(v, k) { NumUndone(8, v, k); }
    forall b: Bytes, k ensures GetRaw(|b|, PutRaw(b, k)) == Done(b, k) {
      assert (b + k)[..|b|] == b && (b + k)[|b|..] == k;
    }
    hide GetU8, PutU8, GetU32, PutU32, GetRaw, PutRaw;
    forall b: Hash, k ensures GetHash(PutRaw(b, k)) == Done(b, k) { assert GetRaw(|b|, PutRaw(b, k)) == Done(b, k); }
    forall b: Salt, k ensures GetSalt(PutRaw(b, k)) == Done(b, k) { assert GetRaw(|b|, PutRaw(b, k)) == Done(b, k); }
    forall b: Blob, k, max: nat | |b| <= max ensures GetBytes(max, PutBytes(b, k)) == Done(b, k) {
      assert GetU32(PutU32(|b|, PutRaw(b, k))) == Done(|b|, PutRaw(b, k));
      assert GetRaw(|b|, PutRaw(b, k)) == Done(b, k);
    }
    forall n: nat, k, max: nat | n <= max && n <= U32_MAX ensures GetCount(max, PutCount(n, k)) == Done(n, k) {
      assert n % 0x1_0000_0000 == n;
      assert GetU32(PutU32(n, k)) == Done(n, k);
    }
  }

  // ---- lists ----

  function PutList<T>(put: (T, Bytes) -> Bytes, xs: seq<T>, k: Bytes): Bytes {
    if xs == [] then k else put(xs[0], PutList(put, xs[1..], k))
  }

  function GetList<T>(get: Bytes -> Parsed<T>, n: nat, s: Bytes): (r: Parsed<seq<T>>)
    ensures r.Done? ==> |r.value| == n
  {
    if n == 0 then Done([], s)
    else
      var (x, s) :- get(s);
      var (xs, k) :- GetList(get, n - 1, s);
      Done([x] + xs, k)
  }

  /** The item codec round-trips its valid items. */
  ghost predicate ItemUndone<T(!new)>(put: (T, Bytes) -> Bytes, get: Bytes -> Parsed<T>, ok: T -> bool) {
    forall x, k :: ok(x) ==> get(put(x, k)) == Done(x, k)
  }

  /** The item reader accepts only encodings of valid items. */
  ghost predicate ItemStrict<T(!new)>(put: (T, Bytes) -> Bytes, get: Bytes -> Parsed<T>, ok: T -> bool) {
    forall s :: get(s).Done? ==> ok(get(s).value) && s == put(get(s).value, get(s).rest)
  }

  lemma {:induction false} ListUndone<T(!new)>(put: (T, Bytes) -> Bytes, get: Bytes -> Parsed<T>, ok: T -> bool,
                                               xs: seq<T>, k: Bytes)
    requires ItemUndone(put, get, ok) && forall x :: x in xs ==> ok(x)
    ensures GetList(get, |xs|, PutList(put, xs, k)) == Done(xs, k)
  {
    if xs != [] {
      ListUndone(put, get, ok, xs[1..], k);
      assert ok(xs[0]);
      assert xs == [xs[0]] + xs[1..];
    }
  }

  lemma {:induction false} ListStrict<T(!new)>(put: (T, Bytes) -> Bytes, get: Bytes -> Parsed<T>, ok: T -> bool,
                                               n: nat, s: Bytes)
    requires ItemStrict(put, get, ok) && GetList(get, n, s).Done?
    ensures var r := GetList(get, n, s);
            s == PutList(put, r.value, r.rest) && forall x :: x in r.value ==> ok(x)
  {
    if n > 0 {
      var x := get(s);
      ListStrict(put, get, ok, n - 1, x.rest);
      var xs := GetList(get, n - 1, x.rest);
      assert ([x.value] + xs.value)[1..] == xs.value;
    }
  }

  // ---- lists of hashes ----

  function PutHash(h: Hash, k: Bytes): (s: Bytes)
    ensures |s| == 32 + |k|
  { PutRaw(h, k) }

  function PutHashes(xs: seq<Hash>, k: Bytes): Bytes {
    PutCount(|xs|, PutList(PutHash, xs, k))
  }

  function GetHashes(max: nat, s: Bytes): Parsed<seq<Hash>> {
    var (n, s) :- GetCount(max, s);
    GetList(GetHash, n, s)
  }

  lemma HashItems()
    ensures ItemUndone(PutHash, GetHash, (h: Hash) => true) && ItemStrict(PutHash, GetHash, (h: Hash) => true)
  {
    Prims();
    hide GetHash, PutRaw;
  }

  lemma HashesUndone(max: nat, xs: seq<Hash>, k: Bytes)
    requires |xs| <= max <= U32_MAX
    ensures GetHashes(max, PutHashes(xs, k)) == Done(xs, k)
  {
    Prims();
    HashItems();
    hide GetCount, PutCount;
    ListUndone(PutHash, GetHash, (h: Hash) => true, xs, k);
  }

  lemma HashesStrict(max: nat, s: Bytes)
    requires GetHashes(max, s).Done?
    ensures var r := GetHashes(max, s); |r.value| <= max && s == PutHashes(r.value, r.rest)
  {
    HashItems();
    hide GetCount, PutCount;
    var c := GetCount(max, s);
    ListStrict(PutHash, GetHash, (h: Hash) => true, c.value, c.rest);
  }

  // ---- lists in the making ----

  /** The output `buf` holds what came before `start` and the first `i` items. */
  ghost predicate Written<T(!new)>(put: (T, Bytes) -> Bytes, xs: seq<T>, i: nat, start: Bytes, buf: Bytes) {
    i <= |xs| && forall k :: buf + PutList(put, xs[i..], k) == start + PutList(put, xs, k)
  }

  lemma WriteStart<T(!new)>(put: (T, Bytes) -> Bytes, xs: seq<T>, start: Bytes)
    ensures Written(put, xs, 0, start, start)
  {
    assert xs[0..] == xs;
  }

  lemma WriteNext<T(!new)>(put: (T, Bytes) -> Bytes, xs: seq<T>, i: nat, start: Bytes, before: Bytes, after: Bytes)
    requires i < |xs| && Written(put, xs, i, start, before)
    requires forall k :: after + k == before + put(xs[i], k)
    ensures Written(put, xs, i + 1, start, after)
  {
    forall k ensures after + PutList(put, xs[i + 1..], k) == start + PutList(put, xs, k) {
      assert xs[i..][1..] == xs[i + 1..];
      assert PutList(put, xs[i..], k) == put(xs[i], PutList(put, xs[i + 1..], k));
      assert before + PutList(put, xs[i..], k) == start + PutList(put, xs, k);
    }
  }

  lemma WriteEnd<T(!new)>(put: (T, Bytes) -> Bytes, xs: seq<T>, start: Bytes, buf: Bytes)
    requires Written(put, xs, |xs|, start, buf)
    ensures forall k :: buf + k == start + PutList(put, xs, k)
  {
    assert xs[|xs|..] == [];
    forall k ensures buf + k == start + PutList(put, xs, k) {
      assert PutList(put, xs[|xs|..], k) == k;
    }
  }

  /** Reading `n` items from `s0` comes down to reading the rest of them from `s`, after `xs`. */
  ghost predicate Resumes<T(!new)>(get: Bytes -> Parsed<T>, n: nat, s0: Bytes, xs: seq<T>, s: Bytes) {
    |xs| <= n &&
    match GetList(get, n - |xs|, s)
    case Done(ys, k) => GetList(get, n, s0) == Done(xs + ys, k)
    case Fail(e) => GetList(get, n, s0) == Fail(e)
  }

  lemma ResumeStart<T(!new)>(get: Bytes -> Parsed<T>, n: nat, s: Bytes)
    ensures Resumes(get, n, s, [], s)
  {
    var r := GetList(get, n, s);
    if r.Done? { assert [] + r.value == r.value; }
  }

  lemma ResumeNext<T(!new)>(get: Bytes -> Parsed<T>, n: nat, s0: Bytes, xs: seq<T>, s: Bytes)
    requires Resumes(get, n, s0, xs, s) && |xs| < n
    ensures get(s).Fail? ==> GetList(get, n, s0) == Fail(get(s).error)
    ensures get(s).Done? ==> Resumes(get, n, s0, xs + [get(s).value], get(s).rest)
  {
    hide GetList;
    ListSplit(get, n - |xs|, s);
    if get(s).Done? {
      var r := GetList(get, n - |xs| - 1, get(s).rest);
      assert |xs + [get(s).value]| == |xs| + 1 && n - |xs + [get(s).value]| == n - |xs| - 1;
      if r.Done? { assert xs + ([get(s).value] + r.value) == xs + [get(s).value] + r.value; }
    }
  }

  lemma ListSplit<T(!new)>(get: Bytes -> Parsed<T>, n: nat, s: Bytes)
    requires n > 0
    ensures GetList(get, n, s) ==
            match get(s)
            case Fail(e) => Fail(e)
            case Done(x, s1) =>
              match GetList(get, n - 1, s1) case Fail(e) => Fail(e) case Done(xs, k) => Done([x] + xs, k)
  {
  }

  lemma ResumeEnd<T(!new)>(get: Bytes -> Parsed<T>, n: nat, s0: Bytes, xs: seq<T>, s: Bytes)
    requires Resumes(get, n, s0, xs, s) && |xs| == n
    ensures GetList(get, n, s0) == Done(xs, s)
  {
    assert xs + [] == xs;
  }

  // ---- the buffers ----

  /** The output buffer. Each contract says how whatever is written next nests inside it. */
  class Writer {
    var buf: Bytes

    constructor ()
      ensures buf == []
    {
      buf := [];
    }

    method WriteNum(w: nat, v: nat)
      modifies this
      ensures forall k :: buf + k == old(buf) + PutNum(w, v, k)
    {
      buf := buf + LE(v, w);
      forall k ensures buf + k == old(buf) + PutNum(w, v, k) {
        assert (old(buf) + LE(v, w)) + k == old(buf) + (LE(v, w) + k);
      }
    }

    method WriteU8(v: U8)
      modifies this
      ensures forall k :: buf + k == old(buf) + PutU8(v, k)
    { WriteNum(1, v); }

    method WriteU32(v: U32)
      modifies this
      ensures forall k :: buf + k == old(buf) + PutU32(v, k)
    { WriteNum(4, v); }

    method WriteU64(v: U64)
      modifies this
      ensures forall k :: buf + k == old(buf) + PutU64(v, k)
    { WriteNum(8, v); }

    method WriteRaw(b: Bytes)
      modifies this
      ensures forall k :: buf + k == old(buf) + PutRaw(b, k)
    {
      buf := buf + b;
      forall k ensures buf + k == old(buf) + PutRaw(b, k) {
        assert (old(buf) + b) + k == old(buf) + (b + k);
      }
    }

    method WriteFlag(b: bool)
      modifies this
      ensures forall k :: buf + k == old(buf) + PutFlag(b, k)
    { WriteU8(if b then 1 else 0); }

    /** The length of a list, cast to 32 bits. */
    method WriteCount(n: nat)
      modifies this
      ensures forall k :: buf + k == old(buf) + PutCount(n, k)
    { WriteU32(n % 0x1_0000_0000); }

    method WriteBytes(b: Blob)
      modifies this
      ensures forall k :: buf + k == old(buf) + PutBytes(b, k)
    {
      WriteU32(|b|);
      WriteRaw(b);
    }
  }

  /** The strict decoder: a position that only advances over accepted bytes. */
  class Reader {
    const buf: Bytes
    var pos: nat

    predicate Valid()
      reads this
    {
      pos <= |buf|
    }

    function Rest(): Bytes
      requires Valid()
      reads this
    {
      buf[pos..]
    }

    /** This reader stands where `p` says, and returned what it says. */
    predicate Agrees<T(==)>(p: Parsed<T>, r: Result<T, DecodeError>)
      reads this
    {
      Valid() && match p case Done(v, k) => r == Ok(v) && Rest() == k case Fail(e) => r == Err(e)
    }

    constructor (b: Bytes)
      ensures buf == b && Valid() && Rest() == b
    {
      buf, pos := b, 0;
    }

    method Take(n: nat) returns (r: Result<Bytes, DecodeError>)
      requires Valid()
      modifies this
      ensures Agrees(GetRaw(n, old(Rest())), r)
    {
      var have := |buf| - pos;
      if have < n {
        return Err(UnexpectedEof(n, have));
      }
      r := Ok(buf[pos..pos + n]);
      assert buf[pos..][..n] == buf[pos..pos + n] && buf[pos..][n..] == buf[pos + n..];
      pos := pos + n;
    }

    method ReadNum(w: nat) returns (r: Result<nat, DecodeError>)
      requires Valid()
      modifies this
      ensures Agrees(GetNum(w, old(Rest())), r)
    {
      var b :- Take(w);
      r := Ok(FromLE(b));
    }

    method ReadU8() returns (r: Result<U8, DecodeError>)
      requires Valid()
      modifies this
      ensures Agrees(GetU8(old(Rest())), r)
    { Widths(); var v :- ReadNum(1); r := Ok(v); }

    method ReadU32() returns (r: Result<U32, DecodeError>)
      requires Valid()
      modifies this
      ensures Agrees(GetU32(old(Rest())), r)
    { Widths(); var v :- ReadNum(4); r := Ok(v); }

    method ReadU64() returns (r: Result<U64, DecodeError>)
      requires Valid()
      modifies this
      ensures Agrees(GetU64(old(Rest())), r)
    { Widths(); var v :- ReadNum(8); r := Ok(v); }

    method ReadHash() returns (r: Result<Hash, DecodeError>)
      requires Valid()
      modifies this
      ensures Agrees(GetHash(old(Rest())), r)
    { var b :- Take(32); r := Ok(b); }

    method ReadSalt() returns (r: Result<Salt, DecodeError>)
      requires Valid()
      modifies this
      ensures Agrees(GetSalt(old(Rest())), r)
    { var b :- Take(16); r := Ok(b); }

    method ReadBytes(max: nat) returns (r: Result<Blob, DecodeError>)
      requires Valid()
      modifies this
      ensures Agrees(GetBytes(max, old(Rest())), r)
    {
      var len :- ReadU32();
      if len > max {
        return Err(LengthExceedsMax(len, max));
      }
      var b :- Take(len);
      r := Ok(b);
    }

    method ReadFlag() returns (r: Result<bool, DecodeError>)
      requires Valid()
      modifies this
      ensures Agrees(GetFlag(old(Rest())), r)
    {
      var v :- ReadU8();
      if v > 1 {
        return Err(BadTag(v));
      }
      r := Ok(v == 1);
    }

    method ReadCount(max: nat) returns (r: Result<nat, DecodeError>)
      requires Valid()
      modifies this
      ensures Agrees(GetCount(max, old(Rest())), r)
    {
      var n :- ReadU32();
      if n > max {
        return Err(TooLarge);
      }
      r := Ok(n);
    }

    method Finish() returns (r: Result<(), DecodeError>)
      requires Valid()
      ensures r == if Rest() == [] then Ok(()) else Err(TrailingBytes(|Rest()|))
    {
      r := if |buf| - pos == 0 then Ok(()) else Err(TrailingBytes(|buf| - pos));
    }
  }

  method WriteHashes(w: Writer, xs: seq<Hash>)
    modifies w
    ensures forall k :: w.buf + k == old(w.buf) + PutHashes(xs, k)
  {
    hide PutCount, PutBytes, PutRaw, PutU32, Written, PutList;
    w.WriteCount(|xs|);
    ghost var start := w.buf;
    WriteStart(PutHash, xs, start);
    var i := 0;
    while i < |xs|
      invariant 0 <= i <= |xs| && Written(PutHash, xs, i, start, w.buf)
    {
      ghost var before := w.buf;
      w.WriteRaw(xs[i]);
      WriteNext(PutHash, xs, i, start, before, w.buf);
      i := i + 1;
    }
    WriteEnd(PutHash, xs, start, w.buf);
  }

  method ReadHashes(r: Reader, max: nat) returns (out: Result<seq<Hash>, DecodeError>)
    requires r.Valid()
    modifies r
    ensures r.Agrees(GetHashes(max, old(r.Rest())), out)
  {
    hide GetCount, GetBytes, GetRaw, GetU32, GetList, Resumes;
    var n :- r.ReadCount(max);
    ghost var start := r.Rest();
    var xs: seq<Hash> := [];
    ResumeStart(GetHash, n, start);
    while |xs| < n
      invariant |xs| <= n && r.Valid() && Resumes(GetHash, n, start, xs, r.Rest())
    {
      ResumeNext(GetHash, n, start, xs, r.Rest());
      var x :- r.ReadHash();
      xs := xs + [x];
    }
    ResumeEnd(GetHash, n, start, xs, r.Rest());
    out := Ok(xs);
  }

  /** The whole input must be one value: trailing bytes are refused. */
  function Whole<T>(p: Parsed<T>): Result<T, DecodeError> {
    match p
    case Done(v, k) => if k == [] then Ok(v) else Err(TrailingBytes(|k|))
    case Fail(e) => Err(e)
  }
}
