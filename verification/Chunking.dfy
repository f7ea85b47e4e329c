/** Keyed content-defined chunking: the streaming form emits exactly the slices of the in-memory form. */
module Chunking {
  import opened Prelude
  import opened Objects

  /** 64-bit arithmetic wraps. */
  function Rolled(fp: bv64, g: bv64): bv64 {
    (fp << 1) + g
  }

  /** A configured chunker: the gear table, the size bounds and the two normalization masks. */
  datatype Chunker = Chunker(gear: seq<bv64>, min: nat, avg: nat, max: nat, maskS: bv64, maskL: bv64) {
    predicate Valid() {
      |gear| == 256 && 0 < min <= avg <= max
    }

    /** The rolling fingerprint after one more byte. */
    function Roll(fp: bv64, b: Byte): bv64
      requires Valid()
    {
      Rolled(fp, gear[b])
    }
  }

  /** A cut fires where every masked bit is zero. */
  predicate Fires(fp: bv64, mask: bv64) {
    fp & mask == 0
  }

  /** Where the scan from `i` stops: the strict mask applies below `center`, the loose one after it. */
  function Scan(c: Chunker, data: seq<Byte>, fp: bv64, i: nat, center: nat, end: nat): (cut: nat)
    requires c.Valid() && i <= end <= |data|
    ensures i <= cut <= end
    decreases end - i
  {
    if i == end then end
    else
      var fp' := c.Roll(fp, data[i]);
      if Fires(fp', if i < center then c.maskS else c.maskL) then i + 1
      else Scan(c, data, fp', i + 1, center, end)
  }

  /** Where the first cut falls; the contract bounds it by `min`, `max` and the input. */
  function NextCut(c: Chunker, data: seq<Byte>): (cut: nat)
    requires c.Valid()
    ensures cut <= |data| && cut <= c.max
    ensures |data| <= c.min ==> cut == |data|
    ensures data != [] ==> cut > 0
    ensures c.min < |data| ==> c.min <= cut
  {
    if |data| <= c.min then |data|
    else
      var end := Min(|data|, c.max);
      Scan(c, data, 0, c.min, Min(c.avg, end), end)
  }

  /** `next_cut`: two loops over one rolling fingerprint. */
  method FindCut(c: Chunker, data: seq<Byte>) returns (cut: nat)
    requires c.Valid()
    ensures cut == NextCut(c, data)
  {
    hide c.Roll, Fires;
    var n := |data|;
    if n <= c.min {
      return n;
    }
    var end := Min(n, c.max);
    var center := Min(c.avg, end);
    var fp: bv64 := 0;
    var i := c.min;
    while i < center
      invariant c.min <= i <= center
      invariant NextCut(c, data) == Scan(c, data, fp, i, center, end)
    {
      fp := c.Roll(fp, data[i]);
      if Fires(fp, c.maskS) {
        return i + 1;
      }
      i := i + 1;
    }
    while i < end
      invariant center <= i <= end
      invariant NextCut(c, data) == Scan(c, data, fp, i, center, end)
    {
      fp := c.Roll(fp, data[i]);
      if Fires(fp, c.maskL) {
        return i + 1;
      }
      i := i + 1;
    }
    return end;
  }

  // ---- where the cut falls ----

  /** Rolling in a gear value doubles the fingerprint and adds it, modulo 2^64. */
  lemma RollDoubles(fp: bv64, g: bv64)
    ensures Rolled(fp, g) == fp + fp + g
  {
  }

  /** The fingerprint of `data[lo..hi]`: its bytes rolled in, one by one, from zero. */
  function Print(c: Chunker, data: seq<Byte>, lo: nat, hi: nat): bv64
    requires c.Valid() && lo <= hi <= |data|
    decreases hi
  {
    if lo == hi then 0 else c.Roll(Print(c, data, lo, hi - 1), data[hi - 1])
  }

  /** The bytes from `min` up to `k` end a chunk: the strict mask is clear up to `avg`, the loose one after it. */
  ghost predicate CutsAt(c: Chunker, data: seq<Byte>, k: nat)
    requires c.Valid() && c.min < k <= |data|
  {
    Fires(Print(c, data, c.min, k), if k <= c.avg then c.maskS else c.maskL)
  }

  lemma CutsWhere(c: Chunker, data: seq<Byte>, i: nat, end: nat)
    requires c.Valid() && c.min <= i < end <= |data|
    ensures var fp := c.Roll(Print(c, data, c.min, i), data[i]);
            && fp == Print(c, data, c.min, i + 1)
            && (CutsAt(c, data, i + 1) <==> Fires(fp, if i < Min(c.avg, end) then c.maskS else c.maskL))
  {
    hide c.Roll, Fires;
  }

  lemma {:induction false} ScanExact(c: Chunker, data: seq<Byte>, i: nat, end: nat)
    requires c.Valid() && c.min <= i <= end <= |data|
    ensures var cut := Scan(c, data, Print(c, data, c.min, i), i, Min(c.avg, end), end);
            && (forall k :: i < k < cut ==> !CutsAt(c, data, k))
            && (cut < end ==> i < cut && CutsAt(c, data, cut))
    decreases end - i
  {
    hide Fires, CutsAt, Print, c.Roll;
    if i < end {
      CutsWhere(c, data, i, end);
      ScanExact(c, data, i + 1, end);
    }
  }

  /** The cut is the first position past `min` whose fingerprint fires, or the end of the window. */
  lemma CutExact(c: Chunker, data: seq<Byte>)
    requires c.Valid() && c.min < |data|
    ensures var (cut, end) := (NextCut(c, data), Min(|data|, c.max));
            && c.min <= cut <= end
            && (forall k :: c.min < k < cut ==> !CutsAt(c, data, k))
            && (cut < end ==> c.min < cut && CutsAt(c, data, cut))
  {
    hide CutsAt;
    ScanExact(c, data, c.min, Min(|data|, c.max));
    hide Scan;
  }

  lemma {:induction false} ScanLocal(c: Chunker, a: seq<Byte>, b: seq<Byte>, fp: bv64, i: nat, center: nat, end: nat)
    requires c.Valid() && i <= end <= |a| && end <= |b| && a[..end] == b[..end]
    ensures Scan(c, a, fp, i, center, end) == Scan(c, b, fp, i, center, end)
    decreases end - i
  {
    hide c.Roll, Fires;
    if i < end {
      assert a[i] == a[..end][i] == b[..end][i] == b[i];
      ScanLocal(c, a, b, c.Roll(fp, a[i]), i + 1, center, end);
    }
  }

  /** Bytes past position `max` have no influence on the cut. */
  lemma CutIsLocal(c: Chunker, window: seq<Byte>, rest: seq<Byte>)
    requires c.Valid() && (|window| >= c.max || rest == [])
    ensures NextCut(c, window + rest) == NextCut(c, window)
  {
    hide Scan;
    var all := window + rest;
    if rest == [] {
      assert all == window;
    } else if c.min < |window| {
      var end := c.max;
      assert all[..end] == window[..end];
      ScanLocal(c, all, window, 0, c.min, Min(c.avg, end), end);
    }
  }

  /** The in-memory chunk slices. */
  function Chunks(c: Chunker, data: seq<Byte>): seq<seq<Byte>>
    requires c.Valid()
    decreases |data|
  {
    if data == [] then []
    else
      var k := NextCut(c, data);
      [data[..k]] + Chunks(c, data[k..])
  }

  /** `chunks` as the loop it is. */
  method CutAll(c: Chunker, data: seq<Byte>) returns (out: seq<seq<Byte>>)
    requires c.Valid()
    ensures out == Chunks(c, data)
  {
    hide NextCut;
    out := [];
    var off := 0;
    while off < |data|
      invariant 0 <= off <= |data|
      invariant out + Chunks(c, data[off..]) == Chunks(c, data)
    {
      var len := FindCut(c, data[off..]);
      assert data[off..][len..] == data[off + len..];
      assert data[off..][..len] == data[off..off + len];
      assert out + [data[off..off + len]] + Chunks(c, data[off + len..]) ==
          out + ([data[off..off + len]] + Chunks(c, data[off + len..]));
      out := out + [data[off..off + len]];
      off := off + len;
    }
    assert Chunks(c, data[off..]) == [];
  }

  function Concat(parts: seq<seq<Byte>>): seq<Byte> {
    if parts == [] then [] else parts[0] + Concat(parts[1..])
  }

  /** The slices are the input, cut: nothing lost, added or reordered, and sizes in range. */
  lemma {:induction false} ChunksPartition(c: Chunker, data: seq<Byte>)
    requires c.Valid()
    ensures Concat(Chunks(c, data)) == data
    ensures forall i :: 0 <= i < |Chunks(c, data)| ==> 0 < |Chunks(c, data)[i]| <= c.max
    ensures forall i :: 0 <= i < |Chunks(c, data)| - 1 ==> c.min <= |Chunks(c, data)[i]|
    decreases |data|
  {
    hide NextCut;
    if data != [] {
      var k := NextCut(c, data);
      ChunksPartition(c, data[k..]);
      assert Chunks(c, data)[1..] == Chunks(c, data[k..]);
      assert data[..k] + data[k..] == data;
      if |data| <= c.min {
        assert data[k..] == [];
      }
    }
  }

  lemma ConcatFirst(x: seq<Byte>, rest: seq<seq<Byte>>)
    ensures Concat([x] + rest) == x + Concat(rest)
  {
    assert ([x] + rest)[1..] == rest;
  }

  /** From any cut on, the rest is chunked as if it stood alone. */
  lemma {:induction false} SuffixAlone(c: Chunker, data: seq<Byte>, k: nat)
    requires c.Valid() && k <= |Chunks(c, data)|
    ensures |Concat(Chunks(c, data)[..k])| <= |data|
    ensures Chunks(c, data)[k..] == Chunks(c, data[|Concat(Chunks(c, data)[..k])|..])
    decreases k
  {
    hide NextCut;
    if k == 0 {
      assert data[0..] == data && Chunks(c, data)[0..] == Chunks(c, data);
    } else {
      var n := NextCut(c, data);
      SuffixAlone(c, data[n..], k - 1);
      var rest := Chunks(c, data[n..]);
      assert Chunks(c, data) == [data[..n]] + rest;
      hide Chunks;
      ConcatFirst(data[..n], rest[..k - 1]);
      assert Chunks(c, data)[..k] == [data[..n]] + rest[..k - 1];
      assert Chunks(c, data)[k..] == rest[k - 1..];
      hide Concat;
      assert data[n..][|Concat(rest[..k - 1])|..] == data[n + |Concat(rest[..k - 1])|..];
    }
  }

  /** Every slice ends where the cut of everything from its start on falls. */
  lemma EveryCut(c: Chunker, data: seq<Byte>, k: nat)
    requires c.Valid() && k < |Chunks(c, data)|
    ensures var off := |Concat(Chunks(c, data)[..k])|;
            off < |data| && Chunks(c, data)[k] == data[off..][..NextCut(c, data[off..])]
  {
    hide NextCut;
    SuffixAlone(c, data, k);
    var off := |Concat(Chunks(c, data)[..k])|;
    assert Chunks(c, data)[k] == Chunks(c, data)[k..][0];
    assert Chunks(c, data[off..]) != [];
  }

  /** Two inputs sharing a suffix cut identically after any boundary they share in it. */
  lemma SharedSuffixSharesCuts(c: Chunker, a: seq<Byte>, b: seq<Byte>, i: nat, j: nat)
    requires c.Valid() && i <= |Chunks(c, a)| && j <= |Chunks(c, b)|
    requires
      var pa, pb := |Concat(Chunks(c, a)[..i])|, |Concat(Chunks(c, b)[..j])|;
      pa <= |a| && pb <= |b| && a[pa..] == b[pb..]
    ensures Chunks(c, a)[i..] == Chunks(c, b)[j..]
  {
    SuffixAlone(c, a, i);
    SuffixAlone(c, b, j);
  }

  // ---- streaming ----

  /** How one read call behaves: a short count, an interruption, or a failure. */
  datatype Event = Short(n: nat) | Interrupted | Failed

  datatype ReadResult = Bytes(data: seq<Byte>) | Retry | Broken

  /** A source that returns its bytes in arbitrary short reads, and in full reads once its script ends. */
  class Reader {
    const source: seq<Byte>
    var pos: nat
    var script: seq<Event>

    predicate Valid()
      reads this
    {
      pos <= |source|
    }

    constructor (source: seq<Byte>, script: seq<Event>)
      ensures Valid() && this.source == source && pos == 0 && this.script == script
    {
      this.source, this.pos, this.script := source, 0, script;
    }

    method Read(room: nat) returns (r: ReadResult)
      requires Valid() && room > 0
      modifies this
      ensures Valid()
      ensures r.Bytes? ==> |r.data| <= room && pos == old(pos) + |r.data| && r.data == source[old(pos)..pos]
      ensures r.Bytes? && r.data == [] ==> pos == |source|
      ensures !r.Bytes? ==> pos == old(pos)
      ensures |script| <= |old(script)| && (r.Retry? ==> |script| < |old(script)|)
    {
      var n := room;
      if script != [] {
        var e := script[0];
        script := script[1..];
        match e
        case Interrupted => return Retry;
        case Failed => return Broken;
        case Short(k) => n := if k == 0 then 1 else k;
      }
      n := Min(Min(n, room), |source| - pos);
      r := Bytes(source[pos..pos + n]);
      pos := pos + n;
    }
  }

  /** Top the window up to `max` bytes or to the end of the source. */
  method Fill(c: Chunker, reader: Reader, start: seq<Byte>) returns (buf: seq<Byte>, eof: bool, ok: bool)
    requires c.Valid() && reader.Valid() && |start| <= c.max
    modifies reader
    ensures reader.Valid() && reader.pos >= old(reader.pos)
    ensures buf == start + reader.source[old(reader.pos)..reader.pos] && |buf| <= c.max
    ensures ok ==> |buf| == c.max || eof
    ensures buf + reader.source[reader.pos..] == start + reader.source[old(reader.pos)..]
    ensures eof ==> reader.pos == |reader.source|
  {
    buf, eof, ok := start, false, true;
    assert reader.source[reader.pos..reader.pos] == [];
    while |buf| < c.max
      invariant reader.Valid() && reader.pos >= old(reader.pos)
      invariant buf == start + reader.source[old(reader.pos)..reader.pos] && |buf| <= c.max
      decreases c.max - |buf|, |reader.script|
    {
      ghost var was := reader.pos;
      var r := reader.Read(c.max - |buf|);
      match r
      case Retry =>
      case Broken =>
        ok := false;
        return;
      case Bytes(more) =>
        if more == [] {
          eof := true;
          return;
        }
        assert reader.source[old(reader.pos)..reader.pos] == reader.source[old(reader.pos)..was] + more;
        buf := buf + more;
    }
  }

  /** One emission: the window's cut is the cut of everything left. */
  lemma EmitOne(c: Chunker, buf: seq<Byte>, rest: seq<Byte>)
    requires c.Valid() && buf != [] && (|buf| >= c.max || rest == [])
    ensures
      var cut := NextCut(c, buf);
      Chunks(c, buf + rest) == [buf[..cut]] + Chunks(c, buf[cut..] + rest)
  {
    hide NextCut;
    CutIsLocal(c, buf, rest);
    var cut := NextCut(c, buf);
    assert (buf + rest)[..cut] == buf[..cut] && (buf + rest)[cut..] == buf[cut..] + rest;
  }

  datatype StreamEnd = Done(total: nat) | ReadError | EmitError

  /**
   `chunk_stream`: never more than `max` bytes are held, and whatever the reads return, the slices
   emitted are those of the in-memory form: all of them when it finishes, a prefix when reading
   fails or the callback refuses a slice (`accepts` is how many it takes).
   */
  method ChunkStream(c: Chunker, reader: Reader, accepts: Option<nat>) returns (out: seq<seq<Byte>>, end: StreamEnd)
    requires c.Valid() && reader.Valid() && reader.pos == 0
    modifies reader
    ensures out <= Chunks(c, reader.source)
    ensures end.Done? ==> out == Chunks(c, reader.source) && end.total == |reader.source|
    ensures end.EmitError? ==> accepts == Some(|out|)
  {
    hide NextCut, Chunks;
    var buf: seq<Byte>, eof, total := [], false, 0;
    out := [];
    ghost var all := Chunks(c, reader.source);
    assert [] + reader.source[0..] == reader.source && [] + all == all;
    while true
      invariant reader.Valid() && |buf| <= c.max
      invariant eof ==> reader.pos == |reader.source|
      invariant all == out + Chunks(c, buf + reader.source[reader.pos..])
      invariant total + |buf| == reader.pos
      decreases |buf| + |reader.source| - reader.pos
    {
      if !eof && |buf| < c.max {
        var ok;
        buf, eof, ok := Fill(c, reader, buf);
        if !ok {
          return out, ReadError;
        }
      }
      ghost var rest := reader.source[reader.pos..];
      if buf == [] {
        NothingLeft(c);
        assert buf + rest == [] && out + [] == out;
        return out, Done(total);
      }
      EmitOne(c, buf, rest);
      var cut := FindCut(c, buf);
      if accepts == Some(|out|) {
        return out, EmitError;
      }
      assert all == out + [buf[..cut]] + Chunks(c, buf[cut..] + rest);
      out := out + [buf[..cut]];
      total := total + cut;
      buf := buf[cut..];
    }
  }

  lemma NothingLeft(c: Chunker)
    requires c.Valid()
    ensures Chunks(c, []) == []
  {
  }
}
