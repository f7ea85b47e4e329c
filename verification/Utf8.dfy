/** UTF-8, strict both ways: shortest form only, no surrogates, nothing past U+10FFFF. */
module Utf8 {
  import opened Prelude
  import opened Canon
  import opened Names
  import opened KeyRanges

  function EncodeChar(c: char): (b: Bytes)
    ensures |b| == CharLen(c)
  {
    var v := c as int;
    if v < 0x80 then [v]
    else if v < 0x800 then [0xC0 + v / 64, 0x80 + v % 64]
    else if v < 0x10000 then [0xE0 + v / 4096, 0x80 + v / 64 % 64, 0x80 + v % 64]
    else [0xF0 + v / 262144, 0x80 + v / 4096 % 64, 0x80 + v / 64 % 64, 0x80 + v % 64]
  }

  predicate Cont(b: Byte) { 0x80 <= b < 0xC0 }

  predicate Scalar(v: int) { 0 <= v < 0xD800 || 0xE000 <= v < 0x110000 }

  lemma Low6(a: nat, x: nat)
    requires x < 64
    ensures (a * 64 + x) / 64 == a && (a * 64 + x) % 64 == x
  {
  }

  function Two(s: Bytes): (r: Option<char>)
    requires |s| >= 2 && 0xC0 <= s[0] < 0xE0
    ensures r.Some? ==> EncodeChar(r.value) == s[..2]
  {
    if !Cont(s[1]) then None
    else
      var (a, x) := (s[0] as int - 0xC0, s[1] as int - 0x80);
      Low6(a, x);
      if a * 64 + x < 0x80 then None else Some((a * 64 + x) as char)
  }

  function Three(s: Bytes): (r: Option<char>)
    requires |s| >= 3 && 0xE0 <= s[0] < 0xF0
    ensures r.Some? ==> EncodeChar(r.value) == s[..3]
  {
    if !Cont(s[1]) || !Cont(s[2]) then None
    else
      var (a, x, y) := (s[0] as int - 0xE0, s[1] as int - 0x80, s[2] as int - 0x80);
      Low6(a, x);
      Low6(a * 64 + x, y);
      var v := (a * 64 + x) * 64 + y;
      if v < 0x800 || !Scalar(v) then None else assert v / 4096 == v / 64 / 64; Some(v as char)
  }

  function Four(s: Bytes): (r: Option<char>)
    requires |s| >= 4 && 0xF0 <= s[0]
    ensures r.Some? ==> EncodeChar(r.value) == s[..4]
  {
    if !Cont(s[1]) || !Cont(s[2]) || !Cont(s[3]) then None
    else
      var (a, x, y, z) := (s[0] as int - 0xF0, s[1] as int - 0x80, s[2] as int - 0x80, s[3] as int - 0x80);
      Low6(a, x);
      Low6(a * 64 + x, y);
      Low6((a * 64 + x) * 64 + y, z);
      var v := ((a * 64 + x) * 64 + y) * 64 + z;
      if v < 0x10000 || !Scalar(v) then None
      else assert v / 4096 == v / 64 / 64 && v / 262144 == v / 64 / 64 / 64; Some(v as char)
  }

  /** The first character, if the input starts with a well-formed one. */
  function FirstChar(s: Bytes): (r: Option<char>)
    ensures r.Some? ==> CharLen(r.value) <= |s| && EncodeChar(r.value) == s[..CharLen(r.value)]
  {
    if s == [] then None
    else if s[0] < 0x80 then Some(s[0] as char)
    else if s[0] < 0xC0 then None
    else if s[0] < 0xE0 then if |s| < 2 then None else Two(s)
    else if s[0] < 0xF0 then if |s| < 3 then None else Three(s)
    else if |s| < 4 then None
    else Four(s)
  }

  lemma FirstOfEncoded(c: char, k: Bytes)
    ensures FirstChar(EncodeChar(c) + k) == Some(c)
  {
    var s := EncodeChar(c) + k;
    assert forall i :: 0 <= i < CharLen(c) ==> s[i] == EncodeChar(c)[i];
    if CharLen(c) == 2 {
      TwoUndone(c, s);
    } else if CharLen(c) == 3 {
      ThreeUndone(c, s);
    } else if CharLen(c) == 4 {
      FourUndone(c, s);
    }
  }

  lemma TwoUndone(c: char, s: Bytes)
    requires CharLen(c) == 2 && |s| >= 2 && s[0] == EncodeChar(c)[0] && s[1] == EncodeChar(c)[1]
    ensures 0xC0 <= s[0] < 0xE0 && Two(s) == Some(c)
  {
  }

  lemma ThreeUndone(c: char, s: Bytes)
    requires CharLen(c) == 3 && |s| >= 3 && s[0] == EncodeChar(c)[0] && s[1] == EncodeChar(c)[1] &&
            s[2] == EncodeChar(c)[2]
    ensures 0xE0 <= s[0] < 0xF0 && Three(s) == Some(c)
  {
    var v := c as int;
    assert v / 64 / 64 == v / 4096;
  }

  lemma FourUndone(c: char, s: Bytes)
    requires CharLen(c) == 4 && |s| >= 4 && s[0] == EncodeChar(c)[0] && s[1] == EncodeChar(c)[1]
    requires s[2] == EncodeChar(c)[2] && s[3] == EncodeChar(c)[3]
    ensures 0xF0 <= s[0] && Four(s) == Some(c)
  {
    var v := c as int;
    assert v / 64 / 64 == v / 4096 && v / 4096 / 64 == v / 262144;
  }

  /** The bytes of a string. */
  function Utf8(s: string): (b: Bytes)
    ensures |b| == Len(s)
  {
    if s == "" then [] else EncodeChar(s[0]) + Utf8(s[1..])
  }

  /** `String::from_utf8`. */
  function FromUtf8(b: Bytes): (r: Option<string>)
    ensures r.Some? ==> Utf8(r.value) == b
    decreases |b|
  {
    if b == [] then Some("")
    else
      var c := FirstChar(b);
      if c.None? then None
      else
        var rest := FromUtf8(b[CharLen(c.value)..]);
        if rest.None? then None
        else
          assert ([c.value] + rest.value)[1..] == rest.value;
          Some([c.value] + rest.value)
  }

  lemma {:induction false} Utf8Undone(s: string)
    ensures FromUtf8(Utf8(s)) == Some(s)
  {
    if s != "" {
      var k := Utf8(s[1..]);
      FirstOfEncoded(s[0], k);
      Utf8Undone(s[1..]);
      assert (EncodeChar(s[0]) + k)[CharLen(s[0])..] == k;
      assert s == [s[0]] + s[1..];
    }
  }

  // ---- names sort the same as characters and as bytes ----

  lemma {:induction false} LexAt(a: Bytes, b: Bytes, i: nat)
    requires i < |a| && i < |b| && a[i] < b[i] && forall j :: 0 <= j < i ==> a[j] == b[j]
    ensures AtMost(a, b) && !AtMost(b, a)
    decreases i
  {
    if i > 0 {
      LexAt(a[1..], b[1..], i - 1);
    }
  }

  /** The first byte at which two characters' encodings differ decides like the characters. */
  lemma CharOrder(c: char, d: char) returns (i: nat)
    requires c < d
    ensures i < CharLen(c) && i < CharLen(d) && EncodeChar(c)[i] < EncodeChar(d)[i]
    ensures forall j :: 0 <= j < i ==> EncodeChar(c)[j] == EncodeChar(d)[j]
  {
    var (v, w) := (c as int, d as int);
    if CharLen(c) < CharLen(d) || CharLen(c) == 1 {
      i := 0;
    } else if CharLen(c) == 2 {
      Digit64(v, w);
      i := if v / 64 < w / 64 then 0 else 1;
    } else if CharLen(c) == 3 {
      i := Order3(c, d);
    } else {
      i := Order4(c, d);
    }
  }

  lemma Digit64(v: nat, w: nat)
    requires v < w
    ensures v / 64 < w / 64 || (v / 64 == w / 64 && v % 64 < w % 64)
  {
  }

  lemma Order3(c: char, d: char) returns (i: nat)
    requires c < d && CharLen(c) == 3 && CharLen(d) == 3
    ensures i < 3 && EncodeChar(c)[i] < EncodeChar(d)[i]
    ensures forall j :: 0 <= j < i ==> EncodeChar(c)[j] == EncodeChar(d)[j]
  {
    var (v, w) := (c as int, d as int);
    assert v / 64 / 64 == v / 4096 && w / 64 / 64 == w / 4096;
    Digit64(v, w);
    if v / 64 < w / 64 { Digit64(v / 64, w / 64); }
    i := if v / 4096 < w / 4096 then 0 else if v / 64 < w / 64 then 1 else 2;
  }

  lemma Order4(c: char, d: char) returns (i: nat)
    requires c < d && CharLen(c) == 4 && CharLen(d) == 4
    ensures i < 4 && EncodeChar(c)[i] < EncodeChar(d)[i]
    ensures forall j :: 0 <= j < i ==> EncodeChar(c)[j] == EncodeChar(d)[j]
  {
    var (v, w) := (c as int, d as int);
    assert v / 64 / 64 == v / 4096 && w / 64 / 64 == w / 4096;
    assert v / 4096 / 64 == v / 262144 && w / 4096 / 64 == w / 262144;
    Digit64(v, w);
    if v / 64 < w / 64 {
      Digit64(v / 64, w / 64);
      if v / 4096 < w / 4096 { Digit64(v / 4096, w / 4096); }
    }
    i := if v / 262144 < w / 262144 then 0 else if v / 4096 < w / 4096 then 1 else if v / 64 < w / 64 then 2 else 3;
  }

  lemma HeadOrder(c: char, x: Bytes, d: char, y: Bytes)
    requires c < d
    ensures AtMost(EncodeChar(c) + x, EncodeChar(d) + y) && !AtMost(EncodeChar(d) + y, EncodeChar(c) + x)
  {
    var i := CharOrder(c, d);
    hide EncodeChar, AtMost;
    LexAt(EncodeChar(c) + x, EncodeChar(d) + y, i);
  }

  lemma {:induction false} SamePrefixOrder(p: Bytes, x: Bytes, y: Bytes)
    ensures AtMost(p + x, p + y) <==> AtMost(x, y)
  {
    if p == [] {
      assert p + x == x && p + y == y;
    } else {
      SamePrefixOrder(p[1..], x, y);
      assert (p + x)[1..] == p[1..] + x && (p + y)[1..] == p[1..] + y;
    }
  }

  /** Comparing names by character is comparing their UTF-8 bytes, as the program does. */
  lemma {:induction false} OrderAgrees(a: string, b: string)
    ensures Less(a, b) || a == b <==> AtMost(Utf8(a), Utf8(b))
    decreases |a|
  {
    if a != "" && b != "" {
      var (x, y) := (Utf8(a[1..]), Utf8(b[1..]));
      OrderAgrees(a[1..], b[1..]);
      if a[0] < b[0] {
        HeadOrder(a[0], x, b[0], y);
      } else if b[0] < a[0] {
        HeadOrder(b[0], y, a[0], x);
      } else {
        SamePrefixOrder(EncodeChar(a[0]), x, y);
        assert a == [a[0]] + a[1..] && b == [b[0]] + b[1..];
      }
    }
  }
}
