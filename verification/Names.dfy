/**
 Entry names: their UTF-8 length, order and safety, and the keep-both names a merge gives to the
 other side's version. A name is a sequence of Unicode scalar values; limits count UTF-8 bytes.
 */
module Names {
  import opened Prelude
  import opened Frame

  // ---- length ----

  function CharLen(c: char): (n: nat)
    ensures 1 <= n <= 4
  {
    if c as int < 0x80 then 1 else if c as int < 0x800 then 2 else if c as int < 0x10000 then 3 else 4
  }

  function Len(s: string): (n: nat)
    ensures n >= |s|
  {
    if s == "" then 0 else CharLen(s[0]) + Len(s[1..])
  }

  lemma {:induction false} LenConcat(a: string, b: string)
    ensures Len(a + b) == Len(a) + Len(b)
  {
    if a == "" {
      assert a + b == b;
    } else {
      LenConcat(a[1..], b);
      assert (a + b)[1..] == a[1..] + b;
    }
  }

  // ---- order ----

  predicate Less(a: string, b: string) {
    b != "" && (a == "" || a[0] < b[0] || (a[0] == b[0] && Less(a[1..], b[1..])))
  }

  lemma {:induction false} LessTotal(a: string, b: string)
    ensures Less(a, b) || a == b || Less(b, a)
    ensures !(Less(a, b) && Less(b, a)) && !Less(a, a)
  {
    if a != "" {
      LessTotal(a[1..], if b == "" then b else b[1..]);
      LessTotal(a[1..], a[1..]);
      if b != "" && a[0] == b[0] && a[1..] == b[1..] {
        assert a == [a[0]] + a[1..] && b == [b[0]] + b[1..];
      }
    }
  }

  lemma {:induction false} LessTransitive(a: string, b: string, c: string)
    requires Less(a, b) && Less(b, c)
    ensures Less(a, c)
  {
    if a != "" && a[0] == b[0] && b[0] == c[0] {
      LessTransitive(a[1..], b[1..], c[1..]);
    }
  }

  ghost predicate Ascending(s: seq<string>) {
    forall i, j :: 0 <= i < j < |s| ==> Less(s[i], s[j])
  }

  lemma {:induction false} LeastExists(names: set<string>)
    requires names != {}
    ensures exists x :: x in names && forall y :: y in names ==> x == y || Less(x, y)
  {
    var n :| n in names;
    if names != {n} {
      var rest := names - {n};
      LeastExists(rest);
      var x :| x in rest && forall y :: y in rest ==> x == y || Less(x, y);
      LessTotal(n, x);
      var least := if Less(n, x) then n else x;
      forall y | y in names ensures least == y || Less(least, y) {
        if y in rest && least == n && x != y { LessTransitive(n, x, y); }
        if y == n { LessTotal(n, x); }
      }
    }
  }

  /** The iteration order of a `BTreeSet<&str>`. */
  ghost function Sorted(names: set<string>): seq<string> {
    if names == {} then []
    else
      LeastExists(names);
      var x :| x in names && forall y :: y in names ==> x == y || Less(x, y);
      [x] + Sorted(names - {x})
  }

  lemma {:induction false} SortedLists(names: set<string>)
    ensures Ascending(Sorted(names))
    ensures forall n :: n in names <==> n in Sorted(names)
  {
    if names != {} {
      LeastExists(names);
      var x :| x in names && (forall y :: y in names ==> x == y || Less(x, y)) &&
          Sorted(names) == [x] + Sorted(names - {x});
      SortedLists(names - {x});
      var rest := Sorted(names - {x});
      forall i, j | 0 <= i < j < |Sorted(names)| ensures Less(Sorted(names)[i], Sorted(names)[j]) {
        assert rest[j - 1] in rest;
      }
    }
  }

  /** There is only one ascending listing of a set. */
  lemma {:induction false} AscendingUnique(a: seq<string>, b: seq<string>)
    requires Ascending(a) && Ascending(b)
    requires forall n :: n in a <==> n in b
    ensures a == b
  {
    assert (a == []) == (b == []) by {
      assert a != [] ==> a[0] in b;
      assert b != [] ==> b[0] in a;
    }
    if a != [] {
      assert a[0] in a && a[0] in b;
      assert b[0] in b && b[0] in a;
      HeadLeast(a, b[0]);
      HeadLeast(b, a[0]);
      LessTotal(a[0], b[0]);
      TailMembers(a);
      TailMembers(b);
      AscendingUnique(a[1..], b[1..]);
      assert a == [a[0]] + a[1..] && b == [b[0]] + b[1..];
    }
  }

  lemma HeadLeast(a: seq<string>, n: string)
    requires Ascending(a) && n in a
    ensures n == a[0] || Less(a[0], n)
  {
    var i :| 0 <= i < |a| && a[i] == n;
  }

  lemma TailMembers(a: seq<string>)
    requires Ascending(a) && a != []
    ensures Ascending(a[1..])
    ensures forall n :: n in a[1..] <==> n in a && n != a[0]
  {
    LessTotal(a[0], a[0]);
    forall n | n in a && n != a[0] ensures n in a[1..] {
      var i :| 0 <= i < |a| && a[i] == n;
      assert a[1..][i - 1] == n;
    }
    forall n | n in a[1..] ensures n in a && n != a[0] {
      var i :| 0 <= i < |a[1..]| && a[1..][i] == n;
      assert a[i + 1] == n;
    }
  }

  /** Listing a set in order by repeatedly taking its least name. */
  method ListSorted(names: set<string>) returns (out: seq<string>)
    ensures out == Sorted(names)
  {
    out := [];
    var left := names;
    while left != {}
      invariant left <= names
      invariant Ascending(out)
      invariant forall n :: n in names <==> n in out || n in left
      invariant forall n, m :: n in out && m in left ==> Less(n, m)
    {
      LeastExists(left);
      var x :| x in left && forall y :: y in left ==> x == y || Less(x, y);
      out := out + [x];
      left := left - {x};
    }
    SortedLists(names);
    AscendingUnique(out, Sorted(names));
  }

  // ---- safety ----

  predicate IsControl(c: char) {
    c as int < 0x20 || 0x7F <= c as int < 0xA0
  }

  predicate SafeChar(c: char) {
    c != '/' && c != '\\' && !IsControl(c)
  }

  predicate SafeChars(s: string) {
    forall i :: 0 <= i < |s| ==> SafeChar(s[i])
  }

  /** `is_safe_entry_name`. */
  predicate SafeName(s: string) {
    s != "" && s != "." && s != ".." && SafeChars(s)
  }

  /** A name is refused exactly when it is empty, a dot or two, or holds a separator or a control character. */
  lemma UnsafeExactly(s: string)
    ensures !SafeName(s) <==>
            || |s| == 0 || s == "." || s == ".."
            || exists c :: c in s &&
                 (c == '/' || c == '\\' || c as int <= 0x1F || 0x7F <= c as int <= 0x9F)
  {
    if !SafeChars(s) {
      var i :| 0 <= i < |s| && !SafeChar(s[i]);
      assert s[i] in s;
    }
  }

  /** What the tree decoder accepts as an entry name. */
  predicate GoodName(n: string) {
    SafeName(n) && Len(n) <= MAX_NAME_LEN
  }

  // ---- keep-both names ----

  /** Index of the last `.`, or -1. */
  function LastDot(s: string): (i: int)
    ensures -1 <= i < |s|
    ensures i >= 0 ==> s[i] == '.'
    ensures forall j :: i < j < |s| ==> s[j] != '.'
  {
    if s == "" then -1
    else if s[|s| - 1] == '.' then |s| - 1
    else LastDot(s[..|s| - 1])
  }

  /** The last dot and what follows it, unless that dot comes first. */
  function Extension(s: string): string {
    var i := LastDot(s);
    if i > 0 then s[i..] else ""
  }

  function Stem(s: string): string {
    var i := LastDot(s);
    if i > 0 then s[..i] else s
  }

  lemma StemExtension(s: string)
    ensures Stem(s) + Extension(s) == s
    ensures Extension(s) != "" ==> Stem(s) != ""
  {
  }

  /** The longest prefix of whole characters within `cut` bytes. */
  function Fitting(s: string, cut: nat): (p: string)
    ensures p <= s && Len(p) <= cut
    ensures p == s || Len(p) + CharLen(s[|p|]) > cut
  {
    if s == "" || CharLen(s[0]) > cut then ""
    else
      var rest := Fitting(s[1..], cut - CharLen(s[0]));
      assert ([s[0]] + rest)[1..] == rest;
      [s[0]] + rest
  }

  /** The marker before the label of a keep-both copy, and the label. */
  function Marked(tag: string): string {
    ".conflict-" + tag
  }

  /** The tail that survives: the extension, unless it alone would fill the whole name. */
  function Tail(name: string, tag: string): string {
    if Len(Marked(tag) + Extension(name)) < MAX_NAME_LEN then Extension(name) else ""
  }

  /** `conflict_name`: stem, marker, label, extension, the stem cut so the name fits. */
  function ConflictName(name: string, tag: string): string {
    var suffix := Marked(tag) + Extension(name);
    if Len(Stem(name)) + Len(suffix) <= MAX_NAME_LEN then Stem(name) + suffix
    else
      var base := if Len(suffix) < MAX_NAME_LEN then Stem(name) else name;
      var end := if Len(suffix) < MAX_NAME_LEN then suffix else Marked(tag);
      Fitting(base, Min(SatSub(MAX_NAME_LEN, Len(end)), Len(base))) + end
  }

  lemma {:induction false} LenPositive(s: string)
    ensures s != "" ==> Len(s) > 0
  {
  }

  /** Every conflict name is a piece of the name, the marked label, and the surviving tail. */
  lemma ConflictNameShape(name: string, tag: string) returns (p: string)
    ensures p <= name
    ensures ConflictName(name, tag) == p + (Marked(tag) + Tail(name, tag))
    ensures Len(p) + Len(Marked(tag) + Tail(name, tag)) <= Max(MAX_NAME_LEN, Len(Marked(tag)))
  {
    StemExtension(name);
    var suffix := Marked(tag) + Extension(name);
    LenConcat(Marked(tag), Extension(name));
    LenPositive(Stem(name));
    hide Len, LastDot, Marked, Fitting, Stem, Extension;
    assert Marked(tag) + "" == Marked(tag);
    assert Stem(name) <= name;
    if Len(Stem(name)) + Len(suffix) <= MAX_NAME_LEN {
      p := Stem(name);
    } else if Len(suffix) < MAX_NAME_LEN {
      p := Fitting(Stem(name), Min(SatSub(MAX_NAME_LEN, Len(suffix)), Len(Stem(name))));
    } else {
      p := Fitting(name, Min(SatSub(MAX_NAME_LEN, Len(Marked(tag))), Len(name)));
    }
  }

  /** `x` is the extension of `name` and `s` what stands before it; a first dot begins no extension. */
  ghost predicate SplitsAs(name: string, s: string, x: string) {
    && name == s + x
    && if x == "" then forall i :: 0 < i < |name| ==> name[i] != '.'
       else s != "" && x[0] == '.' && forall i :: 0 < i < |x| ==> x[i] != '.'
  }

  lemma SplitExact(name: string, s: string, x: string)
    requires SplitsAs(name, s, x)
    ensures Stem(name) == s && Extension(name) == x
  {
    var i := LastDot(name);
    hide LastDot;
    if x == "" {
      assert s + "" == s;
    } else {
      assert name[|s|] == '.';
      assert forall j :: |s| < j < |name| ==> name[j] == x[j - |s|];
      assert i == |s|;
    }
  }

  /** `p` is the longest prefix of whole characters of `s` that leaves room for `end`. */
  ghost predicate LongestFit(p: string, s: string, end: string) {
    && p <= s
    && (Len(end) <= MAX_NAME_LEN ==> Len(p) + Len(end) <= MAX_NAME_LEN)
    && (p == s || Len(p) + CharLen(s[|p|]) + Len(end) > MAX_NAME_LEN)
  }

  lemma PrefixShorter(p: string, s: string)
    requires p <= s && p != s
    ensures Len(p) + CharLen(s[|p|]) <= Len(s)
  {
    var rest := s[|p|..];
    assert rest[0] == s[|p|] && Len(rest) == CharLen(rest[0]) + Len(rest[1..]);
    assert s == p + rest;
    hide Len;
    LenConcat(p, rest);
  }

  lemma CutFits(s: string, end: string)
    ensures LongestFit(Fitting(s, Min(SatSub(MAX_NAME_LEN, Len(end)), Len(s))), s, end)
  {
    hide Len, Fitting;
    var p := Fitting(s, Min(SatSub(MAX_NAME_LEN, Len(end)), Len(s)));
    if p != s { PrefixShorter(p, s); }
  }

  /**
   The keep-both name, whole: the label goes between stem and extension; past the limit the stem is cut
   at a character to the longest that fits, and an extension that leaves no room at all is cut with it.
   */
  lemma ConflictNameExact(name: string, tag: string, s: string, x: string) returns (p: string)
    requires SplitsAs(name, s, x)
    ensures var mark := ".conflict-" + tag;
            if Len(s) + Len(mark + x) <= MAX_NAME_LEN then ConflictName(name, tag) == s + (mark + x)
            else if Len(mark + x) < MAX_NAME_LEN then
              ConflictName(name, tag) == p + (mark + x) && LongestFit(p, s, mark + x)
            else ConflictName(name, tag) == p + mark && LongestFit(p, name, mark)
  {
    SplitExact(name, s, x);
    var mark := ".conflict-" + tag;
    hide Len, LastDot, Fitting, Stem, Extension, LongestFit, SplitsAs;
    if Len(mark + x) < MAX_NAME_LEN {
      CutFits(s, mark + x);
      p := Fitting(s, Min(SatSub(MAX_NAME_LEN, Len(mark + x)), Len(s)));
    } else {
      CutFits(name, mark);
      p := Fitting(name, Min(SatSub(MAX_NAME_LEN, Len(mark)), Len(name)));
    }
  }

  /** A conflict name fits exactly when the marked label does, and is then a safe entry name. */
  lemma ConflictNameFits(name: string, tag: string)
    ensures Len(ConflictName(name, tag)) <= MAX_NAME_LEN <==> Len(Marked(tag)) <= MAX_NAME_LEN
    ensures SafeName(name) && SafeChars(tag) ==> SafeName(ConflictName(name, tag))
  {
    hide Len, ConflictName, Marked, Tail, SafeName;
    var p := ConflictNameShape(name, tag);
    LenConcat(p, Marked(tag) + Tail(name, tag));
    LenConcat(Marked(tag), Tail(name, tag));
    if SafeName(name) && SafeChars(tag) {
      PiecesSafe(name, tag, p);
    }
  }

  lemma PiecesSafe(name: string, tag: string, p: string)
    requires SafeName(name) && SafeChars(tag) && p <= name
    ensures SafeName(p + (Marked(tag) + Tail(name, tag)))
  {
    hide Len, Tail;
    TailSafe(name, tag);
    assert SafeChars(Marked(tag)) && |Marked(tag)| >= 10;
    hide Marked;
    assert SafeChars(p);
  }

  lemma TailSafe(name: string, tag: string)
    requires SafeChars(name)
    ensures SafeChars(Tail(name, tag))
  {
    hide Len, LastDot, Marked;
  }

  function DigitChar(d: nat): (c: char)
    requires d < 10
    ensures c != '-' && SafeChar(c)
  {
    ('0' as int + d) as char
  }

  function Decimal(n: nat): (s: string)
    ensures s != "" && '-' !in s && SafeChars(s)
  {
    if n < 10 then [DigitChar(n)] else Decimal(n / 10) + [DigitChar(n % 10)]
  }

  /** What a string of decimal digits denotes. */
  function ValueOf(s: string): int {
    if s == "" then 0 else 10 * ValueOf(s[..|s| - 1]) + (s[|s| - 1] as int - '0' as int)
  }

  /** A counter is written in decimal digits, without a leading zero. */
  lemma {:induction false} DecimalReads(n: nat)
    ensures forall i :: 0 <= i < |Decimal(n)| ==> '0' <= Decimal(n)[i] <= '9'
    ensures ValueOf(Decimal(n)) == n && (n > 0 ==> Decimal(n)[0] != '0')
  {
    if n < 10 {
      assert Decimal(n)[..0] == "";
    } else {
      DecimalReads(n / 10);
      var s := Decimal(n);
      assert s[..|s| - 1] == Decimal(n / 10) && s[|s| - 1] == DigitChar(n % 10);
    }
  }

  lemma DecimalWidth(n: nat)
    ensures |Decimal(n)| == 1 <==> n < 10
  {
  }

  lemma {:induction false} DecimalInjective(n: nat, m: nat)
    requires Decimal(n) == Decimal(m)
    ensures n == m
  {
    if n < 10 && m < 10 {
      assert Decimal(n)[0] == Decimal(m)[0];
    } else if n >= 10 && m >= 10 {
      var a, b := Decimal(n), Decimal(m);
      assert a[|a| - 1] == DigitChar(n % 10) && b[|b| - 1] == DigitChar(m % 10);
      assert a[..|a| - 1] == Decimal(n / 10) && b[..|b| - 1] == Decimal(m / 10);
      DecimalInjective(n / 10, m / 10);
    } else {
      DecimalWidth(n);
      DecimalWidth(m);
    }
  }

  /** The tag of the `k`-th attempt: plain first, then `-2`, `-3`, … */
  function Attempt(tag: string, k: nat): string {
    if k <= 1 then tag else tag + "-" + Decimal(k)
  }

  function Candidate(name: string, tag: string, k: nat): string {
    ConflictName(name, Attempt(tag, k))
  }

  lemma SplitAtLastDash(a: string, x: string, b: string, y: string)
    requires a + "-" + x == b + "-" + y && '-' !in x && '-' !in y
    ensures x == y
  {
    var s := a + "-" + x;
    assert s[|a|] == '-' && s[|b|] == '-';
    assert forall i :: |a| < i < |s| ==> s[i] == x[i - |a| - 1];
    assert forall i :: |b| < i < |s| ==> s[i] == y[i - |b| - 1];
    assert x == s[|a| + 1..] && y == s[|b| + 1..];
  }

  /** Attempts that keep the same tail never repeat a name. */
  lemma CandidatesDiffer(name: string, tag: string, i: nat, j: nat)
    requires 2 <= i && 2 <= j
    requires Tail(name, Attempt(tag, i)) == Tail(name, Attempt(tag, j))
    requires Candidate(name, tag, i) == Candidate(name, tag, j)
    ensures i == j
  {
    var p := ConflictNameShape(name, Attempt(tag, i));
    var q := ConflictNameShape(name, Attempt(tag, j));
    var t := Tail(name, Attempt(tag, i));
    SameTail(p, q, tag, i, j, t);
    hide *;
    DecimalInjective(i, j);
  }

  lemma SameTail(p: string, q: string, tag: string, i: nat, j: nat, t: string)
    requires 2 <= i && 2 <= j
    requires p + (Marked(Attempt(tag, i)) + t) == q + (Marked(Attempt(tag, j)) + t)
    ensures Decimal(i) == Decimal(j)
  {
    hide Decimal;
    AttemptSplit(p, tag, i, t);
    AttemptSplit(q, tag, j, t);
    hide *;
    DropTail(p + Marked(tag) + "-" + Decimal(i), q + Marked(tag) + "-" + Decimal(j), t);
    SplitAtLastDash(p + Marked(tag), Decimal(i), q + Marked(tag), Decimal(j));
  }

  lemma AttemptSplit(p: string, tag: string, i: nat, t: string)
    requires 2 <= i
    ensures p + (Marked(Attempt(tag, i)) + t) == (p + Marked(tag) + "-" + Decimal(i)) + t
  {
    hide Decimal;
    assert Marked(Attempt(tag, i)) == Marked(tag) + "-" + Decimal(i);
  }

  lemma DropTail(x: string, y: string, t: string)
    requires x + t == y + t
    ensures x == y
  {
    assert (x + t)[..|x|] == x && (y + t)[..|y|] == y;
  }

  ghost predicate AllTaken(name: string, tag: string, taken: set<string>, k: nat) {
    forall m :: 1 <= m < k ==> Candidate(name, tag, m) in taken
  }

  predicate Bare(name: string, tag: string, m: nat) {
    Tail(name, Attempt(tag, m)) == ""
  }

  ghost predicate Tried(name: string, tag: string, k: nat, bare: bool, c: string) {
    exists m :: 2 <= m < k && Candidate(name, tag, m) == c && Bare(name, tag, m) == bare
  }

  /** The numbered attempts before `k`, split by whether they keep the extension: all distinct. */
  lemma {:induction false} AttemptsCount(name: string, tag: string, taken: set<string>, k: nat)
    returns (bare: set<string>, full: set<string>)
    requires 2 <= k && AllTaken(name, tag, taken, k)
    ensures bare <= taken && full <= taken && |bare| + |full| == k - 2
    ensures forall c :: c in bare ==> Tried(name, tag, k, true, c)
    ensures forall c :: c in full ==> Tried(name, tag, k, false, c)
  {
    hide Candidate, Bare, Tried;
    if k == 2 {
      bare, full := {}, {};
    } else {
      bare, full := AttemptsCount(name, tag, taken, k - 1);
      var c := Candidate(name, tag, k - 1);
      assert c in taken;
      TriedGrows(name, tag, k - 1);
      if Bare(name, tag, k - 1) {
        assert c !in bare;
        bare := bare + {c};
      } else {
        assert c !in full;
        full := full + {c};
      }
    }
  }

  /** Attempt `k` is new among those of its kind, and nothing tried is forgotten. */
  lemma TriedGrows(name: string, tag: string, k: nat)
    requires 2 <= k
    ensures !Tried(name, tag, k, Bare(name, tag, k), Candidate(name, tag, k))
    ensures Tried(name, tag, k + 1, Bare(name, tag, k), Candidate(name, tag, k))
    ensures forall c, w :: Tried(name, tag, k, w, c) ==> Tried(name, tag, k + 1, w, c)
  {
    hide Candidate, Bare;
    if Tried(name, tag, k, Bare(name, tag, k), Candidate(name, tag, k)) {
      var m :| 2 <= m < k && Candidate(name, tag, m) == Candidate(name, tag, k) &&
          Bare(name, tag, m) == Bare(name, tag, k);
      SameKind(name, tag, m, k);
    }
  }

  lemma SameKind(name: string, tag: string, i: nat, j: nat)
    requires 2 <= i && 2 <= j
    requires Bare(name, tag, i) == Bare(name, tag, j)
    requires Candidate(name, tag, i) == Candidate(name, tag, j)
    ensures i == j
  {
    hide Candidate, Attempt, Len, Marked, LastDot;
    CandidatesDiffer(name, tag, i, j);
  }

  /** The search can be refused at most twice per taken name, so it ends. */
  lemma SearchBound(name: string, tag: string, taken: set<string>, k: nat)
    requires AllTaken(name, tag, taken, k)
    ensures k <= 2 * |taken| + 2
  {
    if k > 2 {
      var bare, full := AttemptsCount(name, tag, taken, k);
      Subset(bare, taken);
      Subset(full, taken);
    }
  }

  lemma {:induction false} Subset<T>(a: set<T>, b: set<T>)
    requires a <= b
    ensures |a| <= |b|
  {
    if a != {} {
      var x :| x in a;
      Subset(a - {x}, b - {x});
    }
  }

  /** Attempt `k` is the first whose name is free. */
  ghost predicate FirstFree(name: string, tag: string, taken: set<string>, k: nat) {
    1 <= k && AllTaken(name, tag, taken, k) && Candidate(name, tag, k) !in taken
  }

  lemma {:induction false} FreeExists(name: string, tag: string, taken: set<string>, k: nat)
    requires 1 <= k && AllTaken(name, tag, taken, k)
    ensures exists n :: FirstFree(name, tag, taken, n)
    decreases 2 * |taken| + 3 - k
  {
    hide Candidate;
    SearchBound(name, tag, taken, k);
    if Candidate(name, tag, k) in taken {
      FreeExists(name, tag, taken, k + 1);
    } else {
      assert FirstFree(name, tag, taken, k);
    }
  }

  lemma FirstFreeUnique(name: string, tag: string, taken: set<string>, k: nat, m: nat)
    requires FirstFree(name, tag, taken, k) && FirstFree(name, tag, taken, m)
    ensures k == m
  {
    hide Candidate;
    assert k < m ==> Candidate(name, tag, k) in taken;
    assert m < k ==> Candidate(name, tag, m) in taken;
  }

  /** The free keep-both name: that of the first attempt colliding with nothing. */
  ghost function FreeName(name: string, tag: string, taken: set<string>): (c: string)
    ensures c !in taken
  {
    FreeExists(name, tag, taken, 1);
    var k :| FirstFree(name, tag, taken, k);
    Candidate(name, tag, k)
  }

  /** `free_conflict_name`: its counter stays within twice the names in play. */
  method FreeConflictName(name: string, tag: string, names: set<string>, out: set<string>) returns (c: string)
    ensures c == FreeName(name, tag, names + out)
    ensures c !in names && c !in out
    ensures exists k: nat :: 1 <= k <= 2 * |names + out| + 2 && AllTaken(name, tag, names + out, k) &&
              c == ConflictName(name, if k == 1 then tag else tag + "-" + Decimal(k))
  {
    hide ConflictName;
    ghost var taken := names + out;
    c := ConflictName(name, tag);
    var n := 2;
    while c in names || c in out
      invariant n >= 2 && c == Candidate(name, tag, n - 1)
      invariant AllTaken(name, tag, taken, n - 1)
      decreases 2 * |taken| + 4 - n
    {
      assert AllTaken(name, tag, taken, n);
      SearchBound(name, tag, taken, n);
      c := ConflictName(name, tag + "-" + Decimal(n));
      n := n + 1;
    }
    SearchBound(name, tag, taken, n - 1);
    FreeExists(name, tag, taken, 1);
    ghost var k: nat :| FirstFree(name, tag, taken, k) && FreeName(name, tag, taken) == Candidate(name, tag, k);
    FirstFreeUnique(name, tag, taken, k, n - 1);
  }

  /** A free name is one of the name's conflict names. */
  lemma FreeNameIsCandidate(name: string, tag: string, taken: set<string>) returns (k: nat)
    ensures FreeName(name, tag, taken) == Candidate(name, tag, k)
    ensures 1 <= k <= 2 * |taken| + 2
  {
    hide Candidate;
    FreeExists(name, tag, taken, 1);
    k :| FirstFree(name, tag, taken, k) && FreeName(name, tag, taken) == Candidate(name, tag, k);
    SearchBound(name, tag, taken, k);
  }

  /** Every attempt stays safe and within the limit, for labels with room for the counter. */
  lemma CandidateSafe(name: string, tag: string, k: nat)
    requires SafeName(name) && SafeChars(tag)
    ensures SafeName(Candidate(name, tag, k))
    ensures Len(Marked(Attempt(tag, k))) <= MAX_NAME_LEN <==> Len(Candidate(name, tag, k)) <= MAX_NAME_LEN
  {
    hide Decimal, ConflictName, Len;
    assert SafeChars(Attempt(tag, k));
    ConflictNameFits(name, Attempt(tag, k));
  }

  // ---- lengths of labels ----

  lemma {:induction false} DecimalAscii(n: nat)
    ensures Len(Decimal(n)) == |Decimal(n)|
  {
    if n >= 10 {
      DecimalAscii(n / 10);
      LenConcat(Decimal(n / 10), [DigitChar(n % 10)]);
    }
  }

  function Pow10(d: nat): nat {
    if d == 0 then 1 else 10 * Pow10(d - 1)
  }

  lemma {:induction false} DecimalShort(n: nat, d: nat)
    requires d >= 1 && n < Pow10(d)
    ensures Len(Decimal(n)) <= d
  {
    if n >= 10 {
      DecimalShort(n / 10, d - 1);
    }
    DecimalAscii(n);
    DecimalAscii(n / 10);
  }

  lemma MarkedLen(tag: string)
    ensures Len(Marked(tag)) == 10 + Len(tag)
  {
    LenConcat(".conflict-", tag);
    LenConcat(".conf", "lict-");
    assert ".conf" + "lict-" == ".conflict-";
  }
}
