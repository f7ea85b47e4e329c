/** Restoring a target tree into a folder: deletions first, then the target's entries one by one. */
module Reconcile {
  import opened Prelude
  import opened Frame
  import opened Objects
  import opened Names
  import opened Restore
  import Diff

  // ---- file contents ----

  /** `unpad_chunk`: strip trailing zeros, then the `0x80` marker. */
  function Unpad(b: seq<Byte>): Option<seq<Byte>> {
    if b == [] then None
    else if b[|b| - 1] == 0 then Unpad(b[..|b| - 1])
    else if b[|b| - 1] == 0x80 then Some(b[..|b| - 1])
    else None
  }

  function Zeros(n: nat): (z: seq<Byte>)
    ensures |z| == n && forall i :: 0 <= i < n ==> z[i] == 0
  {
    seq(n, i => 0)
  }

  /** The least power of two that is at least `n`, doubling from `p`. */
  function PowerFrom(n: nat, p: nat): (q: nat)
    requires 0 < p && (p == 1 || p < 2 * n)
    ensures n <= q && (q == p || q < 2 * n)
    decreases n - p
  {
    if n <= p then p else PowerFrom(n, 2 * p)
  }

  /** `pad_chunk`: the marker, then zeros up to a power of two. */
  function Pad(data: seq<Byte>): seq<Byte> {
    data + [0x80] + Zeros(PowerFrom(|data| + 1, 1) - |data| - 1)
  }

  ghost predicate IsPower(q: nat) {
    q == 1 || (q > 1 && q % 2 == 0 && IsPower(q / 2))
  }

  lemma {:induction false} PowerFromIs(n: nat, p: nat)
    requires 0 < p && (p == 1 || p < 2 * n) && IsPower(p)
    ensures IsPower(PowerFrom(n, p))
    decreases n - p
  {
    if n > p {
      assert 2 * p / 2 == p;
      PowerFromIs(n, 2 * p);
    }
  }

  /** Unpadding takes off exactly the last marker and the zeros after it, and fails where there is none. */
  lemma {:induction false} UnpadExact(b: seq<Byte>, d: seq<Byte>)
    ensures Unpad(b) == Some(d) <==> exists k: nat :: b == d + [0x80] + Zeros(k)
  {
    if b != [] {
      var init, last := b[..|b| - 1], b[|b| - 1];
      UnpadExact(init, d);
      if Unpad(b) == Some(d) {
        if last == 0 {
          var k: nat :| init == d + [0x80] + Zeros(k);
          assert b == d + [0x80] + Zeros(k + 1);
        } else {
          assert b == d + [0x80] + Zeros(0);
        }
      }
      if k: nat :| b == d + [0x80] + Zeros(k) {
        if k == 0 {
          assert last == 0x80 && init == d;
        } else {
          assert last == 0 && init == d + [0x80] + Zeros(k - 1);
        }
      }
    }
  }

  /** Padding hides the length up to a power of two less than twice as long, and comes off again. */
  lemma PadUndone(data: seq<Byte>)
    ensures Unpad(Pad(data)) == Some(data)
    ensures IsPower(|Pad(data)|) && |data| < |Pad(data)| <= 2 * |data| + 1
  {
    PowerFromIs(|data| + 1, 1);
    hide PowerFrom, Unpad;
    assert Pad(data) == data + [0x80] + Zeros(PowerFrom(|data| + 1, 1) - |data| - 1);
    UnpadExact(Pad(data), data);
  }

  function Plain(c: ChunkId): seq<Byte> {
    if Unpad(c.data).Some? then Unpad(c.data).value else []
  }

  /** The bytes a chunk list stands for. */
  function Data(chunks: seq<ChunkId>): seq<Byte> {
    if chunks == [] then [] else Data(chunks[..|chunks| - 1]) + Plain(chunks[|chunks| - 1])
  }

  function Flatten(parts: seq<seq<Byte>>): seq<Byte> {
    if parts == [] then [] else parts[0] + Flatten(parts[1..])
  }

  lemma {:induction false} FlattenLast(parts: seq<seq<Byte>>, last: seq<Byte>)
    ensures Flatten(parts + [last]) == Flatten(parts) + last
  {
    if parts == [] {
      assert [last][1..] == [] && last + [] == last;
    } else {
      FlattenLast(parts[1..], last);
      assert (parts + [last])[1..] == parts[1..] + [last];
    }
  }

  /** Chunks that hold the padded pieces of a file stand for the file, in order. */
  lemma {:induction false} DataOfPieces(chunks: seq<ChunkId>, parts: seq<seq<Byte>>)
    requires |chunks| == |parts| && forall i :: 0 <= i < |chunks| ==> chunks[i].data == Pad(parts[i])
    ensures Data(chunks) == Flatten(parts)
  {
    hide Pad, Unpad;
    if chunks != [] {
      var n := |chunks| - 1;
      DataOfPieces(chunks[..n], parts[..n]);
      PadUndone(parts[n]);
      FlattenLast(parts[..n], parts[n]);
      assert parts == parts[..n] + [parts[n]];
    }
  }

  /** The file an entry describes. */
  function Written(e: Entry): Item
    requires e.File?
  {
    Regular(e.mtime, Data(e.chunks))
  }

  /** The content checks of `write_file_atomic`; the rename happens only when all pass. */
  method Assemble(st: set<Id>, e: Entry) returns (r: Result<seq<Byte>, RestoreError>)
    requires e.File?
    ensures r.Ok? ==> r.value == Data(e.chunks) && |r.value| == e.size
  {
    var out: seq<Byte> := [];
    var i := 0;
    while i < |e.chunks|
      invariant 0 <= i <= |e.chunks|
      invariant out == Data(e.chunks[..i])
    {
      var c := e.chunks[i];
      assert e.chunks[..i + 1][..i] == e.chunks[..i];
      if ChunkObj(c) !in st {
        return Err(Missing(ChunkObj(c)));
      }
      var plain := Unpad(c.data);
      if c.salt != e.salt || plain.None? || |plain.value| > MAX_CHUNK_LEN || SatAdd(|out|, |plain.value|) > e.size {
        return Err(BadContent);
      }
      out := out + plain.value;
      i := i + 1;
    }
    assert e.chunks[..i] == e.chunks;
    if |out| != e.size {
      return Err(BadContent);
    }
    r := Ok(out);
  }

  // ---- the keep-both name ----

  function Labelled(name: string, tag: string, k: nat): string {
    Stem(name) + (Marked(Attempt(tag, k)) + Extension(name))
  }

  /** The label goes between stem and extension, numbered from the second attempt on. */
  lemma LabelledExact(name: string, tag: string, k: nat, s: string, x: string)
    requires SplitsAs(name, s, x)
    ensures k <= 1 ==> Labelled(name, tag, k) == s + (".conflict-" + tag + x)
    ensures k > 1 ==> Labelled(name, tag, k) == s + (".conflict-" + tag + "-" + Decimal(k) + x)
  {
    hide SplitsAs, Decimal, Stem, Extension;
    SplitExact(name, s, x);
    assert ".conflict-" + (tag + "-" + Decimal(k)) == ".conflict-" + tag + "-" + Decimal(k);
  }

  predicate Usable(c: string, taken: set<string>) {
    c !in taken && Materializable(c)
  }

  /** Attempt `k` is the first usable one the 32-bit counter reaches. */
  ghost predicate FirstUsable(name: string, tag: string, taken: set<string>, k: nat) {
    1 <= k < U32_MAX && Usable(Labelled(name, tag, k), taken) &&
    forall m :: 1 <= m < k ==> !Usable(Labelled(name, tag, m), taken)
  }

  /** `local_conflict_name`; `None` where its counter would overflow. */
  ghost function LocalName(name: string, tag: string, taken: set<string>): (c: Option<string>)
    ensures c.Some? ==> Usable(c.value, taken)
  {
    if exists k: nat :: FirstUsable(name, tag, taken, k) then
      var k: nat :| FirstUsable(name, tag, taken, k);
      Some(Labelled(name, tag, k))
    else None
  }

  lemma LocalNameIs(name: string, tag: string, taken: set<string>, k: nat)
    requires FirstUsable(name, tag, taken, k)
    ensures LocalName(name, tag, taken) == Some(Labelled(name, tag, k))
  {
    var m: nat :| FirstUsable(name, tag, taken, m) && LocalName(name, tag, taken) == Some(Labelled(name, tag, m));
    FirstUnique(name, tag, taken, k, m);
  }

  lemma FirstUnique(name: string, tag: string, taken: set<string>, k: nat, m: nat)
    requires FirstUsable(name, tag, taken, k) && FirstUsable(name, tag, taken, m)
    ensures k == m
  {
    hide Labelled, Usable;
    assert Usable(Labelled(name, tag, k), taken) && Usable(Labelled(name, tag, m), taken);
  }

  method LocalConflictName(name: string, tag: string, taken: set<string>) returns (c: Option<string>)
    ensures c == LocalName(name, tag, taken)
  {
    hide Usable;
    var n := 1;
    while n < U32_MAX
      invariant 1 <= n <= U32_MAX
      invariant forall m :: 1 <= m < n ==> !Usable(Labelled(name, tag, m), taken)
    {
      hide Labelled;
      var candidate := Labelled(name, tag, n);
      if Usable(candidate, taken) {
        LocalNameIs(name, tag, taken, n);
        return Some(candidate);
      }
      n := n + 1;
    }
    assert forall k :: !FirstUsable(name, tag, taken, k);
    return None;
  }

  lemma LabelledLen(name: string, tag: string, k: nat)
    requires 1 <= k < U32_MAX
    ensures Len(Labelled(name, tag, k)) <= Len(name) + Len(tag) + 21
  {
    StemExtension(name);
    LenConcat(Stem(name), Extension(name));
    LenConcat(Stem(name), Marked(Attempt(tag, k)) + Extension(name));
    LenConcat(Marked(Attempt(tag, k)), Extension(name));
    MarkedLen(Attempt(tag, k));
    LenConcat(tag, "-");
    LenConcat(tag + "-", Decimal(k));
    assert Pow10(6) == 1_000_000;
    assert Pow10(10) == 10_000_000_000;
    DecimalShort(k, 10);
    assert Len("-") == 1;
  }

  lemma LabelledSafe(name: string, tag: string, k: nat)
    requires SafeName(name) && !IsTemp(name) && SafeChars(tag)
    ensures SafeName(Labelled(name, tag, k)) && !IsTemp(Labelled(name, tag, k))
  {
    hide Len, Decimal;
    StemExtension(name);
    var c := Labelled(name, tag, k);
    var (s, m) := (Stem(name), Marked(Attempt(tag, k)));
    assert SafeChars(Attempt(tag, k));
    assert SafeChars(m) && |m| >= 10 && m[0] == '.';
    assert SafeChars(s) && SafeChars(Extension(name));
    assert s != "";
    if IsTemp(c) { TempStem(s, m + Extension(name), name); }
  }

  /** A temp's prefix has no dot after its first, so it lies within the stem. */
  lemma TempStem(s: string, x: string, name: string)
    requires s != "" && x != "" && x[0] == '.' && s <= name && IsTemp(s + x)
    ensures IsTemp(name)
  {
    var c := s + x;
    assert forall i :: 0 <= i < 12 ==> c[i] == TMP_PREFIX[i];
    assert forall i :: 1 <= i < 12 ==> TMP_PREFIX[i] != '.';
    assert c[|s|] == '.';
    assert forall i :: 0 <= i < 12 ==> name[i] == c[i];
  }

  lemma LabelledDiffer(name: string, tag: string, i: nat, j: nat)
    requires 2 <= i && 2 <= j && Labelled(name, tag, i) == Labelled(name, tag, j)
    ensures i == j
  {
    SameTail(Stem(name), Stem(name), tag, i, j, Extension(name));
    hide *;
    DecimalInjective(i, j);
  }

  lemma {:induction false} LabelledCount(name: string, tag: string, taken: set<string>, k: nat) returns (s: set<string>)
    requires 2 <= k && forall m :: 2 <= m < k ==> Labelled(name, tag, m) in taken
    ensures s <= taken && |s| == k - 2 && forall c :: c in s ==> exists m :: 2 <= m < k && c == Labelled(name, tag, m)
  {
    hide Labelled;
    if k == 2 {
      s := {};
    } else {
      s := LabelledCount(name, tag, taken, k - 1);
      var c := Labelled(name, tag, k - 1);
      assert c !in s by {
        forall m: nat | 2 <= m < k - 1 ensures Labelled(name, tag, m) != c {
          if Labelled(name, tag, m) == c { LabelledDiffer(name, tag, m, k - 1); }
        }
      }
      s := s + {c};
    }
  }

  /** While labelled names fit the platform's limit, the search finds one. */
  lemma NameFound(name: string, tag: string, taken: set<string>)
    requires SafeName(name) && !IsTemp(name) && SafeChars(tag)
    requires Len(name) + Len(tag) + 21 <= OS_NAME_MAX && |taken| + 3 < U32_MAX
    ensures LocalName(name, tag, taken).Some?
  {
    hide Labelled, SafeName, IsTemp, Len;
    var k := |taken| + 3;
    if forall m :: 2 <= m < k ==> Labelled(name, tag, m) in taken {
      var s := LabelledCount(name, tag, taken, k);
      Subset(s, taken);
    }
    var m: nat :| 2 <= m < k && Labelled(name, tag, m) !in taken;
    LabelledLen(name, tag, m);
    LabelledSafe(name, tag, m);
    FirstBelow(name, tag, taken, m);
  }

  lemma LabelledLonger(name: string, tag: string, k: nat)
    ensures Len(Labelled(name, tag, k)) >= Len(name) + Len(tag) + 10
    ensures k <= 1 ==> Len(Labelled(name, tag, k)) == Len(name) + Len(tag) + 10
  {
    StemExtension(name);
    LenConcat(Stem(name), Extension(name));
    LenConcat(Stem(name), Marked(Attempt(tag, k)) + Extension(name));
    LenConcat(Marked(Attempt(tag, k)), Extension(name));
    MarkedLen(Attempt(tag, k));
    LenConcat(tag, "-");
    LenConcat(tag + "-", Decimal(k));
    hide Len, Stem, Extension, Decimal, Marked;
  }

  /** Numbers only lengthen a labelled name: once the unnumbered one is too long, the search never ends. */
  lemma NameLost(name: string, tag: string, taken: set<string>)
    requires Len(name) + Len(tag) + 10 > OS_NAME_MAX
    ensures LocalName(name, tag, taken) == None
  {
    hide Labelled, Len;
    forall k: nat ensures !FirstUsable(name, tag, taken, k) {
      LabelledLonger(name, tag, k);
    }
  }

  /** While the unnumbered name is not taken, the search finds a name if and only if that one is short enough. */
  lemma FreeNameExact(name: string, tag: string, taken: set<string>)
    requires SafeName(name) && !IsTemp(name) && SafeChars(tag) && Labelled(name, tag, 1) !in taken
    ensures LocalName(name, tag, taken).Some? <==> Len(name) + Len(tag) + 10 <= OS_NAME_MAX
  {
    hide Labelled, Len, SafeName, IsTemp, LocalName;
    if Len(name) + Len(tag) + 10 <= OS_NAME_MAX {
      LabelledLonger(name, tag, 1);
      LabelledSafe(name, tag, 1);
      LocalNameIs(name, tag, taken, 1);
    } else {
      NameLost(name, tag, taken);
    }
  }

  lemma {:induction false} LettersLen(n: nat)
    ensures Len(Letters(n)) == n
  {
    if n > 0 {
      assert Letters(n)[1..] == Letters(n - 1);
      LettersLen(n - 1);
    }
  }

  function Letters(n: nat): (s: string)
    ensures |s| == n && forall i :: 0 <= i < n ==> s[i] == 'a'
  {
    seq(n, i => 'a')
  }

  /** A name the platform can hold, with no room left for any label. */
  lemma LongNameLost(tag: string, taken: set<string>)
    ensures Materializable(Letters(OS_NAME_MAX)) && LocalName(Letters(OS_NAME_MAX), tag, taken) == None
  {
    LettersLen(OS_NAME_MAX);
    assert Letters(OS_NAME_MAX)[0] != TMP_PREFIX[0];
    hide Len, LocalName, Letters;
    NameLost(Letters(OS_NAME_MAX), tag, taken);
  }

  lemma {:induction false} FirstBelow(name: string, tag: string, taken: set<string>, m: nat)
    requires 1 <= m < U32_MAX && Usable(Labelled(name, tag, m), taken)
    ensures exists k: nat :: FirstUsable(name, tag, taken, k)
    decreases m
  {
    hide Labelled, Usable;
    if j: nat :| 1 <= j < m && Usable(Labelled(name, tag, j), taken) {
      FirstBelow(name, tag, taken, j);
    } else {
      assert FirstUsable(name, tag, taken, m);
    }
  }

  // ---- what a finished restore leaves ----

  function NamesOf(t: TreeId): set<string> {
    set e | e in t.entries :: e.name
  }

  /** The deletion pass: names the target lacks, as far as our snapshot tracked them and they are unchanged. */
  function PruneItem(n: string, item: Item, e: Option<Entry>, keep: set<string>): Option<Item> {
    if n in keep || !SafeName(n) || IsTemp(n) then Some(item) else AfterRemove(item, e)
  }

  function Pruned(d: Disk, keep: set<string>, ours: Option<TreeId>): Disk {
    Disk(map n | n in d.items && PruneItem(n, d.items[n], Tracked(ours, n), keep).Some? ::
           PruneItem(n, d.items[n], Tracked(ours, n), keep).value)
  }

  /** What one target entry leaves under its own name, and what it puts beside it. */
  datatype Outcome = Outcome(stay: Option<Item>, copy: Option<Item>)

  predicate SameUpstream(snap: Option<Entry>, e: Entry) {
    snap.Some? && ((e.File? && snap.value.File? && snap.value.chunks == e.chunks) ||
      (e.Dir? && snap.value.Dir? && snap.value.subtree == e.subtree))
  }

  function FileOutcome(item: Option<Item>, snap: Option<Entry>, e: Entry): Outcome
    requires e.File?
  {
    match item
    case None => Outcome(if SameUpstream(snap, e) then None else Some(Written(e)), None)
    case Some(Regular(mtime, data)) =>
      if SameUpstream(snap, e) then
        Outcome(if Unchanged(item.value, snap) then Some(Regular(e.mtime, data)) else item, None)
      else if Unchanged(item.value, snap) then Outcome(Some(Written(e)), None)
      else Outcome(item, Some(Written(e)))
    case Some(Directory(d)) =>
      if SubTree(snap).None? then Outcome(item, Some(Written(e)))
      else
        (match Cleared(d, SubTree(snap).value)
         case None => Outcome(Some(Written(e)), None)
         case Some(left) => Outcome(Some(Directory(left)), Some(Written(e))))
    case Some(Special) => Outcome(Some(Written(e)), None)
  }

  /** Where a target directory goes, onto what, and against which snapshot; `None` where it stays away. */
  datatype DirPlan = Here(onto: Disk, ours: Option<TreeId>) | Beside | Nowhere

  function PlanDir(item: Option<Item>, snap: Option<Entry>, e: Entry): DirPlan
    requires e.Dir?
  {
    match item
    case None => if SameUpstream(snap, e) then Nowhere else Here(EMPTY, SubTree(snap))
    case Some(Directory(d)) => Here(d, SubTree(snap))
    case Some(Regular(_, _)) => if Unchanged(item.value, snap) then Here(EMPTY, SubTree(snap)) else Beside
    case Some(Special) => Here(EMPTY, SubTree(snap))
  }

  /** `restore_dir`; `None` where a keep-both name ran out. */
  ghost function RestoreInto(d: Disk, t: TreeId, ours: Option<TreeId>, tag: string): Option<Disk>
    decreases t, |t.entries| + 1
  {
    RestoreFirst(Pruned(NoTemps(d), NamesOf(t), ours), t, |t.entries|, ours, tag)
  }

  /** The first `i` entries of the target applied to a pruned folder. */
  ghost function RestoreFirst(d: Disk, t: TreeId, i: nat, ours: Option<TreeId>, tag: string): Option<Disk>
    requires i <= |t.entries|
    decreases t, i
  {
    if i == 0 then Some(d)
    else
      match RestoreFirst(d, t, i - 1, ours, tag)
      case None => None
      case Some(cur) => RestoreOne(cur, t, i - 1, ours, tag)
  }

  ghost function RestoreOne(d: Disk, t: TreeId, i: nat, ours: Option<TreeId>, tag: string): Option<Disk>
    requires i < |t.entries|
    decreases t, i
  {
    var e := t.entries[i];
    if !Materializable(e.name) then Some(d)
    else
      match OutcomeOf(On(d, e.name), Tracked(ours, e.name), e, tag)
      case None => None
      case Some(o) => Settle(d, e.name, NamesOf(t), tag, o)
  }

  ghost function OutcomeOf(item: Option<Item>, snap: Option<Entry>, e: Entry, tag: string): Option<Outcome>
    decreases e
  {
    if e.File? then Some(FileOutcome(item, snap, e))
    else
      match PlanDir(item, snap, e)
      case Nowhere => Some(Outcome(None, None))
      case Here(onto, sub) =>
        (match RestoreInto(onto, e.subtree, sub, tag)
         case None => None
         case Some(x) => Some(Outcome(Some(Directory(x)), None)))
      case Beside =>
        (match RestoreInto(EMPTY, e.subtree, None, tag)
         case None => None
         case Some(x) => Some(Outcome(item, Some(Directory(x)))))
  }

  /** Place an outcome: its own name, and a fresh name for the copy. */
  ghost function Settle(d: Disk, name: string, keep: set<string>, tag: string, o: Outcome): Option<Disk> {
    var here := Place(d, name, o.stay);
    if o.copy.None? then Some(here)
    else
      match LocalName(name, tag, keep + here.items.Keys)
      case None => None
      case Some(c) => Some(Place(here, c, o.copy))
  }

  // ---- the run ----

  /** The deletion pass with the names `todo` still ahead. */
  ghost predicate PrunedTo(d: Disk, keep: set<string>, ours: Option<TreeId>, todo: set<string>, cur: Disk) {
    forall n :: On(cur, n) == if n in d.items && n !in todo then PruneItem(n, d.items[n], Tracked(ours, n), keep)
      else On(d, n)
  }

  lemma PrunedNext(d: Disk, keep: set<string>, ours: Option<TreeId>, todo: set<string>, cur: Disk, n: string,
                   left: Option<Item>)
    requires PrunedTo(d, keep, ours, todo, cur) && n in todo && n in d.items
    requires left == PruneItem(n, d.items[n], Tracked(ours, n), keep)
    ensures PrunedTo(d, keep, ours, todo - {n}, Place(cur, n, left))
  {
    hide PruneItem;
  }

  lemma PrunedAll(d: Disk, keep: set<string>, ours: Option<TreeId>, cur: Disk)
    requires PrunedTo(d, keep, ours, {}, cur)
    ensures cur == Pruned(d, keep, ours)
  {
    hide PruneItem;
    SameDisk(cur, Pruned(d, keep, ours));
  }

  /** During the deletions everything that must be kept is. */
  lemma PrunedKept(before: Disk, keep: set<string>, ours: Option<TreeId>, todo: set<string>, cur: Disk)
    requires PrunedTo(NoTemps(before), keep, ours, todo, cur)
    ensures Kept(before, ours, cur)
  {
    KeptSame(before, ours);
    hide AfterRemove, ItemKept;
    forall n | n in before.items ensures ItemKept(before, ours, n, On(cur, n)) {
      RemovedKept(before, ours, n);
      assert ItemKept(before, ours, n, On(before, n));
      if n !in NoTemps(before).items { TempExempt(before, ours, n); }
    }
  }

  lemma TempExempt(before: Disk, ours: Option<TreeId>, n: string)
    requires n in before.items && IsTemp(n) && before.items[n].Regular?
    ensures ItemKept(before, ours, n, None)
  {
  }

  /** A copy under a name not on disk disturbs nothing that must be kept. */
  lemma KeptCopy(before: Disk, ours: Option<TreeId>, cur: Disk, c: string, item: Item)
    requires Kept(before, ours, cur) && c !in cur.items
    ensures Kept(before, ours, Place(cur, c, Some(item)))
  {
    if c in before.items {
      assert ItemKept(before, ours, c, On(cur, c));
      if before.items[c].Directory? {
        KeptNothing(before.items[c].disk, SubTree(Tracked(ours, c)), Inside(Some(item)));
      }
    }
    KeptPlace(before, ours, cur, c, Some(item));
  }

  /** The names of the target other than `name` are as they were. */
  ghost predicate OthersSame(keep: set<string>, name: string, cur: Disk, out: Disk) {
    forall n :: n in keep && n != name ==> On(out, n) == On(cur, n)
  }

  /** Write the file itself or its copy, once `cur` is cleared for it. */
  method WriteFile(st: set<Id>, ghost before: Disk, cur: Disk, e: Entry, keep: set<string>,
                   ghost ours: Option<TreeId>, tag: string, beside: bool)
    returns (out: Disk, r: Result<(), RestoreError>)
    requires e.File? && Kept(before, ours, cur) && e.name in keep
    requires !beside ==> (e.name in before.items ==> ItemKept(before, ours, e.name, Some(Written(e))))
    ensures Kept(before, ours, out)
    ensures r.Ok? && !beside ==> out == Place(cur, e.name, Some(Written(e)))
    ensures r.Ok? && beside ==>
              var c := LocalName(e.name, tag, keep + cur.items.Keys);
              c.Some? && out == Place(cur, c.value, Some(Written(e)))
  {
    hide Kept, ItemKept, Materializable;
    var dest := e.name;
    if beside {
      var c := LocalConflictName(e.name, tag, keep + cur.items.Keys);
      if c.None? {
        return cur, Err(NoFreeName);
      }
      dest := c.value;
    }
    var data := Assemble(st, e);
    if data.Err? {
      return cur, Err(data.error);
    }
    out := Place(cur, dest, Some(Regular(e.mtime, data.value)));
    if beside {
      KeptCopy(before, ours, cur, dest, Written(e));
    } else {
      KeptPlace(before, ours, cur, dest, Some(Written(e)));
    }
    r := Ok(());
  }

  /** One file entry of the target. */
  method RestoreFile(st: set<Id>, ghost before: Disk, cur: Disk, e: Entry, keep: set<string>, ours: Option<TreeId>,
                     tag: string, depth: nat)
    returns (out: Disk, r: Result<(), RestoreError>)
    requires e.File? && e.name in keep && ListedOpt(ours)
    requires Kept(before, ours, cur) && On(cur, e.name) == On(before, e.name)
    ensures Kept(before, ours, out)
    ensures r.Ok? ==>
              Settle(cur, e.name, keep, tag, FileOutcome(On(cur, e.name), Tracked(ours, e.name), e)) == Some(out)
  {
    hide Kept, Cleared;
    var (item, snap) := (On(cur, e.name), Tracked(ours, e.name));
    var (beside, onto) := (false, cur);
    match item {
      case None =>
        if SameUpstream(snap, e) {
          PlaceGone(cur, e.name);
          return cur, Ok(());
        }
      case Some(Regular(mtime, data)) =>
        if SameUpstream(snap, e) {
          if Unchanged(item.value, snap) {
            out := Place(cur, e.name, Some(Regular(e.mtime, data)));
            KeptPlace(before, ours, cur, e.name, Some(Regular(e.mtime, data)));
          } else {
            out := cur;
            PlaceSame(cur, e.name);
          }
          return out, Ok(());
        }
        beside := !Unchanged(item.value, snap);
        if beside { PlaceSame(cur, e.name); }
      case Some(Directory(d)) =>
        beside := true;
        PlaceSame(cur, e.name);
        if SubTree(snap).Some? {
          var sub := SubTree(snap).value;
          ListedBelow(ours, e.name);
          if TreeObj(sub) !in st {
            return cur, Err(Missing(TreeObj(sub)));
          }
          var left, ok := RemoveTracked(st, d, sub, depth + 1);
          var there := if left.Some? then Some(Directory(left.value)) else None;
          KeptPlace(before, ours, cur, e.name, there);
          onto := Place(cur, e.name, there);
          if ok.Err? {
            return onto, ok;
          }
          beside := left.Some?;
          if !beside { ClearedNothing(d, sub, Inside(Some(Written(e)))); }
        }
      case Some(Special) =>
        KeptPlace(before, ours, cur, e.name, None);
        onto := Place(cur, e.name, None);
    }
    PlaceTwice(cur, e.name, None, Some(Written(e)));
    out, r := WriteFile(st, before, onto, e, keep, ours, tag, beside);
  }

  lemma PlaceGone(d: Disk, n: string)
    requires n !in d.items
    ensures Place(d, n, None) == d
  {
    assert Place(d, n, None).items == d.items;
  }

  lemma PlaceTwice(d: Disk, n: string, a: Option<Item>, b: Option<Item>)
    ensures Place(Place(d, n, a), n, b) == Place(d, n, b)
  {
    assert Place(Place(d, n, a), n, b).items == Place(d, n, b).items;
  }

  lemma ClearedNothing(d: Disk, snap: TreeId, after: Disk)
    requires Cleared(d, snap).None?
    ensures Kept(d, Some(snap), after)
  {
    ClearedKept(d, snap);
    KeptNothing(d, Some(snap), after);
  }

  /** Why a target tree cannot even be entered; checked before its directory is created. */
  function Unreachable(st: set<Id>, t: TreeId, depth: nat): Option<RestoreError> {
    if depth >= MAX_TREE_DEPTH then Some(DepthExceeded)
    else if TreeObj(t) !in st then Some(Missing(TreeObj(t)))
    else None
  }

  /** One directory entry of the target. */
  method RestoreFolder(st: set<Id>, ghost before: Disk, cur: Disk, e: Entry, keep: set<string>, ours: Option<TreeId>,
                       tag: string, depth: nat)
    returns (out: Disk, r: Result<(), RestoreError>)
    requires e.Dir? && e.name in keep && ListedOpt(ours) && Listed(e.subtree)
    requires Kept(before, ours, cur) && On(cur, e.name) == On(before, e.name)
    ensures Kept(before, ours, out)
    ensures r.Ok? ==> var o := OutcomeOf(On(cur, e.name), Tracked(ours, e.name), e, tag);
                      o.Some? && Settle(cur, e.name, keep, tag, o.value) == Some(out)
    decreases e
  {
    hide Kept, RestoreInto, Cleared;
    var (item, snap) := (On(cur, e.name), Tracked(ours, e.name));
    ListedBelow(ours, e.name);
    var plan := PlanDir(item, snap, e);
    match plan {
      case Nowhere =>
        PlaceGone(cur, e.name);
        return cur, Ok(());
      case Here(onto, sub) =>
        var base := cur;
        if item.Some? && !item.value.Directory? {
          base := Place(cur, e.name, None);
          KeptPlace(before, ours, cur, e.name, None);
        }
        if sub.Some? && TreeObj(sub.value) !in st {
          return base, Err(Missing(TreeObj(sub.value)));
        }
        var bad := Unreachable(st, e.subtree, depth + 1);
        if bad.Some? {
          return base, Err(bad.value);
        }
        var x, ok := RestoreDir(st, onto, e.subtree, sub, tag, depth + 1);
        out := Place(base, e.name, Some(Directory(x)));
        KeptPlace(before, ours, base, e.name, Some(Directory(x)));
        PlaceTwice(cur, e.name, None, Some(Directory(x)));
        return out, ok;
      case Beside =>
        PlaceSame(cur, e.name);
        var c := LocalConflictName(e.name, tag, keep + cur.items.Keys);
        if c.None? {
          return cur, Err(NoFreeName);
        }
        var bad := Unreachable(st, e.subtree, depth + 1);
        if bad.Some? {
          return cur, Err(bad.value);
        }
        var x, ok := RestoreDir(st, EMPTY, e.subtree, None, tag, depth + 1);
        out := Place(cur, c.value, Some(Directory(x)));
        KeptCopy(before, ours, cur, c.value, Directory(x));
        return out, ok;
    }
  }

  /** A finished entry leaves the target's other names alone. */
  lemma SettleOthers(d: Disk, name: string, keep: set<string>, tag: string, o: Outcome)
    requires Settle(d, name, keep, tag, o).Some?
    ensures OthersSame(keep, name, d, Settle(d, name, keep, tag, o).value)
  {
    hide Materializable;
  }

  /** The target's names still ahead are as the folder had them. */
  ghost predicate Ahead(before: Disk, cur: Disk, t: TreeId, i: nat)
    requires i <= |t.entries|
  {
    forall j :: i <= j < |t.entries| && Materializable(t.entries[j].name) ==>
      On(cur, t.entries[j].name) == On(before, t.entries[j].name)
  }

  lemma AheadStart(before: Disk, t: TreeId, ours: Option<TreeId>)
    ensures Ahead(before, Pruned(NoTemps(before), NamesOf(t), ours), t, 0)
  {
    hide AfterRemove, SafeName, Len;
    var cur := Pruned(NoTemps(before), NamesOf(t), ours);
    forall j | 0 <= j < |t.entries| && Materializable(t.entries[j].name)
      ensures On(cur, t.entries[j].name) == On(before, t.entries[j].name)
    {
      assert t.entries[j] in t.entries;
      assert t.entries[j].name in NamesOf(t);
    }
  }

  lemma AheadNext(before: Disk, cur: Disk, out: Disk, t: TreeId, i: nat)
    requires Listed(t) && i < |t.entries| && Ahead(before, cur, t, i) &&
            OthersSame(NamesOf(t), t.entries[i].name, cur, out)
    ensures Ahead(before, out, t, i + 1)
  {
    hide Materializable;
    forall j | i + 1 <= j < |t.entries| && Materializable(t.entries[j].name)
      ensures On(out, t.entries[j].name) == On(before, t.entries[j].name)
    {
      assert t.entries[j] in t.entries;
      assert t.entries[j].name in NamesOf(t);
    }
  }

  /** The deletion pass of `restore_dir`, in whatever order the directory lists its names. */
  method PruneNames(st: set<Id>, before: Disk, keep: set<string>, ours: Option<TreeId>, depth: nat)
    returns (out: Disk, r: Result<(), RestoreError>)
    requires ListedOpt(ours)
    ensures Kept(before, ours, out)
    ensures r.Ok? ==> out == Pruned(NoTemps(before), keep, ours)
  {
    hide Kept, Cleared, AfterRemove, SafeName;
    var base := NoTemps(before);
    var cur := base;
    var todo := base.items.Keys;
    while todo != {}
      invariant todo <= base.items.Keys && PrunedTo(base, keep, ours, todo, cur)
      decreases todo
    {
      var n :| n in todo;
      PrunedKept(before, keep, ours, todo, cur);
      var (item, snap) := (base.items[n], Tracked(ours, n));
      assert On(cur, n) == Some(item);
      if n in keep || !SafeName(n) || IsTemp(n) || snap.None? {
        if snap.None? { Untracked(base, n); }
        PlaceSame(cur, n);
        PrunedNext(base, keep, ours, todo, cur, n, Some(item));
      } else if snap.value.File? {
        RemoveMeans(item, snap);
        PlaceSame(cur, n);
        var left := if Unchanged(item, snap) then None else Some(item);
        PrunedNext(base, keep, ours, todo, cur, n, left);
        cur := Place(cur, n, left);
      } else if item.Directory? {
        var sub := snap.value.subtree;
        ListedBelow(ours, n);
        if TreeObj(sub) !in st {
          return cur, Err(Missing(TreeObj(sub)));
        }
        var kept, ok := RemoveTracked(st, item.disk, sub, depth + 1);
        var left := if kept.Some? then Some(Directory(kept.value)) else None;
        if ok.Err? {
          KeptPlace(before, ours, cur, n, left);
          return Place(cur, n, left), ok;
        }
        RemoveMeans(item, snap);
        PrunedNext(base, keep, ours, todo, cur, n, left);
        cur := Place(cur, n, left);
      } else {
        RemoveMeans(item, snap);
        PlaceSame(cur, n);
        PrunedNext(base, keep, ours, todo, cur, n, Some(item));
      }
      todo := todo - {n};
    }
    PrunedKept(before, keep, ours, {}, cur);
    PrunedAll(base, keep, ours, cur);
    return cur, Ok(());
  }

  /**
   `restore_dir` against our snapshot: every exit keeps what must be kept, and a finished run leaves
   exactly what `RestoreInto` says.
   */
  method RestoreDir(st: set<Id>, before: Disk, t: TreeId, ours: Option<TreeId>, tag: string, depth: nat)
    returns (out: Disk, r: Result<(), RestoreError>)
    requires Listed(t) && ListedOpt(ours)
    ensures Kept(before, ours, out)
    ensures r.Ok? ==> RestoreInto(before, t, ours, tag) == Some(out)
    decreases t
  {
    hide Kept, Pruned, Materializable, Settle, OutcomeOf;
    KeptSame(before, ours);
    var bad := Unreachable(st, t, depth);
    if bad.Some? {
      return before, Err(bad.value);
    }
    var keep := NamesOf(t);
    var cur, pruned := PruneNames(st, before, keep, ours, depth);
    if pruned.Err? {
      return cur, pruned;
    }
    ghost var start := cur;
    AheadStart(before, t, ours);
    var i := 0;
    while i < |t.entries|
      invariant 0 <= i <= |t.entries| && Kept(before, ours, cur) && Ahead(before, cur, t, i)
      invariant RestoreFirst(start, t, i, ours, tag) == Some(cur)
    {
      var e := t.entries[i];
      assert e in t.entries && e.name in keep;
      if Materializable(e.name) {
        ghost var was := cur;
        var ok;
        if e.File? {
          cur, ok := RestoreFile(st, before, cur, e, keep, ours, tag, depth);
          FileOutcomeOf(On(was, e.name), Tracked(ours, e.name), e, tag);
        } else {
          cur, ok := RestoreFolder(st, before, cur, e, keep, ours, tag, depth);
        }
        if ok.Err? {
          return cur, ok;
        }
        SettleOthers(was, e.name, keep, tag, OutcomeOf(On(was, e.name), Tracked(ours, e.name), e, tag).value);
        AheadNext(before, was, cur, t, i);
      }
      i := i + 1;
    }
    return cur, Ok(());
  }

  lemma FileOutcomeOf(item: Option<Item>, snap: Option<Entry>, e: Entry, tag: string)
    requires e.File?
    ensures OutcomeOf(item, snap, e, tag) == Some(FileOutcome(item, snap, e))
  {
  }
}
