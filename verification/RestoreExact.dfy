/**
 What a finished restore of any disk leaves, path by path: which files go, which stay with a new
 modification time, which arrive in place, and that every file has a source.
 */
module RestoreExact {
  import opened Prelude
  import opened Objects
  import opened Names
  import opened Restore
  import opened Reconcile
  import opened RestoreLaws
  import Diff

  // ---- names the target lacks ----

  /** A keep-both copy of some entry of the target may stand under `m`. */
  ghost predicate CopyName(t: TreeId, tag: string, m: string) {
    exists n :: n in NamesOf(t) && IsLabelled(n, tag, m)
  }

  /** Under a name the target lacks, one entry changes nothing or puts its copy where nothing stood. */
  lemma OneOutside(d: Disk, t: TreeId, i: nat, ours: Option<TreeId>, tag: string, m: string)
    requires i < |t.entries| && RestoreOne(d, t, i, ours, tag).Some? && m !in NamesOf(t)
    ensures On(RestoreOne(d, t, i, ours, tag).value, m) == On(d, m) || (On(d, m).None? && CopyName(t, tag, m))
  {
    hide OutcomeOf, Materializable, IsLabelled, Labelled;
    var e := t.entries[i];
    NameListed(t, i);
    if Materializable(e.name) {
      var o := OutcomeOf(On(d, e.name), Tracked(ours, e.name), e, tag).value;
      if o.copy.Some? {
        var here := Place(d, e.name, o.stay);
        LocalIsLabelled(e.name, tag, NamesOf(t) + here.items.Keys);
      }
    }
  }

  lemma {:induction false} FirstOutside(d: Disk, t: TreeId, i: nat, ours: Option<TreeId>, tag: string, m: string)
    requires i <= |t.entries| && RestoreFirst(d, t, i, ours, tag).Some? && m !in NamesOf(t)
    ensures On(RestoreFirst(d, t, i, ours, tag).value, m) == On(d, m) || (On(d, m).None? && CopyName(t, tag, m))
    decreases i
  {
    hide RestoreOne, CopyName;
    if i > 0 {
      FirstOutside(d, t, i - 1, ours, tag, m);
      OneOutside(RestoreFirst(d, t, i - 1, ours, tag).value, t, i - 1, ours, tag, m);
    }
  }

  /** A name the target lacks is left to the deletion pass, unless a copy comes to stand there. */
  lemma OutsideSettled(before: Disk, t: TreeId, ours: Option<TreeId>, tag: string, m: string)
    requires RestoreInto(before, t, ours, tag).Some? && m !in NamesOf(t) && Materializable(m)
    ensures var item := if m in before.items then AfterRemove(before.items[m], Tracked(ours, m)) else None;
            On(RestoreInto(before, t, ours, tag).value, m) == item || CopyName(t, tag, m)
  {
    FirstOutside(Pruned(NoTemps(before), NamesOf(t), ours), t, |t.entries|, ours, tag, m);
    hide RestoreFirst, AfterRemove, CopyName;
  }

  // ---- deletions ----

  lemma NamedAt(t: TreeId, n: string) returns (i: nat)
    requires Listed(t) && n in NamesOf(t)
    ensures i < |t.entries| && t.entries[i].name == n && Tracked(Some(t), n) == Some(t.entries[i])
  {
    var e :| e in t.entries && e.name == n;
    i :| 0 <= i < |t.entries| && t.entries[i] == e;
    FindAt(t.entries, i);
  }

  lemma ClearedAt(d: Disk, snap: TreeId, n: string)
    requires n in d.items
    ensures var left := On(OrEmpty(Cleared(d, snap)), n);
            left.None? || left == AfterRemove(d.items[n], Diff.Find(snap.entries, n))
  {
    hide AfterRemove;
  }

  /** The disk has a file at `p`, of the length and modification time our snapshot recorded there. */
  ghost predicate AsRecorded(d: Disk, ours: Option<TreeId>, p: Path) {
    match ItemAt(d, p)
    case Some(Regular(mtime, data)) => Recorded(ours, p, |data|, mtime)
    case _ => false
  }

  /** Below its first component such a path runs through a directory that our snapshot has too. */
  lemma RecordedBelow(d: Disk, ours: Option<TreeId>, p: Path)
    requires AsRecorded(d, ours, p) && |p| > 1
    ensures p[0] in d.items && d.items[p[0]].Directory? && SubTree(Tracked(ours, p[0])).Some?
    ensures AsRecorded(d.items[p[0]].disk, SubTree(Tracked(ours, p[0])), p[1..])
  {
    NothingInEmpty(p[1..]);
    NothingAtNone(p[1..]);
  }

  /** Clearing a folder takes away every file still as recorded. */
  lemma {:induction false} ClearsRecorded(d: Disk, snap: TreeId, p: Path)
    requires AsRecorded(d, Some(snap), p)
    ensures ItemAt(OrEmpty(Cleared(d, snap)), p).None?
    decreases |p|
  {
    var n := p[0];
    if |p| > 1 {
      RecordedBelow(d, Some(snap), p);
      ClearedAt(d, snap, n);
      NothingInEmpty(p[1..]);
      var sub := SubTree(Tracked(Some(snap), n)).value;
      ClearsRecorded(d.items[n].disk, sub, p[1..]);
      RemoveMeans(d.items[n], Tracked(Some(snap), n));
      hide Cleared, AfterRemove;
    } else {
      ClearedAt(d, snap, n);
      RemoveMeans(d.items[n], Tracked(Some(snap), n));
      hide Cleared, AfterRemove;
    }
  }

  /** The deletion pass on the first component takes the file away. */
  lemma RemovesRecorded(d: Disk, ours: Option<TreeId>, p: Path)
    requires AsRecorded(d, ours, p)
    ensures p[0] in d.items
    ensures var left := AfterRemove(d.items[p[0]], Tracked(ours, p[0]));
            if |p| == 1 then left.None? else ItemAt(Inside(left), p[1..]).None?
  {
    if |p| > 1 {
      RecordedBelow(d, ours, p);
      ClearsRecorded(d.items[p[0]].disk, SubTree(Tracked(ours, p[0])).value, p[1..]);
      NothingInEmpty(p[1..]);
    }
    RemoveMeans(d.items[p[0]], Tracked(ours, p[0]));
    hide Cleared, AfterRemove;
  }

  /** Where the target has the first component, as a file or as a folder. */
  lemma GoneBelow(before: Disk, t: TreeId, ours: Option<TreeId>, tag: string, p: Path, i: nat)
    requires Listed(t) && ListedOpt(ours) && RestoreInto(before, t, ours, tag).Some? && AllCreatable(p)
    requires AsRecorded(before, ours, p) && EntryAt(Some(t), p).None? && |p| > 1
    requires i < |t.entries| && t.entries[i].name == p[0] && Tracked(Some(t), p[0]) == Some(t.entries[i])
    ensures ItemAt(RestoreInto(before, t, ours, tag).value, p).None? || CopyOn(t, tag, p)
    decreases |p|, 0
  {
    var (n, rest, e) := (p[0], p[1..], t.entries[i]);
    var out := RestoreInto(before, t, ours, tag).value;
    assert Materializable(n) && e in t.entries;
    var o, c := EntrySettled(before, t, ours, tag, i);
    RecordedBelow(before, ours, p);
    var (item, sub) := (before.items[n], SubTree(Tracked(ours, n)).value);
    NothingInEmpty(rest);
    ListedBelow(ours, n);
    if e.File? {
      ClearsRecorded(item.disk, sub, rest);
      hide RestoreInto, Cleared, Materializable;
    } else {
      FolderOutcome(Some(item), Tracked(ours, n), e, tag, o);
      hide RestoreInto, OutcomeOf, Materializable;
      assert AllCreatable(rest);
      RecordedGone(item.disk, e.subtree, Some(sub), tag, rest);
    }
  }

  /** A keep-both copy may stand under some component of `p`. */
  ghost predicate CopyOn(t: TreeId, tag: string, p: Path)
    decreases |p|
  {
    p != [] &&
    (CopyName(t, tag, p[0]) ||
     (|p| > 1 && SubTree(Tracked(Some(t), p[0])).Some? &&
      CopyOn(SubTree(Tracked(Some(t), p[0])).value, tag, p[1..])))
  }

  /** A file still as recorded, at a path the target lacks, is gone after the restore. */
  lemma {:induction false} RecordedGone(before: Disk, t: TreeId, ours: Option<TreeId>, tag: string, p: Path)
    requires Listed(t) && ListedOpt(ours) && RestoreInto(before, t, ours, tag).Some? && AllCreatable(p)
    requires AsRecorded(before, ours, p) && EntryAt(Some(t), p).None?
    ensures ItemAt(RestoreInto(before, t, ours, tag).value, p).None? || CopyOn(t, tag, p)
    decreases |p|
  {
    hide RestoreInto, Materializable, CopyName, Listed, AfterRemove, Cleared;
    var (n, out) := (p[0], RestoreInto(before, t, ours, tag).value);
    assert Materializable(n);
    if |p| > 1 { NothingInEmpty(p[1..]); }
    if n in NamesOf(t) {
      var i := NamedAt(t, n);
      assert |p| > 1;
      GoneBelow(before, t, ours, tag, p, i);
    } else {
      OutsideSettled(before, t, ours, tag, n);
      RemovesRecorded(before, ours, p);
    }
  }

  /** The folder holds nothing but files as recorded, restore's own temps, a folder icon and folders like it. */
  ghost predicate Disposable(d: Disk, snap: TreeId) {
    forall n :: n in d.items ==>
      match d.items[n]
      case Regular(mtime, data) =>
        ".secsec-tmp-" <= n || n == "Icon\r" || Recorded(Some(snap), [n], |data|, mtime)
      case Directory(sub) =>
        SubTree(Tracked(Some(snap), n)).Some? && Disposable(sub, SubTree(Tracked(Some(snap), n)).value)
      case Special => false
  }

  /** What stands under a name once tracked entries and temps are gone. */
  lemma SweptAt(d: Disk, snap: TreeId, n: string)
    ensures n in NoTemps(Swept(d, snap)).items <==>
            && n in d.items && AfterRemove(d.items[n], Diff.Find(snap.entries, n)).Some?
            && !(d.items[n].Regular? && ".secsec-tmp-" <= n)
    ensures n in NoTemps(Swept(d, snap)).items ==>
              NoTemps(Swept(d, snap)).items[n].Regular? == d.items[n].Regular?
  {
    hide AfterRemove;
    if n in d.items && AfterRemove(d.items[n], Diff.Find(snap.entries, n)).Some? {
      Restore.SameKind(d.items[n], Diff.Find(snap.entries, n));
    }
  }

  /** One entry of a folder: removed, dropped as a temp, or perhaps the icon. */
  ghost predicate GoesAway(d: Disk, snap: TreeId, n: string)
    requires n in d.items
  {
    n !in NoTemps(Swept(d, snap)).items || (n == "Icon\r" && d.items[n].Regular?)
  }

  /** A tracked folder is removed whole if and only if it is disposable. */
  lemma {:induction false} ClearedExact(d: Disk, snap: TreeId)
    ensures Cleared(d, snap).None? <==> Disposable(d, snap)
    decreases d
  {
    forall n | n in d.items
      ensures GoesAway(d, snap, n) <==>
              match d.items[n]
              case Regular(mtime, data) =>
                ".secsec-tmp-" <= n || n == "Icon\r" || Recorded(Some(snap), [n], |data|, mtime)
              case Directory(sub) =>
                SubTree(Tracked(Some(snap), n)).Some? && Disposable(sub, SubTree(Tracked(Some(snap), n)).value)
              case Special => false
    {
      SweptAt(d, snap, n);
      var e := Diff.Find(snap.entries, n);
      if e.Some? {
        RemoveMeans(d.items[n], e);
        if e.value.Dir? && d.items[n].Directory? { ClearedExact(d.items[n].disk, e.value.subtree); }
      } else {
        Untracked(d, n);
      }
      hide AfterRemove, Cleared, Swept, NoTemps;
    }
    GoneWhole(d, snap);
    hide Cleared, GoesAway, Recorded;
  }

  lemma GoneWhole(d: Disk, snap: TreeId)
    ensures Cleared(d, snap).None? <==> forall n :: n in d.items ==> GoesAway(d, snap, n)
  {
    var left := NoTemps(Swept(d, snap));
    forall n ensures n in left.items ==> n in d.items { SweptAt(d, snap, n); }
    if Cleared(d, snap).None? {
      assert left.items.Keys <= {"Icon\r"};
      forall n | n in d.items ensures GoesAway(d, snap, n) { SweptAt(d, snap, n); }
    }
    if forall n :: n in d.items ==> GoesAway(d, snap, n) {
      forall n | n in left.items ensures n == "Icon\r" && left.items[n].Regular? { SweptAt(d, snap, n); }
      if "Icon\r" in left.items {
        assert left.items.Keys == {"Icon\r"};
      } else {
        assert left.items.Keys == {};
        assert left == EMPTY;
      }
    }
  }

  /** A finished restore leaves no temp of its own in the folder. */
  lemma {:induction false} TempsGone(d: Disk, t: TreeId, i: nat, ours: Option<TreeId>, tag: string, n: string)
    requires i <= |t.entries| && RestoreFirst(Pruned(NoTemps(d), NamesOf(t), ours), t, i, ours, tag).Some?
    requires ".secsec-tmp-" <= n
    ensures var left := On(RestoreFirst(Pruned(NoTemps(d), NamesOf(t), ours), t, i, ours, tag).value, n);
            left.Some? ==> !left.value.Regular?
    decreases i
  {
    hide Pruned, NoTemps, RestoreOne, Materializable, IsTemp;
    if i == 0 {
      TempsPruned(d, NamesOf(t), ours, n);
    } else {
      TempsGone(d, t, i - 1, ours, tag, n);
      var cur := RestoreFirst(Pruned(NoTemps(d), NamesOf(t), ours), t, i - 1, ours, tag).value;
      TempUncreatable(n);
      OneCreatable(cur, t, i - 1, ours, tag, n);
    }
  }

  lemma TempsPruned(d: Disk, keep: set<string>, ours: Option<TreeId>, n: string)
    requires ".secsec-tmp-" <= n
    ensures var left := On(Pruned(NoTemps(d), keep, ours), n); left.Some? ==> !left.value.Regular?
  {
    hide AfterRemove, SafeName;
  }

  lemma TempUncreatable(n: string)
    requires ".secsec-tmp-" <= n
    ensures !Materializable(n)
  {
    hide SafeName, Len;
  }

  /** An entry writes under creatable names only. */
  lemma OneCreatable(d: Disk, t: TreeId, i: nat, ours: Option<TreeId>, tag: string, n: string)
    requires i < |t.entries| && RestoreOne(d, t, i, ours, tag).Some? && !Materializable(n)
    ensures On(RestoreOne(d, t, i, ours, tag).value, n) == On(d, n)
  {
    hide OutcomeOf, Materializable;
  }

  // ---- content the target leaves unchanged ----

  /**
   A file whose content is unchanged upstream keeps the bytes on disk; only one still as recorded
   takes the target's modification time.
   */
  lemma {:induction false} UnchangedStays(before: Disk, t: TreeId, ours: Option<TreeId>, tag: string, p: Path)
    requires Listed(t) && ListedOpt(ours) && RestoreInto(before, t, ours, tag).Some? && AllCreatable(p)
    requires SameChunks(ours, t, p) && ItemAt(before, p).Some? && ItemAt(before, p).value.Regular?
    ensures var was := ItemAt(before, p).value;
            var mtime := if AsRecorded(before, ours, p) then EntryAt(Some(t), p).value.mtime else was.mtime;
            ItemAt(RestoreInto(before, t, ours, tag).value, p) == Some(Regular(mtime, was.data))
    decreases |p|
  {
    var (n, out) := (p[0], RestoreInto(before, t, ours, tag).value);
    if |p| > 1 {
      NothingAtNone(p[1..]);
      NothingInEmpty(p[1..]);
    }
    var i := EntryIndex(t, n);
    var e := t.entries[i];
    assert Materializable(n) && e in t.entries;
    var o, c := EntrySettled(before, t, ours, tag, i);
    if |p| == 1 {
      hide RestoreInto, Materializable;
    } else {
      FolderOutcome(On(before, n), Tracked(ours, n), e, tag, o);
      ListedBelow(ours, n);
      hide RestoreInto, OutcomeOf, Materializable;
      assert AllCreatable(p[1..]);
      UnchangedStays(before.items[n].disk, e.subtree, SubTree(Tracked(ours, n)), tag, p[1..]);
    }
  }

  /** Our snapshot and the target have the same folder at `p`. */
  ghost predicate SameFolder(ours: Option<TreeId>, t: TreeId, p: Path) {
    match (EntryAt(ours, p), EntryAt(Some(t), p))
    case (Some(s), Some(e)) => s.Dir? && e.Dir? && s.subtree == e.subtree
    case _ => false
  }

  /** A folder deleted locally and unchanged upstream stays deleted. */
  lemma {:induction false} FolderStaysGone(before: Disk, t: TreeId, ours: Option<TreeId>, tag: string, p: Path)
    requires Listed(t) && ListedOpt(ours) && RestoreInto(before, t, ours, tag).Some? && AllCreatable(p)
    requires SameFolder(ours, t, p) && ItemAt(before, p).None?
    ensures ItemAt(RestoreInto(before, t, ours, tag).value, p).None?
    decreases |p|
  {
    var n := p[0];
    if |p| > 1 {
      NothingAtNone(p[1..]);
      NothingInEmpty(p[1..]);
    }
    var i := EntryIndex(t, n);
    var e := t.entries[i];
    assert Materializable(n) && e in t.entries;
    var o, c := EntrySettled(before, t, ours, tag, i);
    if |p| == 1 {
      hide RestoreInto, Materializable;
    } else {
      var (item, snap) := (On(before, n), Tracked(ours, n));
      FolderOutcome(item, snap, e, tag, o);
      ListedBelow(ours, n);
      assert AllCreatable(p[1..]);
      var plan := PlanDir(item, snap, e);
      if plan.Here? {
        PlanOnto(item, snap, e);
        hide RestoreInto, OutcomeOf, Materializable, PlanDir;
        FolderStaysGone(plan.onto, e.subtree, plan.ours, tag, p[1..]);
      } else {
        StaysOut(item, snap, e, tag, o);
      }
    }
  }

  // ---- new content arrives in place ----

  /** Nothing on the way to `p`, nor at `p` itself, is a local file other than as recorded, nor a folder at `p`. */
  ghost predicate Open(before: Disk, ours: Option<TreeId>, p: Path)
    decreases |p|
  {
    p != [] &&
    match On(before, p[0])
    case None => true
    case Some(Special) => true
    case Some(Regular(mtime, data)) => Recorded(ours, [p[0]], |data|, mtime)
    case Some(Directory(d)) => |p| > 1 && Open(d, SubTree(Tracked(ours, p[0])), p[1..])
  }

  lemma {:induction false} OpenBelow(before: Disk, t: TreeId, ours: Option<TreeId>, p: Path, e: Entry)
    requires |p| > 1 && Open(before, ours, p) && Tracked(Some(t), p[0]) == Some(e) && e.Dir?
    requires EntryAt(Some(t), p).Some? && EntryAt(Some(t), p).value.File? && !SameChunks(ours, t, p)
    ensures var plan := PlanDir(On(before, p[0]), Tracked(ours, p[0]), e);
            plan.Here? && plan.ours == SubTree(Tracked(ours, p[0])) && Open(plan.onto, plan.ours, p[1..])
  {
  }

  /** Where no local work is in the way, a file with new content is written at its own path. */
  lemma {:induction false} ArrivesInPlace(before: Disk, t: TreeId, ours: Option<TreeId>, tag: string, p: Path)
    requires Listed(t) && ListedOpt(ours) && RestoreInto(before, t, ours, tag).Some? && AllCreatable(p)
    requires EntryAt(Some(t), p).Some? && EntryAt(Some(t), p).value.File? && !SameChunks(ours, t, p)
    requires Open(before, ours, p)
    ensures var e := EntryAt(Some(t), p).value;
            ItemAt(RestoreInto(before, t, ours, tag).value, p) == Some(Regular(e.mtime, Data(e.chunks)))
    decreases |p|
  {
    var (n, out) := (p[0], RestoreInto(before, t, ours, tag).value);
    if |p| > 1 { NothingAtNone(p[1..]); }
    var i := EntryIndex(t, n);
    var e := t.entries[i];
    assert Materializable(n) && e in t.entries;
    var o, c := EntrySettled(before, t, ours, tag, i);
    if |p| == 1 {
      hide RestoreInto, Materializable;
    } else {
      var (item, snap) := (On(before, n), Tracked(ours, n));
      FolderOutcome(item, snap, e, tag, o);
      ListedBelow(ours, n);
      assert AllCreatable(p[1..]);
      hide RestoreInto, OutcomeOf, Materializable, Listed;
      OpenBelow(before, t, ours, p, e);
      var plan := PlanDir(item, snap, e);
      hide PlanDir, Open;
      ArrivesInPlace(plan.onto, e.subtree, plan.ours, tag, p[1..]);
    }
  }

  // ---- every file has a source ----

  /** Clearing a folder changes no file that it leaves. */
  lemma {:induction false} ClearedSub(d: Disk, snap: TreeId, p: Path)
    requires var left := ItemAt(OrEmpty(Cleared(d, snap)), p); left.Some? && left.value.Regular?
    ensures ItemAt(d, p) == ItemAt(OrEmpty(Cleared(d, snap)), p)
    decreases |p|, 0
  {
    var n := p[0];
    if |p| > 1 { NothingInEmpty(p[1..]); }
    ClearedNames(d, snap, n);
    ClearedAt(d, snap, n);
    RemovedSub(d.items[n], Diff.Find(snap.entries, n), p[1..]);
  }

  lemma ClearedNames(d: Disk, snap: TreeId, n: string)
    requires n in OrEmpty(Cleared(d, snap)).items
    ensures n in d.items
  {
    hide AfterRemove;
  }

  lemma RemovedSub(item: Item, e: Option<Entry>, rest: Path)
    requires AfterRemove(item, e).Some?
    ensures rest == [] && AfterRemove(item, e).value.Regular? ==> AfterRemove(item, e) == Some(item)
    ensures var left := ItemAt(Inside(AfterRemove(item, e)), rest);
            left.Some? && left.value.Regular? ==> ItemAt(Inside(Some(item)), rest) == left
    decreases |rest|, 1
  {
    Restore.SameKind(item, e);
    var left := ItemAt(Inside(AfterRemove(item, e)), rest);
    if left.Some? && left.value.Regular? && e.Some? {
      NothingInEmpty(rest);
      RemoveMeans(item, e);
      if e.value.Dir? && item.Directory? { ClearedSub(item.disk, e.value.subtree, rest); }
      hide Cleared, AfterRemove;
    }
  }

  /** A name the target has but cannot create is left alone. */
  lemma {:induction false} SkippedSame(d: Disk, t: TreeId, i: nat, ours: Option<TreeId>, tag: string, n: string)
    requires i <= |t.entries| && RestoreFirst(d, t, i, ours, tag).Some? && n in NamesOf(t) && !Materializable(n)
    ensures On(RestoreFirst(d, t, i, ours, tag).value, n) == On(d, n)
    decreases i
  {
    hide OutcomeOf, Settle, Materializable;
    if i > 0 {
      SkippedSame(d, t, i - 1, ours, tag, n);
      if t.entries[i - 1].name != n {
        OneEffect(RestoreFirst(d, t, i - 1, ours, tag).value, t, i - 1, ours, tag, n);
      }
    }
  }

  /** Entry `i` put its copy under `m`. */
  ghost predicate CopyFrom(before: Disk, t: TreeId, ours: Option<TreeId>, tag: string, i: nat, m: string,
                           item: Option<Item>)
  {
    && i < |t.entries| && Materializable(t.entries[i].name) && IsLabelled(t.entries[i].name, tag, m)
    && var e := t.entries[i];
       var o := OutcomeOf(On(before, e.name), Tracked(ours, e.name), e, tag);
       o.Some? && o.value.copy.Some? && o.value.copy == item
  }

  lemma {:induction false} OutsideSource(before: Disk, t: TreeId, i: nat, ours: Option<TreeId>, tag: string, m: string)
    requires i <= |t.entries| && Listed(t) && m !in NamesOf(t)
    requires RestoreFirst(Pruned(NoTemps(before), NamesOf(t), ours), t, i, ours, tag).Some?
    ensures var start := Pruned(NoTemps(before), NamesOf(t), ours);
            var left := On(RestoreFirst(start, t, i, ours, tag).value, m);
            left == On(start, m) || exists j: nat :: CopyFrom(before, t, ours, tag, j, m, left)
    decreases i
  {
    hide RestoreOne, OutcomeOf, Settle, Pruned, NoTemps, Materializable, IsLabelled, Listed;
    var start := Pruned(NoTemps(before), NamesOf(t), ours);
    if i > 0 {
      OutsideSource(before, t, i - 1, ours, tag, m);
      var cur := RestoreFirst(start, t, i - 1, ours, tag).value;
      AheadSame(start, t, i - 1, ours, tag, i - 1);
      AheadStart(before, t, ours);
      OneSource(before, cur, t, i - 1, ours, tag, m);
    }
  }

  lemma OneSource(before: Disk, cur: Disk, t: TreeId, i: nat, ours: Option<TreeId>, tag: string, m: string)
    requires i < |t.entries| && RestoreOne(cur, t, i, ours, tag).Some? && m !in NamesOf(t)
    requires Materializable(t.entries[i].name) ==> On(cur, t.entries[i].name) == On(before, t.entries[i].name)
    ensures var left := On(RestoreOne(cur, t, i, ours, tag).value, m);
            left == On(cur, m) || CopyFrom(before, t, ours, tag, i, m, left)
  {
    hide OutcomeOf, Materializable, IsLabelled, Labelled;
    var e := t.entries[i];
    NameListed(t, i);
    if Materializable(e.name) {
      var o := OutcomeOf(On(cur, e.name), Tracked(ours, e.name), e, tag).value;
      if o.copy.Some? {
        var here := Place(cur, e.name, o.stay);
        LocalIsLabelled(e.name, tag, NamesOf(t) + here.items.Keys);
      }
    }
  }

  /** The target's file at `p` holds exactly this. */
  ghost predicate TargetHas(t: TreeId, p: Path, mtime: nat, data: seq<Byte>) {
    match EntryAt(Some(t), p)
    case Some(e) => e.File? && e.mtime == mtime && Data(e.chunks) == data
    case None => false
  }

  /** Into an empty, untracked folder nothing comes but the target's files at their paths. */
  lemma {:induction false} FreshSource(t: TreeId, tag: string, q: Path)
    requires Listed(t) && RestoreInto(EMPTY, t, None, tag).Some?
    requires var left := ItemAt(RestoreInto(EMPTY, t, None, tag).value, q); left.Some? && left.value.Regular?
    ensures var left := ItemAt(RestoreInto(EMPTY, t, None, tag).value, q).value;
            TargetHas(t, q, left.mtime, left.data)
    decreases |q|
  {
    var (n, start) := (q[0], Pruned(NoTemps(EMPTY), NamesOf(t), None));
    if |q| > 1 { NothingInEmpty(q[1..]); }
    assert On(start, n).None?;
    if n !in NamesOf(t) {
      OutsideSource(EMPTY, t, |t.entries|, None, tag, n);
      hide RestoreFirst, Materializable, IsLabelled;
    } else if !Materializable(n) {
      SkippedSame(start, t, |t.entries|, None, tag, n);
    } else {
      var i := NamedAt(t, n);
      var e := t.entries[i];
      assert e in t.entries;
      var o, c := EntrySettled(EMPTY, t, None, tag, i);
      hide RestoreFirst, Materializable;
      if |q| > 1 {
        FolderOutcome(None, None, e, tag, o);
        hide RestoreInto;
        FreshSource(e.subtree, tag, q[1..]);
      }
    }
  }

  /**
   Nothing is made up: each file after a restore has the bytes that stood at its path before, or is a
   file of the target, at its own path or with one component labelled as a keep-both copy.
   */
  lemma {:induction false} EveryFileHasSource(before: Disk, t: TreeId, ours: Option<TreeId>, tag: string, q: Path)
    returns (p: Path)
    requires Listed(t) && ListedOpt(ours) && RestoreInto(before, t, ours, tag).Some?
    requires var left := ItemAt(RestoreInto(before, t, ours, tag).value, q); left.Some? && left.value.Regular?
    ensures var left := ItemAt(RestoreInto(before, t, ours, tag).value, q).value;
            || (exists mtime :: ItemAt(before, q) == Some(Regular(mtime, left.data)))
            || ((p == q || Beside1(tag, p, q)) && TargetHas(t, p, left.mtime, left.data))
    decreases |q|, 2
  {
    p := q;
    var n := q[0];
    if |q| > 1 { NothingInEmpty(q[1..]); }
    if n !in NamesOf(t) {
      p := SourceOutside(before, t, ours, tag, q);
    } else if !Materializable(n) {
      SkippedSame(Pruned(NoTemps(before), NamesOf(t), ours), t, |t.entries|, ours, tag, n);
      hide RestoreFirst, Materializable;
    } else {
      var i := NamedAt(t, n);
      p := SourceOfEntry(before, t, ours, tag, q, i);
    }
  }

  lemma SourceOutside(before: Disk, t: TreeId, ours: Option<TreeId>, tag: string, q: Path) returns (p: Path)
    requires Listed(t) && RestoreInto(before, t, ours, tag).Some? && q != [] && q[0] !in NamesOf(t)
    requires var left := ItemAt(RestoreInto(before, t, ours, tag).value, q); left.Some? && left.value.Regular?
    ensures var left := ItemAt(RestoreInto(before, t, ours, tag).value, q).value;
            || (exists mtime :: ItemAt(before, q) == Some(Regular(mtime, left.data)))
            || ((p == q || Beside1(tag, p, q)) && TargetHas(t, p, left.mtime, left.data))
  {
    p := q;
    var (n, rest) := (q[0], q[1..]);
    var left := On(RestoreInto(before, t, ours, tag).value, n);
    var start := Pruned(NoTemps(before), NamesOf(t), ours);
    if |q| > 1 { NothingInEmpty(rest); }
    OutsideSource(before, t, |t.entries|, ours, tag, n);
    if left == On(start, n) {
      hide RestoreInto, RestoreFirst, IsLabelled;
      PrunedSub(before, NamesOf(t), ours, q);
    } else {
      var j: nat :| CopyFrom(before, t, ours, tag, j, n, left);
      p := CopySource(before, t, ours, tag, j, q, left);
    }
  }

  lemma PrunedSub(before: Disk, keep: set<string>, ours: Option<TreeId>, q: Path)
    requires var left := ItemAt(Pruned(NoTemps(before), keep, ours), q); left.Some? && left.value.Regular?
    ensures ItemAt(before, q) == ItemAt(Pruned(NoTemps(before), keep, ours), q)
  {
    hide AfterRemove, SafeName, IsTemp;
    var n := q[0];
    if |q| > 1 { NothingInEmpty(q[1..]); }
    assert n in before.items;
    if PruneItem(n, before.items[n], Tracked(ours, n), keep) != Some(before.items[n]) {
      RemovedSub(before.items[n], Tracked(ours, n), q[1..]);
    }
  }

  /** What an entry puts beside local work: its file, or its folder written afresh. */
  lemma CopyOf(item: Option<Item>, snap: Option<Entry>, e: Entry, tag: string, o: Outcome)
    requires OutcomeOf(item, snap, e, tag) == Some(o) && o.copy.Some?
    ensures e.File? ==> o.copy == Some(Regular(e.mtime, Data(e.chunks)))
    ensures e.Dir? ==>
            && RestoreInto(EMPTY, e.subtree, None, tag).Some?
            && o.copy == Some(Directory(RestoreInto(EMPTY, e.subtree, None, tag).value))
  {
    hide RestoreInto, Cleared;
  }

  lemma CopySource(before: Disk, t: TreeId, ours: Option<TreeId>, tag: string, j: nat, q: Path, left: Option<Item>)
    returns (p: Path)
    requires Listed(t) && q != [] && CopyFrom(before, t, ours, tag, j, q[0], left) && left.Some?
    requires if |q| == 1 then left.value.Regular?
             else ItemAt(Inside(left), q[1..]).Some? && ItemAt(Inside(left), q[1..]).value.Regular?
    ensures var item := if |q| == 1 then left.value else ItemAt(Inside(left), q[1..]).value;
            Beside1(tag, p, q) && TargetHas(t, p, item.mtime, item.data)
  {
    var (e, rest) := (t.entries[j], q[1..]);
    p := [e.name] + rest;
    assert e in t.entries && q == [q[0]] + rest && p[1..] == rest;
    FindAt(t.entries, j);
    if |q| > 1 { NothingInEmpty(rest); }
    var o := OutcomeOf(On(before, e.name), Tracked(ours, e.name), e, tag).value;
    CopyOf(On(before, e.name), Tracked(ours, e.name), e, tag, o);
    assert IsLabelled(e.name, tag, q[0]);
    hide RestoreInto, IsLabelled, Materializable, Cleared, OutcomeOf, Beside1, Diff.Find;
    BesideHere(tag, p, q[0]);
    if |q| > 1 { FreshSource(e.subtree, tag, rest); }
  }

  lemma FileStays(item: Option<Item>, snap: Option<Entry>, e: Entry, tag: string, o: Outcome)
    requires OutcomeOf(item, snap, e, tag) == Some(o) && o.stay.Some? && o.stay.value.Regular?
    ensures var left := o.stay.value;
            || (exists mtime :: item == Some(Regular(mtime, left.data)))
            || (e.File? && left == Regular(e.mtime, Data(e.chunks)))
  {
    hide RestoreInto, Cleared;
  }

  lemma FolderStays(item: Option<Item>, snap: Option<Entry>, e: Entry, tag: string, o: Outcome, rest: Path)
    requires e.File? && OutcomeOf(item, snap, e, tag) == Some(o)
    requires ItemAt(Inside(o.stay), rest).Some? && ItemAt(Inside(o.stay), rest).value.Regular?
    ensures ItemAt(Inside(item), rest) == ItemAt(Inside(o.stay), rest)
  {
    NothingInEmpty(rest);
    hide ItemAt;
    assert item.Some? && item.value.Directory?;
    if SubTree(snap).Some? && Cleared(item.value.disk, SubTree(snap).value).Some? {
      ClearedSub(item.value.disk, SubTree(snap).value, rest);
    }
    hide Cleared;
  }

  lemma SourceOfEntry(before: Disk, t: TreeId, ours: Option<TreeId>, tag: string, q: Path, i: nat) returns (p: Path)
    requires Listed(t) && ListedOpt(ours) && RestoreInto(before, t, ours, tag).Some?
    requires var left := ItemAt(RestoreInto(before, t, ours, tag).value, q); left.Some? && left.value.Regular?
    requires i < |t.entries| && t.entries[i].name == q[0] && Tracked(Some(t), q[0]) == Some(t.entries[i])
    requires Materializable(q[0])
    ensures var left := ItemAt(RestoreInto(before, t, ours, tag).value, q).value;
            || (exists mtime :: ItemAt(before, q) == Some(Regular(mtime, left.data)))
            || ((p == q || Beside1(tag, p, q)) && TargetHas(t, p, left.mtime, left.data))
    decreases |q|, 1
  {
    p := q;
    var (n, rest, e) := (q[0], q[1..], t.entries[i]);
    assert e in t.entries && (e.Dir? ==> Listed(e.subtree));
    var o, c := EntrySettled(before, t, ours, tag, i);
    hide RestoreInto, IsLabelled, Materializable, OutcomeOf, Beside1, Listed, PlanDir;
    if |q| == 1 {
      FileStays(On(before, n), Tracked(ours, n), e, tag, o);
    } else if e.File? {
      FolderStays(On(before, n), Tracked(ours, n), e, tag, o, rest);
    } else {
      p := SourceBelow(before, t, ours, tag, q, e, o);
    }
  }

  lemma SourceBelow(before: Disk, t: TreeId, ours: Option<TreeId>, tag: string, q: Path, e: Entry, o: Outcome)
    returns (p: Path)
    requires |q| > 1 && Tracked(Some(t), q[0]) == Some(e) && e.Dir? && Listed(e.subtree) && ListedOpt(ours)
    requires OutcomeOf(On(before, q[0]), Tracked(ours, q[0]), e, tag) == Some(o)
    requires ItemAt(Inside(o.stay), q[1..]).Some? && ItemAt(Inside(o.stay), q[1..]).value.Regular?
    ensures var left := ItemAt(Inside(o.stay), q[1..]).value;
            || (exists mtime :: ItemAt(before, q) == Some(Regular(mtime, left.data)))
            || ((p == q || Beside1(tag, p, q)) && TargetHas(t, p, left.mtime, left.data))
    decreases |q|, 0
  {
    var (n, rest) := (q[0], q[1..]);
    NothingInEmpty(rest);
    var (item, snap) := (On(before, n), Tracked(ours, n));
    FolderOutcome(item, snap, e, tag, o);
    ListedBelow(ours, n);
    var plan := PlanDir(item, snap, e);
    if !plan.Here? { StaysOut(item, snap, e, tag, o); }
    PlanOnto(item, snap, e);
    hide RestoreInto, IsLabelled, Materializable, OutcomeOf, Beside1, Listed, PlanDir;
    var p' := EveryFileHasSource(plan.onto, e.subtree, plan.ours, tag, rest);
    p := [n] + p';
    assert q == [n] + rest && p[1..] == p';
    if p' != rest && Beside1(tag, p', rest) { BesideBelow(tag, n, p', rest); }
    TargetBelow(t, e, n, p');
  }

  lemma {:induction false} TargetBelow(t: TreeId, e: Entry, n: string, rest: Path)
    requires Tracked(Some(t), n) == Some(e) && e.Dir?
    ensures rest != [] ==> EntryAt(Some(t), [n] + rest) == EntryAt(Some(e.subtree), rest)
  {
    assert ([n] + rest)[1..] == rest;
  }
}
