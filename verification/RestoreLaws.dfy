/** What a restore promises path by path. */
module RestoreLaws {
  import opened Prelude
  import opened Objects
  import opened Names
  import opened Restore
  import opened Reconcile
  import Diff

  type Path = seq<string>

  function ItemAt(d: Disk, p: Path): Option<Item>
    decreases |p|
  {
    if p == [] then None
    else if |p| == 1 then On(d, p[0])
    else ItemAt(Inside(On(d, p[0])), p[1..])
  }

  /** The entry our snapshot has at a path. */
  function EntryAt(t: Option<TreeId>, p: Path): Option<Entry>
    decreases |p|
  {
    if p == [] then None
    else if |p| == 1 then Tracked(t, p[0])
    else EntryAt(SubTree(Tracked(t, p[0])), p[1..])
  }

  // ---- local files are kept ----

  /** Restore's own temp, or the icon of a folder holding nothing but unchanged tracked entries. */
  ghost predicate Exempt(before: Disk, ours: Option<TreeId>, p: Path)
    decreases |p|
  {
    p != [] &&
    if |p| == 1 then ".secsec-tmp-" <= p[0] || LoneIcon(before, ours, p[0])
    else Exempt(Inside(On(before, p[0])), SubTree(Tracked(ours, p[0])), p[1..])
  }

  /** Our snapshot has a file at `p` with this length and modification time. */
  ghost predicate Recorded(ours: Option<TreeId>, p: Path, length: nat, mtime: nat) {
    match EntryAt(ours, p)
    case Some(e) => e.File? && e.size == length && e.mtime == mtime
    case None => false
  }

  /**
   A regular file the restore must not touch: nothing is recorded at its path, or a file of another
   length or modification time.
   */
  ghost predicate MustStay(before: Disk, ours: Option<TreeId>, p: Path) {
    match ItemAt(before, p)
    case Some(Regular(mtime, data)) => !Recorded(ours, p, |data|, mtime) && !Exempt(before, ours, p)
    case _ => false
  }

  /** A regular file that is untracked or changed since the snapshot is still at its path, untouched. */
  lemma {:induction false} LocalFileKept(before: Disk, ours: Option<TreeId>, after: Disk, p: Path)
    requires Kept(before, ours, after) && MustStay(before, ours, p)
    ensures ItemAt(after, p) == ItemAt(before, p)
    decreases |p|
  {
    var n := p[0];
    if |p| > 1 {
      NothingInEmpty(p[1..]);
      assert n in before.items && before.items[n].Directory?;
      assert ItemKept(before, ours, n, On(after, n));
      LocalFileKept(before.items[n].disk, SubTree(Tracked(ours, n)), Inside(On(after, n)), p[1..]);
    } else {
      assert ItemKept(before, ours, n, On(after, n));
    }
  }

  lemma {:induction false} NothingInEmpty(p: Path)
    ensures ItemAt(EMPTY, p) == None
    decreases |p|
  {
    if |p| > 1 { NothingInEmpty(p[1..]); }
  }

  // ---- entries act on their own names ----

  lemma SettleEffect(d: Disk, name: string, keep: set<string>, tag: string, o: Outcome, m: string)
    requires Settle(d, name, keep, tag, o).Some? && name in keep && m != name
    requires m in keep || m in d.items
    ensures On(Settle(d, name, keep, tag, o).value, m) == On(d, m)
  {
    hide Materializable;
  }

  lemma SettleHere(d: Disk, name: string, keep: set<string>, tag: string, o: Outcome)
    requires Settle(d, name, keep, tag, o).Some? && name in keep
    ensures On(Settle(d, name, keep, tag, o).value, name) == o.stay
  {
    hide Materializable;
  }

  lemma NameListed(t: TreeId, i: nat)
    requires i < |t.entries|
    ensures t.entries[i].name in NamesOf(t)
  {
    assert t.entries[i] in t.entries;
  }

  /** A step leaves every other name that is the target's or on disk. */
  lemma OneEffect(d: Disk, t: TreeId, i: nat, ours: Option<TreeId>, tag: string, m: string)
    requires i < |t.entries| && RestoreOne(d, t, i, ours, tag).Some? && m != t.entries[i].name
    requires m in NamesOf(t) || m in d.items
    ensures On(RestoreOne(d, t, i, ours, tag).value, m) == On(d, m)
  {
    var e := t.entries[i];
    NameListed(t, i);
    hide Settle, OutcomeOf, Materializable;
    if Materializable(e.name) {
      SettleEffect(d, e.name, NamesOf(t), tag, OutcomeOf(On(d, e.name), Tracked(ours, e.name), e, tag).value, m);
    }
  }

  /** Entries still ahead find their names as the folder had them. */
  lemma {:induction false} AheadSame(d: Disk, t: TreeId, i: nat, ours: Option<TreeId>, tag: string, j: nat)
    requires Listed(t) && i <= j < |t.entries| && RestoreFirst(d, t, i, ours, tag).Some?
    ensures On(RestoreFirst(d, t, i, ours, tag).value, t.entries[j].name) == On(d, t.entries[j].name)
    decreases i
  {
    hide RestoreOne;
    if i > 0 {
      AheadSame(d, t, i - 1, ours, tag, j);
      NameListed(t, j);
      OneEffect(RestoreFirst(d, t, i - 1, ours, tag).value, t, i - 1, ours, tag, t.entries[j].name);
    }
  }

  /** What stands after `i` entries under a name none of the later ones carries stays. */
  lemma {:induction false} LaterSame(d: Disk, t: TreeId, i: nat, k: nat, ours: Option<TreeId>, tag: string, m: string)
    requires i <= k <= |t.entries| && RestoreFirst(d, t, k, ours, tag).Some?
    requires forall j :: i <= j < k ==> t.entries[j].name != m
    ensures RestoreFirst(d, t, i, ours, tag).Some?
    ensures m in RestoreFirst(d, t, i, ours, tag).value.items || m in NamesOf(t) ==>
            On(RestoreFirst(d, t, k, ours, tag).value, m) == On(RestoreFirst(d, t, i, ours, tag).value, m)
    decreases k - i
  {
    hide RestoreOne;
    if i < k {
      LaterSame(d, t, i, k - 1, ours, tag, m);
      var was := RestoreFirst(d, t, k - 1, ours, tag).value;
      if m in RestoreFirst(d, t, i, ours, tag).value.items || m in NamesOf(t) {
        OneEffect(was, t, k - 1, ours, tag, m);
      }
    }
  }

  /** A finished restore, seen from entry `i`: its outcome on what the folder had, and where that ended up. */
  lemma EntrySettled(before: Disk, t: TreeId, ours: Option<TreeId>, tag: string, i: nat)
    returns (o: Outcome, c: Option<string>)
    requires Listed(t) && i < |t.entries| && RestoreInto(before, t, ours, tag).Some? &&
            Materializable(t.entries[i].name)
    ensures var (e, out) := (t.entries[i], RestoreInto(before, t, ours, tag).value);
            && OutcomeOf(On(before, e.name), Tracked(ours, e.name), e, tag) == Some(o)
            && On(out, e.name) == o.stay
            && (o.copy.Some? <==> c.Some?)
            && (c.Some? ==> On(out, c.value) == o.copy && IsLabelled(e.name, tag, c.value) && c.value !in NamesOf(t))
  {
    hide RestoreFirst, RestoreInto, OutcomeOf, Settle, Pruned, Listed, Materializable, IsLabelled, NoTemps;
    var e := t.entries[i];
    var start := Pruned(NoTemps(before), NamesOf(t), ours);
    StartOf(before, t, ours, tag, i);
    NameListed(t, i);
    LaterSame(start, t, i + 1, |t.entries|, ours, tag, e.name);
    Prefixed(start, t, i, ours, tag);
    AheadSame(start, t, i, ours, tag, i);
    var cur := RestoreFirst(start, t, i, ours, tag).value;
    o := OutcomeOf(On(cur, e.name), Tracked(ours, e.name), e, tag).value;
    SettleHere(cur, e.name, NamesOf(t), tag, o);
    c := None;
    if o.copy.Some? {
      var x := CopySettled(cur, e.name, NamesOf(t), tag, o);
      NotAhead(t, x);
      LaterSame(start, t, i + 1, |t.entries|, ours, tag, x);
      c := Some(x);
    }
  }

  lemma StartOf(before: Disk, t: TreeId, ours: Option<TreeId>, tag: string, i: nat)
    requires Listed(t) && i < |t.entries| && Materializable(t.entries[i].name)
    ensures var start := Pruned(NoTemps(before), NamesOf(t), ours);
            && RestoreFirst(start, t, |t.entries|, ours, tag) == RestoreInto(before, t, ours, tag)
            && On(start, t.entries[i].name) == On(before, t.entries[i].name)
    ensures forall j :: i + 1 <= j < |t.entries| ==> t.entries[j].name != t.entries[i].name
  {
    hide RestoreFirst, Pruned, NoTemps, Materializable;
    AheadStart(before, t, ours);
  }

  lemma CopySettled(d: Disk, name: string, keep: set<string>, tag: string, o: Outcome) returns (c: string)
    requires Settle(d, name, keep, tag, o).Some? && o.copy.Some?
    ensures c !in keep && IsLabelled(name, tag, c) && On(Settle(d, name, keep, tag, o).value, c) == o.copy
  {
    hide Materializable;
    var here := Place(d, name, o.stay);
    LocalIsLabelled(name, tag, keep + here.items.Keys);
    c := LocalName(name, tag, keep + here.items.Keys).value;
  }

  ghost predicate IsLabelled(name: string, tag: string, c: string) {
    exists k :: c == Labelled(name, tag, k)
  }

  lemma LocalIsLabelled(name: string, tag: string, taken: set<string>)
    requires LocalName(name, tag, taken).Some?
    ensures IsLabelled(name, tag, LocalName(name, tag, taken).value)
  {
    hide Labelled, Usable;
  }

  lemma NotAhead(t: TreeId, c: string)
    requires c !in NamesOf(t)
    ensures forall j :: 0 <= j < |t.entries| ==> t.entries[j].name != c
  {
    forall j | 0 <= j < |t.entries| ensures t.entries[j].name != c { NameListed(t, j); }
  }

  lemma Prefixed(d: Disk, t: TreeId, i: nat, ours: Option<TreeId>, tag: string)
    requires i < |t.entries| && RestoreFirst(d, t, i + 1, ours, tag).Some? && Materializable(t.entries[i].name)
    ensures RestoreFirst(d, t, i, ours, tag).Some?
    ensures var (e, cur) := (t.entries[i], RestoreFirst(d, t, i, ours, tag).value);
            var o := OutcomeOf(On(cur, e.name), Tracked(ours, e.name), e, tag);
            o.Some? && RestoreFirst(d, t, i + 1, ours, tag) == Settle(cur, e.name, NamesOf(t), tag, o.value)
  {
    hide OutcomeOf, Settle, Materializable;
  }

  // ---- an undisturbed folder becomes exactly the target ----

  /** `item` is what entry `e` describes. */
  ghost predicate ItemIs(item: Item, e: Entry)
    decreases e
  {
    if e.File? then item == Written(e) else item.Directory? && DiskIs(item.disk, e.subtree)
  }

  /** The folder holds exactly the tree's creatable entries. */
  ghost predicate DiskIs(d: Disk, t: TreeId)
    decreases t
  {
    && (forall n :: n in d.items ==> Materializable(n) && exists e :: e in t.entries && e.name == n)
    && (forall e :: e in t.entries && Materializable(e.name) ==> e.name in d.items && ItemIs(d.items[e.name], e))
  }

  /** The sizes recorded for creatable entries are those of their contents. */
  ghost predicate Sized(t: TreeId)
    decreases t
  {
    forall e :: e in t.entries && Materializable(e.name) ==> SizedEntry(e)
  }

  ghost predicate SizedEntry(e: Entry)
    decreases e
  {
    if e.File? then |Data(e.chunks)| == e.size else Sized(e.subtree)
  }

  /** The folder equals our snapshot, or is empty where nothing is tracked. */
  ghost predicate DiskWas(d: Disk, ours: Option<TreeId>) {
    if ours.None? then d == EMPTY else DiskIs(d, ours.value) && Sized(ours.value)
  }

  lemma WasTracked(d: Disk, ours: Option<TreeId>, n: string)
    requires DiskWas(d, ours) && ListedOpt(ours)
    ensures n in d.items ==> Materializable(n) && Tracked(ours, n).Some?
    ensures n in d.items ==> ItemIs(d.items[n], Tracked(ours, n).value) && SizedEntry(Tracked(ours, n).value)
    ensures n !in d.items && Materializable(n) ==> Tracked(ours, n).None?
  {
    hide ItemIs, Materializable, SizedEntry;
  }

  lemma ItemIsUnchanged(item: Item, e: Entry)
    requires ItemIs(item, e) && e.File? && SizedEntry(e)
    ensures Unchanged(item, Some(e))
  {
  }

  /** A folder equal to its snapshot is cleared away completely. */
  lemma {:induction false} ClearsAll(d: Disk, t: TreeId)
    requires DiskIs(d, t) && Sized(t) && Listed(t)
    ensures Cleared(d, t).None?
    decreases t
  {
    forall n | n in d.items ensures AfterRemove(d.items[n], Diff.Find(t.entries, n)).None? {
      WasTracked(d, Some(t), n);
      var e := Diff.Find(t.entries, n).value;
      if e.File? {
        ItemIsUnchanged(d.items[n], e);
      } else {
        ClearsAll(d.items[n].disk, e.subtree);
      }
    }
    assert Swept(d, t).items == map[];
    assert NoTemps(EMPTY).items == map[];
  }

  lemma PrunesAll(d: Disk, keep: set<string>, ours: Option<TreeId>)
    requires DiskWas(d, ours) && ListedOpt(ours)
    ensures forall n :: n in Pruned(NoTemps(d), keep, ours).items ==> n in keep && n in d.items
  {
    forall n | n in Pruned(NoTemps(d), keep, ours).items ensures n in keep && n in d.items {
      WasTracked(d, ours, n);
      assert n in d.items;
      var e := Tracked(ours, n).value;
      if n !in keep {
        if e.File? {
          ItemIsUnchanged(d.items[n], e);
        } else {
          ListedBelow(ours, n);
          ClearsAll(d.items[n].disk, e.subtree);
        }
      }
    }
  }

  /** On such a folder an entry lands under its own name, as described, with no copy. */
  lemma {:induction false} EntryLands(d: Disk, ours: Option<TreeId>, e: Entry, tag: string)
    requires DiskWas(d, ours) && ListedOpt(ours) && Materializable(e.name)
    requires e.Dir? ==> Listed(e.subtree)
    ensures var o := OutcomeOf(On(d, e.name), Tracked(ours, e.name), e, tag);
            o.Some? && o.value.copy.None? && o.value.stay.Some? && ItemIs(o.value.stay.value, e)
    decreases e
  {
    var (item, snap) := (On(d, e.name), Tracked(ours, e.name));
    WasTracked(d, ours, e.name);
    ListedBelow(ours, e.name);
    if item.Some? && snap.value.File? { ItemIsUnchanged(item.value, snap.value); }
    if e.File? {
      if item.Some? && snap.value.Dir? { ClearsAll(item.value.disk, snap.value.subtree); }
    } else {
      var plan := PlanDir(item, snap, e);
      assert plan.Here? && DiskWas(plan.onto, plan.ours);
      LandsExactly(plan.onto, e.subtree, plan.ours, tag);
    }
  }

  /** After `i` entries: those are in place, and nothing stands outside the target's names. */
  ghost predicate LandedTo(start: Disk, t: TreeId, i: nat, cur: Disk)
    requires i <= |t.entries|
  {
    && (forall j :: 0 <= j < i && Materializable(t.entries[j].name) ==>
          t.entries[j].name in cur.items && ItemIs(cur.items[t.entries[j].name], t.entries[j]))
    && (forall n :: n in cur.items ==> n in NamesOf(t) && Materializable(n))
  }

  /** When the disk still equals the snapshot, a restore leaves exactly the target's creatable entries. */
  lemma {:induction false} LandsExactly(d: Disk, t: TreeId, ours: Option<TreeId>, tag: string)
    requires DiskWas(d, ours) && Listed(t) && ListedOpt(ours)
    ensures var r := RestoreInto(d, t, ours, tag); r.Some? && DiskIs(r.value, t)
    decreases t, |t.entries| + 1
  {
    var start := Pruned(NoTemps(d), NamesOf(t), ours);
    PrunesAll(d, NamesOf(t), ours);
    forall n | n in start.items ensures Materializable(n) { WasTracked(d, ours, n); }
    LandsFirst(d, t, |t.entries|, ours, tag);
    var cur := RestoreFirst(start, t, |t.entries|, ours, tag).value;
    LandedAll(start, t, cur);
  }

  lemma LandedAll(start: Disk, t: TreeId, cur: Disk)
    requires LandedTo(start, t, |t.entries|, cur)
    ensures DiskIs(cur, t)
  {
    hide ItemIs, Materializable;
  }

  lemma {:induction false} LandsFirst(d: Disk, t: TreeId, i: nat, ours: Option<TreeId>, tag: string)
    requires DiskWas(d, ours) && Listed(t) && ListedOpt(ours) && i <= |t.entries|
    requires forall n :: n in Pruned(NoTemps(d), NamesOf(t), ours).items ==> n in NamesOf(t) && Materializable(n)
    ensures var start := Pruned(NoTemps(d), NamesOf(t), ours);
            var r := RestoreFirst(start, t, i, ours, tag); r.Some? && LandedTo(start, t, i, r.value)
    decreases t, i
  {
    hide Materializable, Pruned, OutcomeOf, ItemIs, RestoreOne, DiskWas, Listed;
    if i > 0 {
      LandsFirst(d, t, i - 1, ours, tag);
      LandsStep(d, t, i - 1, ours, tag);
    }
  }

  lemma LandsStep(d: Disk, t: TreeId, i: nat, ours: Option<TreeId>, tag: string)
    requires DiskWas(d, ours) && Listed(t) && ListedOpt(ours) && i < |t.entries|
    requires var start := Pruned(NoTemps(d), NamesOf(t), ours);
             var r := RestoreFirst(start, t, i, ours, tag); r.Some? && LandedTo(start, t, i, r.value)
    ensures var start := Pruned(NoTemps(d), NamesOf(t), ours);
            var r := RestoreFirst(start, t, i + 1, ours, tag); r.Some? && LandedTo(start, t, i + 1, r.value)
    decreases t, i
  {
    var start := Pruned(NoTemps(d), NamesOf(t), ours);
    var e := t.entries[i];
    assert e in t.entries;
    assert e.Dir? ==> Listed(e.subtree);
    hide Materializable, Pruned, OutcomeOf, ItemIs, RestoreOne, DiskWas, LandedTo, RestoreFirst, Listed, Data;
    var cur := RestoreFirst(start, t, i, ours, tag).value;
    if Materializable(e.name) {
      AheadSame(start, t, i, ours, tag, i);
      AheadStart(d, t, ours);
      assert On(cur, e.name) == On(d, e.name);
      EntryLands(d, ours, e, tag);
      var o := OutcomeOf(On(cur, e.name), Tracked(ours, e.name), e, tag).value;
      LandedNext(start, t, i, cur, o.stay.value);
      StepLands(start, t, i, ours, tag, cur, o);
    } else {
      StepSkips(start, t, i, ours, tag, cur);
      LandedSkip(start, t, i, cur);
    }
  }

  lemma LandedSkip(start: Disk, t: TreeId, i: nat, cur: Disk)
    requires i < |t.entries| && LandedTo(start, t, i, cur) && !Materializable(t.entries[i].name)
    ensures LandedTo(start, t, i + 1, cur)
  {
    hide ItemIs, Materializable;
  }

  lemma StepLands(start: Disk, t: TreeId, i: nat, ours: Option<TreeId>, tag: string, cur: Disk, o: Outcome)
    requires i < |t.entries| && RestoreFirst(start, t, i, ours, tag) == Some(cur) && Materializable(t.entries[i].name)
    requires OutcomeOf(On(cur, t.entries[i].name), Tracked(ours, t.entries[i].name), t.entries[i], tag) == Some(o) &&
            o.copy.None?
    ensures RestoreFirst(start, t, i + 1, ours, tag) == Some(Place(cur, t.entries[i].name, o.stay))
  {
    hide OutcomeOf, Materializable;
  }

  lemma StepSkips(start: Disk, t: TreeId, i: nat, ours: Option<TreeId>, tag: string, cur: Disk)
    requires i < |t.entries| && RestoreFirst(start, t, i, ours, tag) == Some(cur) && !Materializable(t.entries[i].name)
    ensures RestoreFirst(start, t, i + 1, ours, tag) == Some(cur)
  {
    hide OutcomeOf, Materializable;
  }

  lemma LandedNext(start: Disk, t: TreeId, i: nat, cur: Disk, item: Item)
    requires Listed(t) && i < |t.entries| && LandedTo(start, t, i, cur) && Materializable(t.entries[i].name) &&
            ItemIs(item, t.entries[i])
    ensures LandedTo(start, t, i + 1, Place(cur, t.entries[i].name, Some(item)))
  {
    hide ItemIs, Materializable;
    NameListed(t, i);
  }

  // ---- what comes in is not lost ----

  /** `q` is `p` with one component replaced by a labelled keep-both name. */
  ghost predicate Beside1(tag: string, p: Path, q: Path) {
    |p| == |q| && exists i :: 0 <= i < |p| && q == p[i := q[i]] && IsLabelled(p[i], tag, q[i])
  }

  lemma BesideBelow(tag: string, n: string, p: Path, q: Path)
    requires Beside1(tag, p, q)
    ensures Beside1(tag, [n] + p, [n] + q)
  {
    hide IsLabelled;
    var i :| 0 <= i < |p| && q == p[i := q[i]] && IsLabelled(p[i], tag, q[i]);
    var (p', q') := ([n] + p, [n] + q);
    assert p'[i + 1] == p[i] && q'[i + 1] == q[i];
    assert q' == p'[i + 1 := q'[i + 1]];
  }

  lemma BesideHere(tag: string, p: Path, c: string)
    requires p != [] && IsLabelled(p[0], tag, c)
    ensures Beside1(tag, p, [c] + p[1..])
  {
    hide IsLabelled;
    var q := [c] + p[1..];
    assert q == p[0 := q[0]];
  }

  /** Our snapshot and the target have a file at `p` with the same chunks. */
  ghost predicate SameChunks(ours: Option<TreeId>, t: TreeId, p: Path) {
    match (EntryAt(ours, p), EntryAt(Some(t), p))
    case (Some(s), Some(e)) => s.File? && e.File? && s.chunks == e.chunks
    case _ => false
  }

  ghost predicate AllCreatable(p: Path) {
    forall i :: 0 <= i < |p| ==> Materializable(p[i])
  }

  lemma EntryIndex(t: TreeId, n: string) returns (i: nat)
    requires Listed(t) && Tracked(Some(t), n).Some?
    ensures i < |t.entries| && t.entries[i] == Tracked(Some(t), n).value && t.entries[i].name == n
  {
    i :| 0 <= i < |t.entries| && t.entries[i] == Tracked(Some(t), n).value;
  }

  lemma {:induction false} NothingAtNone(p: Path)
    ensures EntryAt(None, p) == None
    decreases |p|
  {
    if |p| > 1 { NothingAtNone(p[1..]); }
  }

  /** Into an empty, untracked folder every creatable file of the target is written at its path. */
  lemma {:induction false} FreshArrives(t: TreeId, tag: string, p: Path)
    requires Listed(t) && RestoreInto(EMPTY, t, None, tag).Some? && AllCreatable(p)
    requires EntryAt(Some(t), p).Some? && EntryAt(Some(t), p).value.File?
    ensures ItemAt(RestoreInto(EMPTY, t, None, tag).value, p) == Some(Written(EntryAt(Some(t), p).value))
    decreases |p|
  {
    var n := p[0];
    if |p| > 1 { NothingAtNone(p[1..]); }
    var i := EntryIndex(t, n);
    var e := t.entries[i];
    assert Materializable(n);
    var o, c := EntrySettled(EMPTY, t, None, tag, i);
    if |p| > 1 {
      assert e.Dir?;
      assert e in t.entries;
      FreshArrives(e.subtree, tag, p[1..]);
    }
  }

  /**
   Each creatable file of the target that our snapshot does not already have with that content is
   written at its path, or with one component labelled as a keep-both copy.
   */
  lemma {:induction false} IncomingArrives(before: Disk, t: TreeId, ours: Option<TreeId>, tag: string, p: Path)
    returns (q: Path)
    requires Listed(t) && ListedOpt(ours) && RestoreInto(before, t, ours, tag).Some? && AllCreatable(p)
    requires EntryAt(Some(t), p).Some? && EntryAt(Some(t), p).value.File?
    requires !SameChunks(ours, t, p)
    ensures q == p || Beside1(tag, p, q)
    ensures var e := EntryAt(Some(t), p).value;
            ItemAt(RestoreInto(before, t, ours, tag).value, q) == Some(Regular(e.mtime, Data(e.chunks)))
    decreases |p|
  {
    var n := p[0];
    if |p| > 1 { NothingAtNone(p[1..]); }
    var i := EntryIndex(t, n);
    var e := t.entries[i];
    assert Materializable(n);
    var o, c := EntrySettled(before, t, ours, tag, i);
    if |p| == 1 {
      q := if o.stay == Some(Written(e)) then p else [c.value];
      if o.stay != Some(Written(e)) { BesideHere(tag, p, c.value); }
    } else {
      assert e in t.entries && e.Dir?;
      q := DirArrives(before, t, ours, tag, p, i, o, c);
    }
  }

  lemma DirArrives(before: Disk, t: TreeId, ours: Option<TreeId>, tag: string, p: Path, i: nat, o: Outcome,
                   c: Option<string>)
    returns (q: Path)
    requires Listed(t) && ListedOpt(ours) && RestoreInto(before, t, ours, tag).Some? && AllCreatable(p) && |p| > 1 &&
            i < |t.entries|
    requires t.entries[i].Dir? && t.entries[i].name == p[0] && Tracked(Some(t), p[0]) == Some(t.entries[i])
    requires EntryAt(Some(t), p).Some? && EntryAt(Some(t), p).value.File?
    requires !SameChunks(ours, t, p)
    requires OutcomeOf(On(before, p[0]), Tracked(ours, p[0]), t.entries[i], tag) == Some(o)
    requires var out := RestoreInto(before, t, ours, tag).value;
             On(out, p[0]) == o.stay && (o.copy.Some? <==> c.Some?) &&
             (c.Some? ==> On(out, c.value) == o.copy && IsLabelled(p[0], tag, c.value))
    ensures q == p || Beside1(tag, p, q)
    ensures ItemAt(RestoreInto(before, t, ours, tag).value, q) == Some(Written(EntryAt(Some(t), p).value))
    decreases |p|, 0
  {
    var e := t.entries[i];
    var out := RestoreInto(before, t, ours, tag).value;
    var (item, snap, rest) := (On(before, p[0]), Tracked(ours, p[0]), p[1..]);
    var plan := PlanDir(item, snap, e);
    assert e in t.entries && Listed(e.subtree);
    assert EntryAt(Some(t), p) == EntryAt(Some(e.subtree), rest) && EntryAt(ours, p) == EntryAt(SubTree(snap), rest);
    FolderOutcome(item, snap, e, tag, o);
    hide RestoreInto, OutcomeOf, Materializable, Written, IsLabelled, Beside1, ItemAt, EntryAt, Listed, SameUpstream;
    ListedBelow(ours, p[0]);
    assert AllCreatable(rest);
    assert p == [p[0]] + rest;
    SameFileSame(EntryAt(Some(t), p).value);
    match plan {
      case Nowhere =>
        PlanNowhere(item, snap, e);
      case Here(onto, sub) =>
        PlanHere(item, snap, e);
        var q' := IncomingArrives(onto, e.subtree, sub, tag, rest);
        q := [p[0]] + q';
        if q' != rest { BesideBelow(tag, p[0], rest, q'); }
        ItemBelow(out, p[0], q');
      case Beside =>
        FreshArrives(e.subtree, tag, rest);
        q := [c.value] + rest;
        ItemBelow(out, c.value, rest);
        BesideHere(tag, p, c.value);
    }
  }

  lemma ItemBelow(d: Disk, n: string, q: Path)
    requires q != []
    ensures ItemAt(d, [n] + q) == ItemAt(Inside(On(d, n)), q)
  {
    assert ([n] + q)[1..] == q;
  }

  lemma PlanNowhere(item: Option<Item>, snap: Option<Entry>, e: Entry)
    requires e.Dir? && PlanDir(item, snap, e).Nowhere?
    ensures SubTree(snap) == Some(e.subtree)
  {
  }

  lemma PlanHere(item: Option<Item>, snap: Option<Entry>, e: Entry)
    requires e.Dir? && PlanDir(item, snap, e).Here?
    ensures PlanDir(item, snap, e).ours == SubTree(snap)
  {
  }

  lemma FolderOutcome(item: Option<Item>, snap: Option<Entry>, e: Entry, tag: string, o: Outcome)
    requires e.Dir? && OutcomeOf(item, snap, e, tag) == Some(o)
    ensures match PlanDir(item, snap, e)
            case Nowhere => true
            case Here(onto, sub) =>
              RestoreInto(onto, e.subtree, sub, tag).Some? &&
                o.stay == Some(Directory(RestoreInto(onto, e.subtree, sub, tag).value))
            case Beside =>
              RestoreInto(EMPTY, e.subtree, None, tag).Some? &&
                o.copy == Some(Directory(RestoreInto(EMPTY, e.subtree, None, tag).value))
  {
    hide RestoreInto;
  }

  lemma SameFileSame(e: Entry)
    requires e.File?
    ensures SameUpstream(Some(e), e)
  {
  }

  /** A file deleted locally and unchanged upstream stays deleted. */
  lemma {:induction false} DeletionStays(before: Disk, t: TreeId, ours: Option<TreeId>, tag: string, p: Path)
    requires Listed(t) && ListedOpt(ours) && RestoreInto(before, t, ours, tag).Some? && AllCreatable(p)
    requires EntryAt(Some(t), p).Some? && EntryAt(Some(t), p).value.File?
    requires SameChunks(ours, t, p) && ItemAt(before, p).None?
    ensures ItemAt(RestoreInto(before, t, ours, tag).value, p).None?
    decreases |p|
  {
    var n := p[0];
    if |p| > 1 {
      NothingAtNone(p[1..]);
      NothingInEmpty(p[1..]);
    }
    var i := EntryIndex(t, n);
    var e := t.entries[i];
    assert Materializable(n);
    var o, c := EntrySettled(before, t, ours, tag, i);
    if |p| > 1 {
      DeletionBelow(before, t, ours, tag, p, e, o);
    }
  }

  lemma DeletionBelow(before: Disk, t: TreeId, ours: Option<TreeId>, tag: string, p: Path, e: Entry, o: Outcome)
    requires Listed(t) && ListedOpt(ours) && AllCreatable(p) && |p| > 1 && e in t.entries &&
            Tracked(Some(t), p[0]) == Some(e)
    requires EntryAt(Some(t), p).Some? && EntryAt(Some(t), p).value.File?
    requires SameChunks(ours, t, p) && ItemAt(before, p).None?
    requires OutcomeOf(On(before, p[0]), Tracked(ours, p[0]), e, tag) == Some(o)
    ensures ItemAt(Inside(o.stay), p[1..]).None?
    decreases |p|, 0
  {
    var (item, snap, rest) := (On(before, p[0]), Tracked(ours, p[0]), p[1..]);
    NothingAtNone(rest);
    NothingInEmpty(rest);
    assert e.Dir? && Listed(e.subtree);
    assert EntryAt(Some(t), p) == EntryAt(Some(e.subtree), rest) && EntryAt(ours, p) == EntryAt(SubTree(snap), rest);
    assert ItemAt(before, p) == ItemAt(Inside(item), rest);
    assert AllCreatable(rest);
    FolderOutcome(item, snap, e, tag, o);
    ListedBelow(ours, p[0]);
    hide RestoreInto, Materializable, ItemAt, EntryAt, Listed, SameUpstream;
    var plan := PlanDir(item, snap, e);
    if plan.Here? {
      PlanOnto(item, snap, e);
      DeletionStays(plan.onto, e.subtree, plan.ours, tag, rest);
    } else {
      StaysOut(item, snap, e, tag, o);
    }
  }

  lemma PlanOnto(item: Option<Item>, snap: Option<Entry>, e: Entry)
    requires e.Dir? && PlanDir(item, snap, e).Here?
    ensures PlanDir(item, snap, e).ours == SubTree(snap) && PlanDir(item, snap, e).onto == Inside(item)
  {
  }

  lemma StaysOut(item: Option<Item>, snap: Option<Entry>, e: Entry, tag: string, o: Outcome)
    requires e.Dir? && !PlanDir(item, snap, e).Here? && OutcomeOf(item, snap, e, tag) == Some(o)
    ensures Inside(o.stay) == EMPTY
  {
  }

  // ---- the whole restore ----

  /** `restore_tree_into`: local work survives every exit, and an undisturbed folder becomes the target. */
  method RestoreTreeInto(st: set<Id>, before: Disk, t: TreeId, ours: Option<TreeId>, tag: string)
    returns (out: Disk, r: Result<(), RestoreError>)
    requires Listed(t) && ListedOpt(ours)
    ensures forall p :: MustStay(before, ours, p) ==> ItemAt(out, p) == ItemAt(before, p)
    ensures r.Ok? && DiskWas(before, ours) ==> DiskIs(out, t)
    ensures r.Ok? ==> RestoreInto(before, t, ours, tag) == Some(out)
  {
    hide Kept, DiskIs, RestoreInto, ItemAt, EntryAt, Exempt;
    if ours.Some? && TreeObj(ours.value) !in st {
      return before, Err(Missing(TreeObj(ours.value)));
    }
    out, r := RestoreDir(st, before, t, ours, tag, 0);
    forall p | MustStay(before, ours, p) ensures ItemAt(out, p) == ItemAt(before, p) {
      LocalFileKept(before, ours, out, p);
    }
    if DiskWas(before, ours) {
      LandsExactly(before, t, ours, tag);
    }
  }

  /** A folder the target keeps keeps its icon, lone or not. */
  lemma {:induction false} IconStays(before: Disk, t: TreeId, i: nat, ours: Option<TreeId>, tag: string)
    requires i <= |t.entries| && ICON in before.items && before.items[ICON].Regular?
    requires RestoreFirst(Pruned(NoTemps(before), NamesOf(t), ours), t, i, ours, tag).Some?
    ensures On(RestoreFirst(Pruned(NoTemps(before), NamesOf(t), ours), t, i, ours, tag).value, ICON) == On(before, ICON)
    decreases i
  {
    hide Pruned, NoTemps, RestoreOne, Materializable, IsTemp, SafeName;
    var start := Pruned(NoTemps(before), NamesOf(t), ours);
    if i == 0 {
      IconPruned(before, NamesOf(t), ours);
    } else {
      IconStays(before, t, i - 1, ours, tag);
      var cur := RestoreFirst(start, t, i - 1, ours, tag).value;
      if t.entries[i - 1].name != ICON {
        OneEffect(cur, t, i - 1, ours, tag, ICON);
      } else {
        IconSkipped(cur, t, i - 1, ours, tag);
      }
    }
  }

  lemma IconPruned(before: Disk, keep: set<string>, ours: Option<TreeId>)
    requires ICON in before.items && before.items[ICON].Regular?
    ensures On(Pruned(NoTemps(before), keep, ours), ICON) == On(before, ICON)
  {
    IconUnsafe();
    hide AfterRemove, SafeName, IsTemp;
  }

  lemma IconSkipped(d: Disk, t: TreeId, i: nat, ours: Option<TreeId>, tag: string)
    requires i < |t.entries| && t.entries[i].name == ICON
    ensures RestoreOne(d, t, i, ours, tag) == Some(d)
  {
    IconUnsafe();
    hide OutcomeOf, Settle, Materializable, SafeName;
  }

  lemma IconUnsafe()
    ensures !SafeName(ICON) && !Materializable(ICON) && !IsTemp(ICON)
  {
    assert ICON[4] == '\r' && IsControl(ICON[4]) && !SafeChar(ICON[4]);
    assert ICON[0] != TMP_PREFIX[0];
  }
}
