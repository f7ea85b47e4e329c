/**
 Reconciling a folder on disk with a target tree, against this device's snapshot of the folder.
 `Cleared` and `RestoreInto` say what a finished run leaves; `Kept` says what every run preserves,
 also one that stops at an error halfway.
 */
module Restore {
  import opened Prelude
  import opened Frame
  import opened Objects
  import opened Names
  import Diff

  const OS_NAME_MAX: nat := 255
  const MAX_CHUNK_LEN: nat := 256 * 1024
  const TMP_PREFIX: string := ".secsec-tmp-"
  const ICON: string := "Icon\r"

  /** What stands under one name. */
  datatype Item = Regular(mtime: nat, data: seq<Byte>) | Directory(disk: Disk) | Special

  datatype Disk = Disk(items: map<string, Item>)

  const EMPTY: Disk := Disk(map[])

  function On(d: Disk, n: string): Option<Item> {
    if n in d.items then Some(d.items[n]) else None
  }

  /** Put an item under a name, or take away what is there. */
  function Place(d: Disk, n: string, item: Option<Item>): Disk {
    if item.Some? then Disk(d.items[n := item.value]) else Disk(map m | m in d.items && m != n :: d.items[m])
  }

  predicate IsTemp(n: string) {
    TMP_PREFIX <= n
  }

  /** `is_materializable` outside Windows. */
  predicate Materializable(n: string) {
    SafeName(n) && !IsTemp(n) && Len(n) <= OS_NAME_MAX
  }

  /** Our snapshot's entry of that name. */
  function Tracked(ours: Option<TreeId>, n: string): Option<Entry> {
    if ours.None? then None else Diff.Find(ours.value.entries, n)
  }

  function SubTree(e: Option<Entry>): Option<TreeId> {
    if e.Some? && e.value.Dir? then Some(e.value.subtree) else None
  }

  /** `unchanged_since`: a regular file with the size and mtime our snapshot recorded. */
  predicate Unchanged(item: Item, e: Option<Entry>) {
    item.Regular? && e.Some? && e.value.File? && |item.data| == e.value.size && item.mtime == e.value.mtime
  }

  /** What the decoder guarantees of a tree here: no name twice, at any level. */
  ghost predicate Listed(t: TreeId) {
    (forall i, j :: 0 <= i < j < |t.entries| ==> t.entries[i].name != t.entries[j].name) &&
    forall e :: e in t.entries && e.Dir? ==> Listed(e.subtree)
  }

  ghost predicate ListedOpt(t: Option<TreeId>) {
    t.Some? ==> Listed(t.value)
  }

  lemma FindAt(es: seq<Entry>, i: nat)
    requires i < |es| && forall i, j :: 0 <= i < j < |es| ==> es[i].name != es[j].name
    ensures Diff.Find(es, es[i].name) == Some(es[i])
  {
    var r := Diff.Find(es, es[i].name);
    assert es[i] in es;
    var j :| 0 <= j < |es| && es[j] == r.value;
  }

  lemma ListedBelow(t: Option<TreeId>, n: string)
    requires ListedOpt(t)
    ensures ListedOpt(SubTree(Tracked(t, n)))
  {
  }

  // ---- deleting what our snapshot tracked ----

  /** What is left of an item whose tracked entry is deleted: nothing if it is unchanged. */
  function AfterRemove(item: Item, e: Option<Entry>): Option<Item>
    decreases item
  {
    if e.None? then Some(item)
    else if e.value.File? then if Unchanged(item, e) then None else Some(item)
    else if item.Directory? then
      match Cleared(item.disk, e.value.subtree)
      case None => None
      case Some(d) => Some(Directory(d))
    else Some(item)
  }

  function Swept(d: Disk, snap: TreeId): Disk
    decreases d, 0
  {
    Disk(map n | n in d.items && AfterRemove(d.items[n], Diff.Find(snap.entries, n)).Some? ::
           AfterRemove(d.items[n], Diff.Find(snap.entries, n)).value)
  }

  /** `remove_stale_temps`. */
  function NoTemps(d: Disk): Disk {
    Disk(map n | n in d.items && !(IsTemp(n) && d.items[n].Regular?) :: d.items[n])
  }

  /** `remove_lone_folder_icon`. */
  function NoLoneIcon(d: Disk): Disk {
    if d.items.Keys == {ICON} && d.items[ICON].Regular? then EMPTY else d
  }

  /** What a finished `remove_tracked` leaves; `None` when the directory itself is gone. */
  function Cleared(d: Disk, snap: TreeId): Option<Disk>
    decreases d, 1
  {
    var left := NoLoneIcon(NoTemps(Swept(d, snap)));
    if left == EMPTY then None else Some(left)
  }

  // ---- what every run preserves ----

  function Inside(item: Option<Item>): Disk {
    if item.Some? && item.value.Directory? then item.value.disk else EMPTY
  }

  /** A folder icon may go only from a folder that holds nothing but unchanged tracked entries. */
  ghost predicate LoneIcon(before: Disk, ours: Option<TreeId>, n: string) {
    n == "Icon\r" && ours.Some? && Cleared(before, ours.value).None?
  }

  /** A regular file that is untracked or changed, no temp and no lone icon, is still there. */
  ghost predicate ItemKept(before: Disk, ours: Option<TreeId>, n: string, after: Option<Item>)
    requires n in before.items
    decreases before, 0
  {
    match before.items[n]
    case Regular(mtime, data) =>
      ".secsec-tmp-" <= n || LoneIcon(before, ours, n) || after == Some(before.items[n]) ||
        exists e :: Tracked(ours, n) == Some(e) && e.File? && e.size == |data| && e.mtime == mtime
    case Directory(d) => Kept(d, SubTree(Tracked(ours, n)), Inside(after))
    case Special => true
  }

  ghost predicate Kept(before: Disk, ours: Option<TreeId>, after: Disk)
    decreases before, 1
  {
    forall n :: n in before.items ==> ItemKept(before, ours, n, On(after, n))
  }

  lemma {:induction false} KeptSame(d: Disk, ours: Option<TreeId>)
    ensures Kept(d, ours, d)
    decreases d
  {
    forall n | n in d.items ensures ItemKept(d, ours, n, On(d, n)) {
      if d.items[n].Directory? { KeptSame(d.items[n].disk, SubTree(Tracked(ours, n))); }
    }
  }

  /** Where nothing had to be kept, anything may stand. */
  lemma {:induction false} KeptNothing(before: Disk, ours: Option<TreeId>, after: Disk)
    requires Kept(before, ours, EMPTY)
    ensures Kept(before, ours, after)
    decreases before
  {
    forall n | n in before.items ensures ItemKept(before, ours, n, On(after, n)) {
      assert ItemKept(before, ours, n, On(EMPTY, n));
      if before.items[n].Directory? {
        KeptNothing(before.items[n].disk, SubTree(Tracked(ours, n)), Inside(On(after, n)));
      }
    }
  }

  function OrEmpty(d: Option<Disk>): Disk {
    if d.Some? then d.value else EMPTY
  }

  lemma {:induction false} ClearedKept(d: Disk, snap: TreeId)
    ensures Kept(d, Some(snap), OrEmpty(Cleared(d, snap)))
    decreases d, 1
  {
    var after := OrEmpty(Cleared(d, snap));
    forall n | n in d.items ensures ItemKept(d, Some(snap), n, On(after, n)) {
      var e := Diff.Find(snap.entries, n);
      RemovedKept(d, Some(snap), n);
      var left := AfterRemove(d.items[n], e);
      if d.items[n].Directory? {
        StaysCleared(d, snap, n);
      } else if d.items[n].Regular? && !IsTemp(n) && left.Some? && !LoneIcon(d, Some(snap), n) {
        StaysCleared(d, snap, n);
      }
    }
  }

  /** Beyond the tracked entries only temps and a lone icon go. */
  lemma StaysCleared(d: Disk, snap: TreeId, n: string)
    requires n in d.items && !d.items[n].Special?
    requires d.items[n].Regular? ==> !IsTemp(n) && !LoneIcon(d, Some(snap), n)
    ensures On(OrEmpty(Cleared(d, snap)), n) == AfterRemove(d.items[n], Diff.Find(snap.entries, n))
  {
    hide AfterRemove;
    var e := Diff.Find(snap.entries, n);
    var left := AfterRemove(d.items[n], e);
    if left.Some? { SameKind(d.items[n], e); }
    var swept := NoTemps(Swept(d, snap));
    assert On(swept, n) == left;
  }

  lemma SameKind(item: Item, e: Option<Entry>)
    requires AfterRemove(item, e).Some?
    ensures AfterRemove(item, e).value == item || (item.Directory? && AfterRemove(item, e).value.Directory?)
  {
  }

  lemma RemovedKept(d: Disk, ours: Option<TreeId>, n: string)
    requires n in d.items
    ensures ItemKept(d, ours, n, AfterRemove(d.items[n], Tracked(ours, n)))
    decreases d, 0
  {
    var item, e := d.items[n], Tracked(ours, n);
    if item.Directory? {
      if e.Some? && e.value.Dir? {
        ClearedKept(item.disk, e.value.subtree);
      } else {
        KeptSame(item.disk, SubTree(e));
      }
    }
  }

  datatype RestoreError = DepthExceeded | Missing(id: Id) | BadContent | NoFreeName

  /** The directory after the first `i` tracked entries, each on its own name. */
  ghost predicate SweptTo(d: Disk, snap: TreeId, i: nat, cur: Disk)
    requires i <= |snap.entries|
  {
    forall n :: On(cur, n) ==
                if n in d.items && Named(snap.entries[..i], n)
                  then AfterRemove(d.items[n], Diff.Find(snap.entries, n)) else On(d, n)
  }

  predicate Named(es: seq<Entry>, n: string) {
    exists e :: e in es && e.name == n
  }

  lemma SweptNone(d: Disk, snap: TreeId)
    ensures SweptTo(d, snap, 0, d)
  {
  }

  lemma SweptNext(d: Disk, snap: TreeId, i: nat, cur: Disk)
    requires Listed(snap) && i < |snap.entries| && SweptTo(d, snap, i, cur)
    ensures var n := snap.entries[i].name;
            On(cur, n) == On(d, n) &&
            SweptTo(d, snap, i + 1,
                    if n in d.items then Place(cur, n, AfterRemove(d.items[n], Some(snap.entries[i]))) else cur)
  {
    hide AfterRemove, Named, Diff.Find;
    var es := snap.entries;
    var n := es[i].name;
    FindAt(es, i);
    NamedNext(snap, i);
    hide Listed;
    var after := if n in d.items then Place(cur, n, AfterRemove(d.items[n], Some(es[i]))) else cur;
    forall m
      ensures On(after, m) == if m in d.items && Named(es[..i + 1], m)
              then AfterRemove(d.items[m], Diff.Find(es, m)) else On(d, m)
    {
      assert Named(es[..i + 1], m) <==> Named(es[..i], m) || m == n;
      assert m != n ==> On(after, m) == On(cur, m);
    }
  }

  lemma NamedNext(snap: TreeId, i: nat)
    requires Listed(snap) && i < |snap.entries|
    ensures !Named(snap.entries[..i], snap.entries[i].name)
    ensures forall m :: Named(snap.entries[..i + 1], m) <==> Named(snap.entries[..i], m) || m == snap.entries[i].name
  {
    var es := snap.entries;
    assert es[..i + 1] == es[..i] + [es[i]];
  }

  lemma SweptAll(d: Disk, snap: TreeId, cur: Disk)
    requires SweptTo(d, snap, |snap.entries|, cur)
    ensures cur == Swept(d, snap)
  {
    hide AfterRemove;
    assert snap.entries[..|snap.entries|] == snap.entries;
    forall n ensures On(cur, n) == On(Swept(d, snap), n) {
      assert Named(snap.entries, n) <==> Diff.Find(snap.entries, n).Some?;
      if Diff.Find(snap.entries, n).None? { Untracked(d, n); }
    }
    SameDisk(cur, Swept(d, snap));
  }

  lemma Untracked(d: Disk, n: string)
    ensures n in d.items ==> AfterRemove(d.items[n], None) == Some(d.items[n])
  {
  }

  lemma SameDisk(a: Disk, b: Disk)
    requires forall n :: On(a, n) == On(b, n)
    ensures a == b
  {
    forall n ensures n in a.items <==> n in b.items { assert On(a, n) == On(b, n); }
    forall n | n in a.items ensures a.items[n] == b.items[n] { assert On(a, n) == On(b, n); }
    assert a.items == b.items;
  }

  lemma SweptToKept(d: Disk, snap: TreeId, i: nat, cur: Disk)
    requires i <= |snap.entries| && SweptTo(d, snap, i, cur)
    ensures Kept(d, Some(snap), cur)
  {
    KeptSame(d, Some(snap));
    hide AfterRemove;
    forall n | n in d.items ensures ItemKept(d, Some(snap), n, On(cur, n)) {
      RemovedKept(d, Some(snap), n);
    }
  }

  /** One name may change at a time. */
  lemma KeptPlace(before: Disk, ours: Option<TreeId>, cur: Disk, n: string, item: Option<Item>)
    requires Kept(before, ours, cur) && (n in before.items ==> ItemKept(before, ours, n, item))
    ensures Kept(before, ours, Place(cur, n, item))
  {
    hide ItemKept;
    var after := Place(cur, n, item);
    forall m | m in before.items ensures ItemKept(before, ours, m, On(after, m)) {
      assert m != n ==> On(after, m) == On(cur, m);
      assert On(after, n) == item;
    }
  }

  /** `remove_tracked` over the snapshot's entries in order; `out` is `None` once `d` itself has been removed. */
  method RemoveTracked(st: set<Id>, d: Disk, snap: TreeId, depth: nat)
    returns (out: Option<Disk>, r: Result<(), RestoreError>)
    requires Listed(snap)
    ensures r.Ok? ==> out == Cleared(d, snap)
    ensures Kept(d, Some(snap), OrEmpty(out))
    decreases d
  {
    hide AfterRemove, Kept, Cleared, SweptTo, Swept, NoTemps, NoLoneIcon, Diff.Find;
    KeptSame(d, Some(snap));
    if depth >= MAX_TREE_DEPTH {
      return Some(d), Err(DepthExceeded);
    }
    var es := snap.entries;
    var cur := d;
    var i := 0;
    SweptNone(d, snap);
    while i < |es|
      invariant 0 <= i <= |es| && SweptTo(d, snap, i, cur)
    {
      var e := es[i];
      SweptNext(d, snap, i, cur);
      SweptToKept(d, snap, i, cur);
      if e.name in cur.items {
        var item := cur.items[e.name];
        if e.File? && Unchanged(item, Some(e)) {
          RemoveMeans(item, Some(e));
          cur := Place(cur, e.name, None);
        } else if e.Dir? && item.Directory? {
          FindAt(es, i);
          if TreeObj(e.subtree) !in st {
            return Some(cur), Err(Missing(TreeObj(e.subtree)));
          }
          var sub, ok := RemoveTracked(st, item.disk, e.subtree, depth + 1);
          var left := if sub.Some? then Some(Directory(sub.value)) else None;
          if ok.Err? {
            KeptPlace(d, Some(snap), cur, e.name, left);
            return Some(Place(cur, e.name, left)), ok;
          }
          RemoveMeans(item, Some(e));
          cur := Place(cur, e.name, left);
        } else {
          RemoveMeans(item, Some(e));
          PlaceSame(cur, e.name);
        }
      }
      i := i + 1;
    }
    SweptAll(d, snap, cur);
    cur := NoLoneIcon(NoTemps(cur));
    ClearedKept(d, snap);
    ClearedMeans(d, snap);
    return if cur == EMPTY then None else Some(cur), Ok(());
  }

  lemma ClearedMeans(d: Disk, snap: TreeId)
    ensures Cleared(d, snap) == if NoLoneIcon(NoTemps(Swept(d, snap))) == EMPTY then None
            else Some(NoLoneIcon(NoTemps(Swept(d, snap))))
  {
  }

  lemma PlaceSame(d: Disk, n: string)
    requires n in d.items
    ensures Place(d, n, Some(d.items[n])) == d
  {
    assert d.items[n := d.items[n]] == d.items;
  }

  lemma RemoveMeans(item: Item, e: Option<Entry>)
    requires e.Some?
    ensures e.value.File? && Unchanged(item, e) ==> AfterRemove(item, e) == None
    ensures e.value.File? && !Unchanged(item, e) ==> AfterRemove(item, e) == Some(item)
    ensures e.value.Dir? && !item.Directory? ==> AfterRemove(item, e) == Some(item)
    ensures e.value.Dir? && item.Directory? ==>
              AfterRemove(item, e) == if Cleared(item.disk, e.value.subtree).None? then None
                                      else Some(Directory(Cleared(item.disk, e.value.subtree).value))
  {
  }
}
