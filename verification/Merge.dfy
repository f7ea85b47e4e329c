/**
 The three-way merge of directory trees. `MergeDir` follows the loop over the sorted names of the
 three sides; `Shape` turns that loop into a statement about each name, and the theorems about
 paths follow from it by induction over the path.
 */
module Merge {
  import opened Prelude
  import opened Canon
  import opened Names

  /** A file or directory; a file's content is its chunk list, everything else is metadata. */
  datatype Node =
    | File(mode: U32, mtime: U64, size: U64, salt: Salt, chunks: seq<Hash>)
    | Dir(mode: U32, mtime: U64, salt: Salt, children: Folder)

  /** The entries of one directory. */
  datatype Folder = Folder(entries: map<string, Node>)

  datatype ConflictKind = ModifyModify | ModifyDelete | AddAdd | TypeChange

  datatype Conflict = Conflict(path: string, kind: ConflictKind)

  datatype Merged = Merged(tree: Folder, conflicts: seq<Conflict>)

  function Get(f: Folder, name: string): Option<Node> {
    if name in f.entries then Some(f.entries[name]) else None
  }

  function Put(f: Folder, name: string, n: Node): Folder {
    Folder(f.entries[name := n])
  }

  // ---- content equality ----

  /** `same_content`: blind to modes, times, sizes and salts at every level. */
  predicate SameContent(a: Node, b: Node) {
    match (a, b)
    case (File(_, _, _, _, x), File(_, _, _, _, y)) => x == y
    case (Dir(_, _, _, x), Dir(_, _, _, y)) =>
      |x.entries| == |y.entries| &&
      forall k :: k in x.entries ==> k in y.entries && SameContent(x.entries[k], y.entries[k])
    case _ => false
  }

  predicate SameOpt(a: Option<Node>, b: Option<Node>) {
    match (a, b)
    case (None, None) => true
    case (Some(x), Some(y)) => SameContent(x, y)
    case _ => false
  }

  lemma {:induction false} SameReflexive(a: Node)
    ensures SameContent(a, a)
  {
    if a.Dir? {
      forall k | k in a.children.entries ensures SameContent(a.children.entries[k], a.children.entries[k]) {
        SameReflexive(a.children.entries[k]);
      }
    }
  }

  /** Equal size and every key matched leaves no key over. */
  lemma SameKeys(x: Folder, y: Folder)
    requires |x.entries| == |y.entries| && forall k :: k in x.entries ==> k in y.entries
    ensures x.entries.Keys == y.entries.Keys
  {
    assert x.entries.Keys <= y.entries.Keys;
    if x.entries.Keys != y.entries.Keys {
      var k :| k in y.entries.Keys && k !in x.entries.Keys;
      Subset(x.entries.Keys + {k}, y.entries.Keys);
    }
  }

  lemma {:induction false} SameSymmetric(a: Node, b: Node)
    requires SameContent(a, b)
    ensures SameContent(b, a)
  {
    if a.Dir? {
      SameKeys(a.children, b.children);
      forall k | k in b.children.entries
        ensures k in a.children.entries && SameContent(b.children.entries[k], a.children.entries[k])
      {
        assert k in a.children.entries.Keys;
        SameSymmetric(a.children.entries[k], b.children.entries[k]);
      }
    }
  }

  lemma {:induction false} SameTransitive(a: Node, b: Node, c: Node)
    requires SameContent(a, b) && SameContent(b, c)
    ensures SameContent(a, c)
  {
    if a.Dir? {
      forall k | k in a.children.entries
        ensures k in c.children.entries && SameContent(a.children.entries[k], c.children.entries[k])
      {
        SameTransitive(a.children.entries[k], b.children.entries[k], c.children.entries[k]);
      }
    }
  }

  // ---- one name ----

  function Pick3(base: Option<nat>, ours: nat, theirs: nat): nat {
    if ours == theirs || base != Some(ours) then ours else theirs
  }

  function ModeOf(n: Option<Node>): Option<nat> {
    if n.Some? then Some(n.value.mode) else None
  }

  function WithMode(n: Node, mode: U32): Node {
    n.(mode := mode)
  }

  function Classify(b: Option<Node>, o: Option<Node>, t: Option<Node>): ConflictKind {
    if o.None? || t.None? then ModifyDelete
    else if o.value.File? != t.value.File? then TypeChange
    else if b.None? then AddAdd
    else ModifyModify
  }

  predicate BothDirs(o: Option<Node>, t: Option<Node>) {
    o.Some? && t.Some? && o.value.Dir? && t.value.Dir?
  }

  /** The two sides diverge: neither agrees with the other nor with the base. */
  predicate Clash(b: Option<Node>, o: Option<Node>, t: Option<Node>) {
    !BothDirs(o, t) && !SameOpt(o, t) && !SameOpt(t, b) && !SameOpt(o, b)
  }

  function BaseDir(b: Option<Node>): Folder {
    if b.Some? && b.value.Dir? then b.value.children else Folder(map[])
  }

  function JoinName(prefix: string, name: string): string {
    if prefix == "" then name else prefix + "/" + name
  }

  // ---- a directory ----

  ghost function AllNames(b: Folder, o: Folder, t: Folder): set<string> {
    b.entries.Keys + o.entries.Keys + t.entries.Keys
  }

  /** What the merge leaves under `name` itself. */
  ghost function Settled(prefix: string, b: Folder, o: Folder, t: Folder, tag: string, name: string): Option<Node>
    decreases o, 0, 0
  {
    var (bn, on, tn) := (Get(b, name), Get(o, name), Get(t, name));
    if BothDirs(on, tn) then
      var sub := MergeDir(JoinName(prefix, name), BaseDir(bn), on.value.children, tn.value.children, tag);
      Some(Dir(Pick3(ModeOf(bn), on.value.mode, tn.value.mode), on.value.mtime, on.value.salt, sub.tree))
    else if SameOpt(on, tn) || SameOpt(tn, bn) then
      if on.None? then None
      else Some(WithMode(on.value, if tn.None? then on.value.mode else Pick3(ModeOf(bn), on.value.mode, tn.value.mode)))
    else if SameOpt(on, bn) then
      if tn.None? then None
      else Some(WithMode(tn.value, if on.None? then tn.value.mode else Pick3(ModeOf(bn), on.value.mode, tn.value.mode)))
    else on
  }

  ghost function ConflictsAt(prefix: string, b: Folder, o: Folder, t: Folder, tag: string, name: string): seq<Conflict>
    decreases o, 0, 0
  {
    var (bn, on, tn) := (Get(b, name), Get(o, name), Get(t, name));
    if BothDirs(on, tn) then
      MergeDir(JoinName(prefix, name), BaseDir(bn), on.value.children, tn.value.children, tag).conflicts
    else if Clash(bn, on, tn) then [Conflict(JoinName(prefix, name), Classify(bn, on, tn))]
    else []
  }

  /** `merge_dir` over a whole directory. */
  ghost function MergeDir(prefix: string, b: Folder, o: Folder, t: Folder, tag: string): Merged
    decreases o, 2, 0
  {
    MergeNames(prefix, b, o, t, tag, Sorted(AllNames(b, o, t)))
  }

  /** The loop after the names `done`, in order. */
  ghost function MergeNames(prefix: string, b: Folder, o: Folder, t: Folder, tag: string, done: seq<string>): Merged
    decreases o, 1, |done|
  {
    if done == [] then Merged(Folder(map[]), [])
    else
      Step(prefix, b, o, t, tag, done[|done| - 1], MergeNames(prefix, b, o, t, tag, done[..|done| - 1]))
  }

  /** One name of the loop: its settled node, their copy if the sides diverge, and its conflicts. */
  ghost function Step(prefix: string, b: Folder, o: Folder, t: Folder, tag: string, name: string, out: Merged): Merged
    decreases o, 0, 1
  {
    var kept := Settled(prefix, b, o, t, tag, name);
    var tree := if kept.Some? then Put(out.tree, name, kept.value) else out.tree;
    Merged(if HasCopy(b, o, t, name)
           then Put(tree, FreeName(name, tag, AllNames(b, o, t) + tree.entries.Keys), t.entries[name])
           else tree,
           out.conflicts + ConflictsAt(prefix, b, o, t, tag, name))
  }

  /** Their side of a divergence is kept beside ours. */
  predicate HasCopy(b: Folder, o: Folder, t: Folder, name: string) {
    name in t.entries && Clash(Get(b, name), Get(o, name), Get(t, name))
  }

  // ---- what the loop leaves, name by name ----

  ghost function Kept(prefix: string, b: Folder, o: Folder, t: Folder, tag: string, name: string,
                      tree: Folder): Folder {
    var kept := Settled(prefix, b, o, t, tag, name);
    if kept.Some? then Put(tree, name, kept.value) else tree
  }

  /** The keep-both name of each diverged name their side still holds. */
  ghost function Copies(prefix: string, b: Folder, o: Folder, t: Folder, tag: string, done: seq<string>)
    : map<string, string>
  {
    if done == [] then map[]
    else
      var (init, name) := (done[..|done| - 1], done[|done| - 1]);
      var rest := Copies(prefix, b, o, t, tag, init);
      if !HasCopy(b, o, t, name) then rest
      else
        var tree := Kept(prefix, b, o, t, tag, name, MergeNames(prefix, b, o, t, tag, init).tree);
        rest[name := FreeName(name, tag, AllNames(b, o, t) + tree.entries.Keys)]
  }

  /** `c` is a keep-both name of `name`, found within `tries` attempts. */
  ghost predicate CopyName(name: string, tag: string, c: string, tries: nat) {
    exists k: nat :: k <= tries && c == Candidate(name, tag, k)
  }

  ghost predicate CopyRight(all: set<string>, t: Folder, tag: string, out: Folder, n: string, c: string) {
    n in t.entries && c !in all && Get(out, c) == Some(t.entries[n]) && CopyName(n, tag, c, 4 * |all| + 2)
  }

  ghost predicate CopiesRight(all: set<string>, t: Folder, tag: string, out: Folder, copies: map<string, string>) {
    forall n :: n in copies ==> CopyRight(all, t, tag, out, n, copies[n])
  }

  ghost predicate Injective(copies: map<string, string>) {
    forall n, m :: n in copies && m in copies && copies[n] == copies[m] ==> n == m
  }

  ghost predicate NamesRight(prefix: string, b: Folder, o: Folder, t: Folder, tag: string, done: seq<string>,
                             out: Folder) {
    forall n :: n in AllNames(b, o, t) ==> Get(out, n) == if n in done then Settled(prefix, b, o, t, tag, n) else None
  }

  ghost predicate Distinct(s: seq<string>) {
    forall i, j :: 0 <= i < j < |s| ==> s[i] != s[j]
  }

  /**
   Nothing is overwritten: each name holds what was settled for it, each diverged name of theirs
   has a copy of its own outside all names in play, and there is nothing else.
   */
  ghost predicate Shaped(prefix: string, b: Folder, o: Folder, t: Folder, tag: string, done: seq<string>,
                         out: Folder, copies: map<string, string>) {
    && (forall n :: n in copies <==> n in done && HasCopy(b, o, t, n))
    && CopiesRight(AllNames(b, o, t), t, tag, out, copies)
    && Injective(copies)
    && NamesRight(prefix, b, o, t, tag, done, out)
    && (forall k :: k in out.entries ==> k in AllNames(b, o, t) || k in copies.Values)
  }

  lemma {:induction false} Shape(prefix: string, b: Folder, o: Folder, t: Folder, tag: string, done: seq<string>)
    requires Distinct(done) && forall n :: n in done ==> n in AllNames(b, o, t)
    ensures Shaped(prefix, b, o, t, tag, done, MergeNames(prefix, b, o, t, tag, done).tree,
                   Copies(prefix, b, o, t, tag, done))
    decreases |done|
  {
    if done == [] {
      hide Settled;
    } else {
      hide Settled, ConflictsAt, HasCopy, FreeName, Shaped, AllNames;
      var (init, name) := (done[..|done| - 1], done[|done| - 1]);
      InitMembers(done);
      Shape(prefix, b, o, t, tag, init);
      var out := MergeNames(prefix, b, o, t, tag, init).tree;
      var copies := Copies(prefix, b, o, t, tag, init);
      var tree := Kept(prefix, b, o, t, tag, name, out);
      if HasCopy(b, o, t, name) {
        CopyStep(prefix, b, o, t, tag, init, name, out, copies);
      } else {
        PlainStep(prefix, b, o, t, tag, init, name, out, copies);
      }
      assert done == init + [name];
    }
  }

  lemma InitMembers(done: seq<string>)
    requires Distinct(done) && done != []
    ensures Distinct(done[..|done| - 1])
    ensures forall n :: n in done <==> n in done[..|done| - 1] || n == done[|done| - 1]
    ensures done[|done| - 1] !in done[..|done| - 1]
  {
  }

  lemma ValuesGrow(copies: map<string, string>, name: string, c: string)
    requires name !in copies
    ensures copies.Values <= copies[name := c].Values && c in copies[name := c].Values
  {
    forall v | v in copies.Values ensures v in copies[name := c].Values {
      var n :| n in copies && copies[n] == v;
      assert copies[name := c][n] == v;
    }
    assert copies[name := c][name] == c;
  }

  lemma HasCopyMeans(b: Folder, o: Folder, t: Folder, name: string)
    requires HasCopy(b, o, t, name)
    ensures name in t.entries
  {
  }

  lemma KeptRight(prefix: string, b: Folder, o: Folder, t: Folder, tag: string, init: seq<string>, name: string,
                  out: Folder, copies: map<string, string>)
    requires name in AllNames(b, o, t) && name !in init
    requires Shaped(prefix, b, o, t, tag, init, out, copies)
    ensures var tree := Kept(prefix, b, o, t, tag, name, out);
            CopiesRight(AllNames(b, o, t), t, tag, tree, copies) &&
            NamesRight(prefix, b, o, t, tag, init + [name], tree) &&
            forall k :: k in tree.entries ==> k in AllNames(b, o, t) || k in copies.Values
  {
    hide Settled, AllNames, CopyName;
    var tree := Kept(prefix, b, o, t, tag, name, out);
    forall n | n in copies ensures CopyRight(AllNames(b, o, t), t, tag, tree, n, copies[n]) {
      assert CopyRight(AllNames(b, o, t), t, tag, out, n, copies[n]);
    }
  }

  lemma PlainStep(prefix: string, b: Folder, o: Folder, t: Folder, tag: string, init: seq<string>, name: string,
                  out: Folder, copies: map<string, string>)
    requires name in AllNames(b, o, t) && name !in init && !HasCopy(b, o, t, name)
    requires Shaped(prefix, b, o, t, tag, init, out, copies)
    ensures Shaped(prefix, b, o, t, tag, init + [name], Kept(prefix, b, o, t, tag, name, out), copies)
  {
    KeptRight(prefix, b, o, t, tag, init, name, out, copies);
    hide Settled, AllNames, CopiesRight, HasCopy, Kept, NamesRight;
  }

  lemma CopyStep(prefix: string, b: Folder, o: Folder, t: Folder, tag: string, init: seq<string>, name: string,
                 out: Folder, copies: map<string, string>)
    requires name in AllNames(b, o, t) && name !in init && HasCopy(b, o, t, name)
    requires forall n :: n in init ==> n in AllNames(b, o, t)
    requires Shaped(prefix, b, o, t, tag, init, out, copies)
    ensures var tree := Kept(prefix, b, o, t, tag, name, out);
            var c := FreeName(name, tag, AllNames(b, o, t) + tree.entries.Keys);
            name in t.entries && Shaped(prefix, b, o, t, tag, init + [name], Put(tree, c, t.entries[name]),
                                        copies[name := c])
  {
    hide Settled, AllNames, CopiesRight, HasCopy, Kept, FreeName, Injective, CopyName, NamesRight;
    KeptRight(prefix, b, o, t, tag, init, name, out, copies);
    var tree := Kept(prefix, b, o, t, tag, name, out);
    var all := AllNames(b, o, t);
    var c := FreeName(name, tag, all + tree.entries.Keys);
    HasCopyMeans(b, o, t, name);
    CopyBound(b, o, t, tag, name, tree, copies);
    CopyPlaced(all, t, tag, name, tree, copies, c);
    ValuesGrow(copies, name, c);
    NamesKept(prefix, b, o, t, tag, init + [name], tree, c, t.entries[name]);
  }

  lemma NamesKept(prefix: string, b: Folder, o: Folder, t: Folder, tag: string, done: seq<string>, tree: Folder,
                  c: string, n: Node)
    requires NamesRight(prefix, b, o, t, tag, done, tree) && c !in AllNames(b, o, t)
    ensures NamesRight(prefix, b, o, t, tag, done, Put(tree, c, n))
  {
    hide Settled, AllNames;
  }

  lemma CopyPlaced(all: set<string>, t: Folder, tag: string, name: string, tree: Folder, copies: map<string, string>,
                   c: string)
    requires CopiesRight(all, t, tag, tree, copies) && Injective(copies)
    requires name !in copies && name in t.entries
    requires c !in all && c !in tree.entries && CopyName(name, tag, c, 4 * |all| + 2)
    ensures CopiesRight(all, t, tag, Put(tree, c, t.entries[name]), copies[name := c])
    ensures Injective(copies[name := c])
  {
    hide CopyName;
    forall n | n in copies
      ensures copies[n] != c && CopyRight(all, t, tag, Put(tree, c, t.entries[name]), n, copies[n])
    {
      assert CopyRight(all, t, tag, tree, n, copies[n]);
    }
  }

  lemma {:induction false} ValuesFew(m: map<string, string>)
    ensures |m.Values| <= |m.Keys|
  {
    if m.Keys != {} {
      var n :| n in m.Keys;
      var rest := m - {n};
      ValuesFew(rest);
      assert rest.Keys == m.Keys - {n};
      assert m.Values <= rest.Values + {m[n]} by {
        forall v | v in m.Values ensures v in rest.Values + {m[n]} {
          var k :| k in m && m[k] == v;
          assert k != n ==> rest[k] == v;
        }
      }
      Subset(m.Values, rest.Values + {m[n]});
    }
    else { assert m.Values == {}; }
  }

  lemma CopyBound(b: Folder, o: Folder, t: Folder, tag: string, name: string, tree: Folder, copies: map<string, string>)
    requires forall k :: k in tree.entries ==> k in AllNames(b, o, t) || k in copies.Values
    requires forall n :: n in copies ==> n in AllNames(b, o, t)
    ensures CopyName(name, tag, FreeName(name, tag, AllNames(b, o, t) + tree.entries.Keys), 4 * |AllNames(b, o, t)| + 2)
  {
    hide FreeName, Candidate;
    var all := AllNames(b, o, t);
    var taken := all + tree.entries.Keys;
    hide AllNames;
    ValuesFew(copies);
    Subset(copies.Keys, all);
    Subset(taken, all + copies.Values);
    var k := FreeNameIsCandidate(name, tag, taken);
  }

  /** The whole directory at once. */
  lemma DirShape(prefix: string, b: Folder, o: Folder, t: Folder, tag: string) returns (copies: map<string, string>)
    ensures var out := MergeDir(prefix, b, o, t, tag).tree;
            && (forall n :: n in copies <==> HasCopy(b, o, t, n))
            && CopiesRight(AllNames(b, o, t), t, tag, out, copies) && Injective(copies)
            && (forall n :: n in AllNames(b, o, t) ==> Get(out, n) == Settled(prefix, b, o, t, tag, n))
            && (forall k :: k in out.entries ==> k in AllNames(b, o, t) || k in copies.Values)
  {
    var done := Sorted(AllNames(b, o, t));
    SortedLists(AllNames(b, o, t));
    assert Distinct(done) by { AscendingDistinct(done); }
    copies := Copies(prefix, b, o, t, tag, done);
    hide Settled, Sorted;
    Shape(prefix, b, o, t, tag, done);
  }

  lemma AscendingDistinct(s: seq<string>)
    requires Ascending(s)
    ensures Distinct(s)
  {
    hide Less;
    forall i, j | 0 <= i < j < |s| ensures s[i] != s[j] {
      LessTotal(s[i], s[j]);
    }
  }

  // ---- the loop itself ----

  /** `merge_dir`: one pass over the sorted names, recursing where both sides hold a directory. */
  method MergeInto(prefix: string, b: Folder, o: Folder, t: Folder, tag: string) returns (out: Merged)
    ensures out == MergeDir(prefix, b, o, t, tag)
    decreases o, 1
  {
    hide Step;
    var all := b.entries.Keys + o.entries.Keys + t.entries.Keys;
    var names := ListSorted(all);
    out := Merged(Folder(map[]), []);
    var i := 0;
    while i < |names|
      invariant 0 <= i <= |names|
      invariant out == MergeNames(prefix, b, o, t, tag, names[..i])
    {
      assert names[..i + 1][..i] == names[..i];
      out := MergeName(prefix, b, o, t, tag, all, names[i], out);
      i := i + 1;
    }
    assert names[..i] == names;
  }

  /** One name of the loop. */
  method MergeName(prefix: string, b: Folder, o: Folder, t: Folder, tag: string, all: set<string>, name: string,
                   before: Merged)
    returns (out: Merged)
    requires all == AllNames(b, o, t)
    ensures out == Step(prefix, b, o, t, tag, name, before)
    decreases o, 0
  {
    hide MergeDir, FreeName, SameContent, AllNames;
    var path := JoinName(prefix, name);
    var (bn, on, tn) := (Get(b, name), Get(o, name), Get(t, name));
    out := before;
    if BothDirs(on, tn) {
      var sub := MergeInto(path, BaseDir(bn), on.value.children, tn.value.children, tag);
      var mode := Pick3(ModeOf(bn), on.value.mode, tn.value.mode);
      out := Merged(Put(out.tree, name, Dir(mode, on.value.mtime, on.value.salt, sub.tree)),
                    out.conflicts + sub.conflicts);
    } else if SameOpt(on, tn) || SameOpt(tn, bn) {
      if on.Some? {
        var mode := if tn.None? then on.value.mode else Pick3(ModeOf(bn), on.value.mode, tn.value.mode);
        out := Merged(Put(out.tree, name, WithMode(on.value, mode)), out.conflicts);
      }
    } else if SameOpt(on, bn) {
      if tn.Some? {
        var mode := if on.None? then tn.value.mode else Pick3(ModeOf(bn), on.value.mode, tn.value.mode);
        out := Merged(Put(out.tree, name, WithMode(tn.value, mode)), out.conflicts);
      }
    } else {
      var tree := if on.Some? then Put(out.tree, name, on.value) else out.tree;
      if tn.Some? {
        var c := FreeConflictName(name, tag, all, tree.entries.Keys);
        tree := Put(tree, c, tn.value);
      }
      out := Merged(tree, out.conflicts + [Conflict(path, Classify(bn, on, tn))]);
    }
  }

  /** `three_way_merge`. */
  method ThreeWayMerge(b: Folder, o: Folder, t: Folder, tag: string) returns (out: Merged)
    ensures out == MergeDir("", b, o, t, tag)
  {
    out := MergeInto("", b, o, t, tag);
  }
}
