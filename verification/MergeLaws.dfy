/** What the merge promises at every path: nothing is lost, nothing is invented, agreement is quiet. */
module MergeLaws {
  import opened Prelude
  import opened Frame
  import opened Canon
  import opened Names
  import Paths
  import opened Merge

  type Path = seq<string>

  /** The file at path `p` inside an optional node. */
  function FileIn(n: Option<Node>, p: Path): (r: Option<Node>)
    ensures r.Some? ==> r.value.File?
    decreases |p|
  {
    if n.None? then None
    else if p == [] then if n.value.File? then n else None
    else if n.value.Dir? then FileIn(Get(n.value.children, p[0]), p[1..])
    else None
  }

  /** The file at path `p` of a directory. */
  function FileAt(f: Folder, p: Path): (r: Option<Node>)
    ensures r.Some? ==> r.value.File?
  {
    if p == [] then None else FileIn(Get(f, p[0]), p[1..])
  }

  function Content(n: Option<Node>): Option<seq<Hash>> {
    if n.Some? && n.value.File? then Some(n.value.chunks) else None
  }

  /** Equal up to the permission bits. */
  predicate AlikeButMode(a: Option<Node>, b: Option<Node>) {
    a.Some? == b.Some? && (a.Some? ==> WithMode(a.value, 0) == WithMode(b.value, 0))
  }

  lemma {:induction false} SameIn(a: Option<Node>, b: Option<Node>, p: Path)
    requires SameOpt(a, b)
    ensures Content(FileIn(a, p)) == Content(FileIn(b, p))
    decreases |p|
  {
    if a.Some? && a.value.Dir? && p != [] {
      var (x, y) := (a.value.children, b.value.children);
      SameKeys(x, y);
      assert p[0] in x.entries.Keys <==> p[0] in y.entries.Keys;
      SameIn(Get(x, p[0]), Get(y, p[0]), p[1..]);
    }
  }

  lemma ModeIn(n: Node, mode: U32, p: Path)
    ensures AlikeButMode(FileIn(Some(WithMode(n, mode)), p), FileIn(Some(n), p))
    ensures Content(FileIn(Some(WithMode(n, mode)), p)) == Content(FileIn(Some(n), p))
  {
  }

  lemma BelowBase(b: Option<Node>, p: Path)
    requires p != []
    ensures FileIn(b, p) == FileAt(BaseDir(b), p)
  {
  }

  /** Under two directories everything happens one level down. */
  lemma Descends(prefix: string, b: Folder, o: Folder, t: Folder, tag: string, name: string, q: Path)
    requires BothDirs(Get(o, name), Get(t, name))
    ensures var sub := MergeDir(JoinName(prefix, name), BaseDir(Get(b, name)), o.entries[name].children,
                                t.entries[name].children, tag);
            FileAt(MergeDir(prefix, b, o, t, tag).tree, [name] + q) == FileAt(sub.tree, q)
    ensures FileAt(o, [name] + q) == FileAt(o.entries[name].children, q)
    ensures FileAt(t, [name] + q) == FileAt(t.entries[name].children, q)
    ensures q != [] ==> FileAt(b, [name] + q) == FileAt(BaseDir(Get(b, name)), q)
  {
    var copies := DirShape(prefix, b, o, t, tag);
    hide MergeDir;
    assert ([name] + q)[1..] == q;
  }

  // ---- nothing is lost ----

  /** What is settled under a name, away from two directories: our changed file stays. */
  lemma SettledOurs(prefix: string, b: Folder, o: Folder, t: Folder, tag: string, name: string, p: Path)
    requires !BothDirs(Get(o, name), Get(t, name))
    requires Content(FileIn(Get(o, name), p)) != Content(FileIn(Get(b, name), p))
    ensures AlikeButMode(FileIn(Settled(prefix, b, o, t, tag, name), p), FileIn(Get(o, name), p)) ||
            FileIn(Get(o, name), p).None?
  {
    var (bn, on, tn) := (Get(b, name), Get(o, name), Get(t, name));
    var s := Settled(prefix, b, o, t, tag, name);
    if SameOpt(on, bn) { SameIn(on, bn, p); }
    if on.Some? && s.Some? && s == Some(WithMode(on.value, s.value.mode)) { ModeIn(on.value, s.value.mode, p); }
  }

  /** Each file of ours that differs from the base at its path is still there, up to its mode. */
  lemma {:induction false} OursSurvive(prefix: string, b: Folder, o: Folder, t: Folder, tag: string, p: Path)
    requires FileAt(o, p).Some? && Content(FileAt(o, p)) != Content(FileAt(b, p))
    ensures AlikeButMode(FileAt(MergeDir(prefix, b, o, t, tag).tree, p), FileAt(o, p))
    decreases |p|
  {
    var name := p[0];
    assert p == [name] + p[1..];
    if BothDirs(Get(o, name), Get(t, name)) {
      Descends(prefix, b, o, t, tag, name, p[1..]);
      OursSurvive(JoinName(prefix, name), BaseDir(Get(b, name)), o.entries[name].children, t.entries[name].children,
                  tag, p[1..]);
    } else {
      var copies := DirShape(prefix, b, o, t, tag);
      SettledOurs(prefix, b, o, t, tag, name, p[1..]);
    }
  }

  /** `q` is `p` with one component replaced by a keep-both name of it. */
  ghost predicate Renamed(tag: string, p: Path, q: Path) {
    |p| == |q| && exists i :: 0 <= i < |p| && RenamedAt(tag, p, q, i)
  }

  ghost predicate RenamedAt(tag: string, p: Path, q: Path, i: nat)
    requires i < |p| == |q|
  {
    q == p[i := q[i]] && q[i] != p[i] && exists k :: q[i] == Candidate(p[i], tag, k)
  }

  lemma RenamedBelow(tag: string, name: string, p: Path, q: Path)
    requires Renamed(tag, p, q)
    ensures Renamed(tag, [name] + p, [name] + q)
  {
    hide Candidate;
    var i :| 0 <= i < |p| && RenamedAt(tag, p, q, i);
    var (p', q') := ([name] + p, [name] + q);
    assert q' == p'[i + 1 := q'[i + 1]];
    assert p'[i + 1] == p[i] && q'[i + 1] == q[i];
    assert RenamedAt(tag, p', q', i + 1);
  }

  lemma RenamedLength(tag: string, p: Path, q: Path)
    requires Renamed(tag, p, q)
    ensures |q| == |p| && q != []
  {
  }

  lemma RenamedHere(tag: string, p: Path, c: string, tries: nat)
    requires p != [] && CopyName(p[0], tag, c, tries) && c != p[0]
    ensures Renamed(tag, p, [c] + p[1..])
  {
    hide Candidate;
    assert RenamedAt(tag, p, [c] + p[1..], 0);
  }

  lemma SettledTheirs(prefix: string, b: Folder, o: Folder, t: Folder, tag: string, name: string, p: Path)
    requires !BothDirs(Get(o, name), Get(t, name)) && !HasCopy(b, o, t, name)
    requires FileIn(Get(t, name), p).Some? && Content(FileIn(Get(t, name), p)) != Content(FileIn(Get(b, name), p))
    ensures Content(FileIn(Settled(prefix, b, o, t, tag, name), p)) == Content(FileIn(Get(t, name), p))
  {
    var (bn, on, tn) := (Get(b, name), Get(o, name), Get(t, name));
    var s := Settled(prefix, b, o, t, tag, name);
    if SameOpt(tn, bn) { SameIn(tn, bn, p); }
    if SameOpt(on, tn) {
      SameIn(on, tn, p);
      ModeIn(on.value, s.value.mode, p);
    } else {
      ModeIn(tn.value, s.value.mode, p);
    }
  }

  /** Each file of theirs that differs from the base survives there, or under a keep-both name of one component. */
  lemma {:induction false} TheirsSurvive(prefix: string, b: Folder, o: Folder, t: Folder, tag: string, p: Path)
    returns (q: Path)
    requires FileAt(t, p).Some? && Content(FileAt(t, p)) != Content(FileAt(b, p))
    ensures var out := MergeDir(prefix, b, o, t, tag).tree;
            || (q == p && Content(FileAt(out, q)) == Content(FileAt(t, p)))
            || (Renamed(tag, p, q) && FileAt(out, q) == FileAt(t, p) && FileAt(o, q).None? && FileAt(t, q).None? &&
                 FileAt(b, q).None?)
    decreases |p|
  {
    hide MergeDir, Settled, CopyName, Renamed, HasCopy;
    var name := p[0];
    assert p == [name] + p[1..];
    if BothDirs(Get(o, name), Get(t, name)) {
      hide FileAt;
      Descends(prefix, b, o, t, tag, name, p[1..]);
      var q' := TheirsSurvive(JoinName(prefix, name), BaseDir(Get(b, name)), o.entries[name].children,
                              t.entries[name].children, tag, p[1..]);
      q := [name] + q';
      Descends(prefix, b, o, t, tag, name, q');
      if Renamed(tag, p[1..], q') {
        RenamedBelow(tag, name, p[1..], q');
        RenamedLength(tag, p[1..], q');
      }
    } else if HasCopy(b, o, t, name) {
      var copies := DirShape(prefix, b, o, t, tag);
      var c := copies[name];
      assert CopyRight(AllNames(b, o, t), t, tag, MergeDir(prefix, b, o, t, tag).tree, name, c);
      q := [c] + p[1..];
      assert q[1..] == p[1..];
      RenamedHere(tag, p, c, 4 * |AllNames(b, o, t)| + 2);
    } else {
      q := p;
      var copies := DirShape(prefix, b, o, t, tag);
      SettledTheirs(prefix, b, o, t, tag, name, p[1..]);
    }
  }

  // ---- nothing is invented ----

  lemma SettledFrom(prefix: string, b: Folder, o: Folder, t: Folder, tag: string, name: string, p: Path)
    requires !BothDirs(Get(o, name), Get(t, name))
    ensures var s := FileIn(Settled(prefix, b, o, t, tag, name), p);
            AlikeButMode(s, FileIn(Get(o, name), p)) || AlikeButMode(s, FileIn(Get(t, name), p))
  {
    var (on, tn) := (Get(o, name), Get(t, name));
    var s := Settled(prefix, b, o, t, tag, name);
    if s.Some? {
      if on.Some? && s == Some(WithMode(on.value, s.value.mode)) { ModeIn(on.value, s.value.mode, p); }
      if tn.Some? && s == Some(WithMode(tn.value, s.value.mode)) { ModeIn(tn.value, s.value.mode, p); }
    }
  }

  /** Every file of the result comes from ours or theirs at that path, or is a keep-both copy of theirs. */
  lemma {:induction false} NothingInvented(prefix: string, b: Folder, o: Folder, t: Folder, tag: string, q: Path)
    returns (p: Path)
    requires FileAt(MergeDir(prefix, b, o, t, tag).tree, q).Some?
    ensures var f := FileAt(MergeDir(prefix, b, o, t, tag).tree, q);
            || AlikeButMode(f, FileAt(o, q))
            || AlikeButMode(f, FileAt(t, q))
            || (Renamed(tag, p, q) && FileAt(t, p) == f)
    decreases |q|
  {
    hide MergeDir, Settled, CopyName, Renamed, HasCopy, AlikeButMode, SameContent;
    var name := q[0];
    assert q == [name] + q[1..];
    p := q;
    if BothDirs(Get(o, name), Get(t, name)) {
      hide FileAt;
      Descends(prefix, b, o, t, tag, name, q[1..]);
      var p' := NothingInvented(JoinName(prefix, name), BaseDir(Get(b, name)), o.entries[name].children,
                                t.entries[name].children, tag, q[1..]);
      p := [name] + p';
      Descends(prefix, b, o, t, tag, name, p');
      if Renamed(tag, p', q[1..]) { RenamedBelow(tag, name, p', q[1..]); }
    } else {
      var copies := DirShape(prefix, b, o, t, tag);
      if name in AllNames(b, o, t) {
        SettledFrom(prefix, b, o, t, tag, name, q[1..]);
      } else {
        p := CopySource(b, o, t, tag, MergeDir(prefix, b, o, t, tag).tree, copies, q);
      }
    }
  }

  /** A file under a name no side had is a copy of one of theirs. */
  lemma CopySource(b: Folder, o: Folder, t: Folder, tag: string, out: Folder, copies: map<string, string>, q: Path)
    returns (p: Path)
    requires q != [] && q[0] !in AllNames(b, o, t) && q[0] in copies.Values
    requires CopiesRight(AllNames(b, o, t), t, tag, out, copies)
    ensures Renamed(tag, p, q) && FileAt(t, p) == FileAt(out, q)
  {
    hide CopyName, Renamed, FileIn, AllNames;
    var (c, rest, tries) := (q[0], q[1..], 4 * |AllNames(b, o, t)| + 2);
    var n :| n in copies && copies[n] == c;
    assert CopyRight(AllNames(b, o, t), t, tag, out, n, c);
    TheirName(b, o, t, n);
    p := [n] + rest;
    assert p[1..] == rest && q == [c] + rest;
    RenamedHere(tag, p, c, tries);
  }

  lemma TheirName(b: Folder, o: Folder, t: Folder, n: string)
    requires n in t.entries
    ensures n in AllNames(b, o, t)
  {
  }

  // ---- without conflicts ----

  lemma {:induction false} ConflictsOfNames(prefix: string, b: Folder, o: Folder, t: Folder, tag: string,
                                            done: seq<string>)
    ensures MergeNames(prefix, b, o, t, tag, done).conflicts == [] <==>
            forall n :: n in done ==> ConflictsAt(prefix, b, o, t, tag, n) == []
    decreases |done|
  {
    hide Settled, ConflictsAt, FreeName, HasCopy;
    if done != [] {
      var (init, name) := (done[..|done| - 1], done[|done| - 1]);
      ConflictsOfNames(prefix, b, o, t, tag, init);
      assert forall n :: n in done <==> n in init || n == name;
      assert |MergeNames(prefix, b, o, t, tag, done).conflicts|
          == |MergeNames(prefix, b, o, t, tag, init).conflicts| + |ConflictsAt(prefix, b, o, t, tag, name)|;
    }
  }

  /** A directory merges quietly exactly when each of its names does, and is then just its settled names. */
  lemma Quiet(prefix: string, b: Folder, o: Folder, t: Folder, tag: string)
    ensures var m := MergeDir(prefix, b, o, t, tag);
            && (m.conflicts == [] <==> forall n :: n in AllNames(b, o, t) ==>
                 ConflictsAt(prefix, b, o, t, tag, n) == [])
            && (m.conflicts == [] ==> forall n :: Get(m.tree, n) == Settled(prefix, b, o, t, tag, n))
  {
    hide Settled, ConflictsAt, HasCopy, Sorted, AllNames;
    var all := AllNames(b, o, t);
    SortedLists(all);
    ConflictsOfNames(prefix, b, o, t, tag, Sorted(all));
    var m := MergeDir(prefix, b, o, t, tag);
    if m.conflicts == [] {
      var copies := DirShape(prefix, b, o, t, tag);
      forall n ensures n !in copies {
        NoCopy(prefix, b, o, t, tag, n);
      }
      assert copies.Values == {};
      forall n ensures Get(m.tree, n) == Settled(prefix, b, o, t, tag, n) {
        NoCopy(prefix, b, o, t, tag, n);
      }
    }
  }

  lemma NoCopy(prefix: string, b: Folder, o: Folder, t: Folder, tag: string, n: string)
    ensures n !in AllNames(b, o, t) ==>
              ConflictsAt(prefix, b, o, t, tag, n) == [] && Settled(prefix, b, o, t, tag, n) == None &&
                !HasCopy(b, o, t, n)
    ensures ConflictsAt(prefix, b, o, t, tag, n) == [] ==> !HasCopy(b, o, t, n)
  {
    hide MergeDir;
  }

  lemma FolderEqual(x: Folder, y: Folder)
    requires forall n :: Get(x, n) == Get(y, n)
    ensures x == y
  {
    forall n ensures n in x.entries <==> n in y.entries {
      assert Get(x, n) == Get(y, n);
    }
    forall n | n in x.entries ensures x.entries[n] == y.entries[n] {
      assert Get(x, n) == Get(y, n);
    }
    assert x.entries == y.entries;
  }

  /** The three-way pick of one path's contents. */
  function Pick<T(==)>(b: T, o: T, t: T): T {
    if o == t || t == b then o else t
  }

  lemma SettledPick(prefix: string, b: Folder, o: Folder, t: Folder, tag: string, name: string, p: Path)
    requires !BothDirs(Get(o, name), Get(t, name)) && ConflictsAt(prefix, b, o, t, tag, name) == []
    ensures var (x, y, z) := (Content(FileIn(Get(b, name), p)), Content(FileIn(Get(o, name), p)),
                              Content(FileIn(Get(t, name), p)));
            Content(FileIn(Settled(prefix, b, o, t, tag, name), p)) == Pick(x, y, z) && (y == z || y == x || z == x)
  {
    var (bn, on, tn) := (Get(b, name), Get(o, name), Get(t, name));
    var s := Settled(prefix, b, o, t, tag, name);
    if SameOpt(on, tn) { SameIn(on, tn, p); }
    if SameOpt(tn, bn) { SameIn(tn, bn, p); }
    if SameOpt(on, bn) { SameIn(on, bn, p); }
    if s.Some? {
      ModeIn(if SameOpt(on, tn) || SameOpt(tn, bn) then on.value else tn.value, s.value.mode, p);
    }
  }

  /** Without conflicts the merge is the pointwise pick, and no path was changed two ways. */
  lemma {:induction false} PointwisePick(prefix: string, b: Folder, o: Folder, t: Folder, tag: string, p: Path)
    requires MergeDir(prefix, b, o, t, tag).conflicts == []
    ensures var (x, y, z) := (Content(FileAt(b, p)), Content(FileAt(o, p)), Content(FileAt(t, p)));
            Content(FileAt(MergeDir(prefix, b, o, t, tag).tree, p)) == Pick(x, y, z) && (y == z || y == x || z == x)
    decreases |p|
  {
    if p != [] {
      var name := p[0];
      Quiet(prefix, b, o, t, tag);
      NoCopy(prefix, b, o, t, tag, name);
      if BothDirs(Get(o, name), Get(t, name)) {
        if |p| > 1 {
          BelowBase(Get(b, name), p[1..]);
          PointwisePick(JoinName(prefix, name), BaseDir(Get(b, name)), o.entries[name].children,
                        t.entries[name].children, tag, p[1..]);
        }
      } else {
        SettledPick(prefix, b, o, t, tag, name, p[1..]);
      }
    }
  }

  /** Merging a tree with itself returns it, whatever the base. */
  lemma {:induction false} MergeSame(prefix: string, b: Folder, x: Folder, tag: string)
    ensures MergeDir(prefix, b, x, x, tag) == Merged(x, [])
    decreases x
  {
    forall n ensures ConflictsAt(prefix, b, x, x, tag, n) == [] && Settled(prefix, b, x, x, tag, n) == Get(x, n) {
      if n in x.entries {
        SameReflexive(x.entries[n]);
        if x.entries[n].Dir? {
          MergeSame(JoinName(prefix, n), BaseDir(Get(b, n)), x.entries[n].children, tag);
        }
      }
    }
    Quiet(prefix, b, x, x, tag);
    FolderEqual(MergeDir(prefix, b, x, x, tag).tree, x);
  }

  /** Merging in a side that did not move returns ours, exactly. */
  lemma {:induction false} TheirsUnchanged(prefix: string, b: Folder, o: Folder, tag: string)
    ensures MergeDir(prefix, b, o, b, tag) == Merged(o, [])
    decreases o
  {
    forall n ensures ConflictsAt(prefix, b, o, b, tag, n) == [] && Settled(prefix, b, o, b, tag, n) == Get(o, n) {
      if n in b.entries { SameReflexive(b.entries[n]); }
      if BothDirs(Get(o, n), Get(b, n)) {
        TheirsUnchanged(JoinName(prefix, n), b.entries[n].children, o.entries[n].children, tag);
      }
    }
    Quiet(prefix, b, o, b, tag);
    FolderEqual(MergeDir(prefix, b, o, b, tag).tree, o);
  }

  /** Same kind, mode and content throughout. */
  ghost predicate SameFace(a: Node, b: Node) {
    && a.mode == b.mode
    && (a.File? ==> b.File? && a.chunks == b.chunks)
    && (a.Dir? ==> b.Dir? && a.children.entries.Keys == b.children.entries.Keys &&
                   forall k :: k in a.children.entries ==>
                     k in b.children.entries && SameFace(a.children.entries[k], b.children.entries[k]))
  }

  ghost predicate SameFaceOpt(a: Option<Node>, b: Option<Node>) {
    a.Some? == b.Some? && (a.Some? ==> SameFace(a.value, b.value))
  }

  lemma {:induction false} FaceReflexive(a: Node)
    ensures SameFace(a, a)
  {
    if a.Dir? {
      forall k | k in a.children.entries ensures SameFace(a.children.entries[k], a.children.entries[k]) {
        FaceReflexive(a.children.entries[k]);
      }
    }
  }

  lemma FaceOfFolders(x: Folder, y: Folder, mode: U32, m: U64, s: Salt, m': U64, s': Salt)
    requires forall n :: SameFaceOpt(Get(x, n), Get(y, n))
    ensures SameFace(Node.Dir(mode, m, s, x), Node.Dir(mode, m', s', y))
  {
    forall n ensures n in x.entries <==> n in y.entries {
      assert SameFaceOpt(Get(x, n), Get(y, n));
    }
    forall n | n in x.entries ensures n in y.entries && SameFace(x.entries[n], y.entries[n]) {
      assert SameFaceOpt(Get(x, n), Get(y, n));
    }
  }

  /** When ours did not move, the result has their contents and modes, name for name. */
  lemma {:induction false} OursUnchanged(prefix: string, b: Folder, t: Folder, tag: string)
    ensures MergeDir(prefix, b, b, t, tag).conflicts == []
    ensures forall n :: SameFaceOpt(Get(MergeDir(prefix, b, b, t, tag).tree, n), Get(t, n))
    decreases b
  {
    forall n
      ensures ConflictsAt(prefix, b, b, t, tag, n) == []
      ensures SameFaceOpt(Settled(prefix, b, b, t, tag, n), Get(t, n))
    {
      OursUnchangedAt(prefix, b, t, tag, n);
    }
    Quiet(prefix, b, b, t, tag);
  }

  lemma {:induction false} OursUnchangedAt(prefix: string, b: Folder, t: Folder, tag: string, n: string)
    ensures ConflictsAt(prefix, b, b, t, tag, n) == [] && SameFaceOpt(Settled(prefix, b, b, t, tag, n), Get(t, n))
    decreases b, 0
  {
    var (bn, tn) := (Get(b, n), Get(t, n));
    if bn.Some? { SameReflexive(bn.value); }
    if tn.Some? { FaceReflexive(tn.value); }
    if BothDirs(bn, tn) {
      var sub := JoinName(prefix, n);
      OursUnchanged(sub, bn.value.children, tn.value.children, tag);
      FaceOfFolders(MergeDir(sub, bn.value.children, bn.value.children, tn.value.children, tag).tree, tn.value.children,
                    tn.value.mode, bn.value.mtime, bn.value.salt, tn.value.mtime, tn.value.salt);
    } else if tn.Some? && tn.value.Dir? {
      FaceReflexive(tn.value);
    }
  }

  // ---- swapping the sides ----

  lemma SameOptSymmetric(a: Option<Node>, b: Option<Node>)
    ensures SameOpt(a, b) == SameOpt(b, a)
  {
    if SameOpt(a, b) && a.Some? { SameSymmetric(a.value, b.value); }
    if SameOpt(b, a) && b.Some? { SameSymmetric(b.value, a.value); }
  }

  lemma SwapConflictsAt(prefix: string, b: Folder, o: Folder, t: Folder, tag: string, tag': string, n: string)
    ensures ConflictsAt(prefix, b, o, t, tag, n) == ConflictsAt(prefix, b, t, o, tag', n)
    decreases o, 0
  {
    var (bn, on, tn) := (Get(b, n), Get(o, n), Get(t, n));
    SameOptSymmetric(on, tn);
    if BothDirs(on, tn) {
      SwapConflicts(JoinName(prefix, n), BaseDir(bn), on.value.children, tn.value.children, tag, tag');
    }
  }

  lemma {:induction false} SwapConflictsOf(prefix: string, b: Folder, o: Folder, t: Folder, tag: string, tag': string,
                                           done: seq<string>)
    ensures MergeNames(prefix, b, o, t, tag, done).conflicts == MergeNames(prefix, b, t, o, tag', done).conflicts
    decreases o, 1, |done|
  {
    hide Settled, ConflictsAt, FreeName, HasCopy;
    if done != [] {
      SwapConflictsOf(prefix, b, o, t, tag, tag', done[..|done| - 1]);
      SwapConflictsAt(prefix, b, o, t, tag, tag', done[|done| - 1]);
    }
  }

  /** Both devices report the same conflicts in the same order. */
  lemma SwapConflicts(prefix: string, b: Folder, o: Folder, t: Folder, tag: string, tag': string)
    ensures MergeDir(prefix, b, o, t, tag).conflicts == MergeDir(prefix, b, t, o, tag').conflicts
    decreases o, 2
  {
    assert AllNames(b, o, t) == AllNames(b, t, o);
    SwapConflictsOf(prefix, b, o, t, tag, tag', Sorted(AllNames(b, o, t)));
  }

  lemma SameFolders(x: Folder, y: Folder, m: U32, m': U32, a: U64, a': U64, s: Salt, s': Salt)
    requires forall n :: SameOpt(Get(x, n), Get(y, n))
    ensures SameContent(Node.Dir(m, a, s, x), Node.Dir(m', a', s', y))
  {
    forall n ensures n in x.entries <==> n in y.entries {
      assert SameOpt(Get(x, n), Get(y, n));
    }
    assert x.entries.Keys == y.entries.Keys;
    assert |x.entries| == |x.entries.Keys| && |y.entries| == |y.entries.Keys|;
    forall n | n in x.entries ensures n in y.entries && SameContent(x.entries[n], y.entries[n]) {
      assert SameOpt(Get(x, n), Get(y, n));
    }
  }

  lemma ModeSame(a: Node, b: Node, m: U32, m': U32)
    requires SameContent(a, b)
    ensures SameContent(WithMode(a, m), WithMode(b, m'))
  {
  }

  lemma {:induction false} SwapSettled(prefix: string, b: Folder, o: Folder, t: Folder, tag: string, tag': string,
                                       n: string)
    requires ConflictsAt(prefix, b, o, t, tag, n) == []
    ensures SameOpt(Settled(prefix, b, o, t, tag, n), Settled(prefix, b, t, o, tag', n))
    decreases o, 0
  {
    var (bn, on, tn) := (Get(b, n), Get(o, n), Get(t, n));
    var (x, y) := (Settled(prefix, b, o, t, tag, n), Settled(prefix, b, t, o, tag', n));
    SameOptSymmetric(on, tn);
    if BothDirs(on, tn) {
      var sub := JoinName(prefix, n);
      SwapContents(sub, BaseDir(bn), on.value.children, tn.value.children, tag, tag');
      SameFolders(x.value.children, y.value.children, x.value.mode, y.value.mode, x.value.mtime, y.value.mtime,
                  x.value.salt, y.value.salt);
    } else if SameOpt(on, tn) {
      if on.Some? { ModeSame(on.value, tn.value, x.value.mode, y.value.mode); }
    } else {
      AgreeOnce(bn, on, tn);
      var moved := if SameOpt(tn, bn) then on else tn;
      if moved.Some? {
        SameReflexive(moved.value);
        ModeSame(moved.value, moved.value, x.value.mode, y.value.mode);
      }
    }
  }

  lemma AgreeOnce(b: Option<Node>, o: Option<Node>, t: Option<Node>)
    requires !SameOpt(o, t)
    ensures !(SameOpt(t, b) && SameOpt(o, b))
  {
    if SameOpt(t, b) && SameOpt(o, b) && o.Some? {
      SameSymmetric(t.value, b.value);
      SameTransitive(o.value, b.value, t.value);
    }
  }

  /** Without conflicts both devices end with the same contents. */
  lemma {:induction false} SwapContents(prefix: string, b: Folder, o: Folder, t: Folder, tag: string, tag': string)
    requires MergeDir(prefix, b, o, t, tag).conflicts == []
    ensures forall n :: SameOpt(Get(MergeDir(prefix, b, o, t, tag).tree, n),
                                Get(MergeDir(prefix, b, t, o, tag').tree, n))
    decreases o, 1
  {
    SwapConflicts(prefix, b, o, t, tag, tag');
    Quiet(prefix, b, o, t, tag);
    Quiet(prefix, b, t, o, tag');
    forall n ensures SameOpt(Settled(prefix, b, o, t, tag, n), Settled(prefix, b, t, o, tag', n)) {
      NoCopy(prefix, b, o, t, tag, n);
      SwapSettled(prefix, b, o, t, tag, tag', n);
    }
  }

  // ---- what is reported ----

  /**
   The sides diverge at `p`: every ancestor is a directory on both, and neither node agrees with the
   other or the base.
   */
  predicate DivergesAt(b: Folder, o: Folder, t: Folder, p: Path)
    decreases |p|
  {
    p != [] &&
    var (bn, on, tn) := (Get(b, p[0]), Get(o, p[0]), Get(t, p[0]));
    if |p| == 1 then Clash(bn, on, tn)
    else BothDirs(on, tn) && DivergesAt(BaseDir(bn), on.value.children, tn.value.children, p[1..])
  }

  function NodeAt(f: Folder, p: Path): Option<Node>
    decreases |p|
  {
    if p == [] then None
    else if |p| == 1 then Get(f, p[0])
    else NodeAt(BaseDir(Get(f, p[0])), p[1..])
  }

  function PathFrom(prefix: string, p: Path): string
    requires p != []
    decreases |p|
  {
    if |p| == 1 then JoinName(prefix, p[0]) else PathFrom(JoinName(prefix, p[0]), p[1..])
  }

  /** A deletion against a change, a file against a directory, two additions, or two modifications. */
  ghost predicate KindMeans(kind: ConflictKind, b: Option<Node>, o: Option<Node>, t: Option<Node>) {
    && (kind == ModifyDelete <==> (o.None? && t.Some?) || (o.Some? && t.None?))
    && (kind == TypeChange <==> o.Some? && t.Some? && o.value.Dir? != t.value.Dir?)
    && (kind == AddAdd <==> o.Some? && t.Some? && o.value.Dir? == t.value.Dir? && b.None?)
    && (kind == ModifyModify <==> o.Some? && t.Some? && o.value.Dir? == t.value.Dir? && b.Some?)
  }

  ghost predicate Reports(prefix: string, b: Folder, o: Folder, t: Folder, p: Path, c: Conflict) {
    DivergesAt(b, o, t, p) && c.path == PathFrom(prefix, p) &&
      KindMeans(c.kind, NodeAt(b, p), NodeAt(o, p), NodeAt(t, p))
  }

  lemma {:induction false} ConflictsListed(prefix: string, b: Folder, o: Folder, t: Folder, tag: string,
                                           done: seq<string>, c: Conflict)
    ensures c in MergeNames(prefix, b, o, t, tag, done).conflicts <==>
            exists n :: n in done && c in ConflictsAt(prefix, b, o, t, tag, n)
    decreases |done|
  {
    hide Settled, ConflictsAt, FreeName, HasCopy;
    if done != [] {
      var (init, name) := (done[..|done| - 1], done[|done| - 1]);
      ConflictsListed(prefix, b, o, t, tag, init, c);
      assert forall n :: n in done <==> n in init || n == name;
      assert MergeNames(prefix, b, o, t, tag, done).conflicts
          == MergeNames(prefix, b, o, t, tag, init).conflicts + ConflictsAt(prefix, b, o, t, tag, name);
      hide MergeNames;
      if c in ConflictsAt(prefix, b, o, t, tag, name) {
        assert name in done;
      }
      if n :| n in init && c in ConflictsAt(prefix, b, o, t, tag, n) {
        assert n in done;
      }
    }
  }

  lemma ReportsHere(prefix: string, b: Folder, o: Folder, t: Folder, tag: string, n: string, c: Conflict)
    requires !BothDirs(Get(o, n), Get(t, n))
    ensures c in ConflictsAt(prefix, b, o, t, tag, n) <==> Reports(prefix, b, o, t, [n], c)
  {
    hide MergeDir, SameContent;
  }

  lemma ReportsBelow(prefix: string, b: Folder, o: Folder, t: Folder, n: string, q: Path, c: Conflict)
    requires BothDirs(Get(o, n), Get(t, n)) && q != []
    ensures Reports(prefix, b, o, t, [n] + q, c) <==>
            Reports(JoinName(prefix, n), BaseDir(Get(b, n)), o.entries[n].children, t.entries[n].children, q, c)
  {
    assert ([n] + q)[1..] == q;
  }

  lemma {:induction false} ReportedAt(prefix: string, b: Folder, o: Folder, t: Folder, tag: string, n: string,
                                      c: Conflict)
    ensures c in ConflictsAt(prefix, b, o, t, tag, n) <==>
            exists p :: p != [] && p[0] == n && Reports(prefix, b, o, t, p, c)
    decreases o, 0
  {
    hide Reports, MergeDir;
    if BothDirs(Get(o, n), Get(t, n)) {
      var (b', o', t') := (BaseDir(Get(b, n)), o.entries[n].children, t.entries[n].children);
      ConflictsExact(JoinName(prefix, n), b', o', t', tag, c);
      if q :| q != [] && Reports(JoinName(prefix, n), b', o', t', q, c) {
        ReportsBelow(prefix, b, o, t, n, q, c);
        assert ([n] + q)[0] == n;
      }
      if p :| p != [] && p[0] == n && Reports(prefix, b, o, t, p, c) {
        NoClashOfDirs(prefix, b, o, t, n, c);
        assert p == [n] + p[1..];
        assert |p| == 1 ==> p == [n];
        ReportsBelow(prefix, b, o, t, n, p[1..], c);
      }
    } else {
      ReportsHere(prefix, b, o, t, tag, n, c);
      if p :| p != [] && p[0] == n && Reports(prefix, b, o, t, p, c) {
        OneStep(prefix, b, o, t, p, c);
        assert p == [n];
      }
      assert [n][0] == n;
    }
  }

  lemma NoClashOfDirs(prefix: string, b: Folder, o: Folder, t: Folder, n: string, c: Conflict)
    requires BothDirs(Get(o, n), Get(t, n))
    ensures !Reports(prefix, b, o, t, [n], c)
  {
  }

  lemma OneStep(prefix: string, b: Folder, o: Folder, t: Folder, p: Path, c: Conflict)
    requires p != [] && !BothDirs(Get(o, p[0]), Get(t, p[0])) && Reports(prefix, b, o, t, p, c)
    ensures |p| == 1
  {
  }

  lemma {:induction false} JoinFirst(p: Path)
    requires |p| > 1
    ensures Paths.Join(p) == p[0] + "/" + Paths.Join(p[1..])
  {
    var n := |p| - 1;
    if n > 1 {
      JoinFirst(p[..n]);
      assert p[..n][1..] == p[1..][..n - 1] && p[..n][0] == p[0];
    }
  }

  lemma {:induction false} PathBelow(prefix: string, p: Path)
    requires prefix != "" && p != []
    ensures PathFrom(prefix, p) == prefix + "/" + Paths.Join(p)
    decreases |p|
  {
    if |p| > 1 {
      PathBelow(JoinName(prefix, p[0]), p[1..]);
      JoinFirst(p);
      hide Paths.Join;
      assert JoinName(prefix, p[0]) + "/" + Paths.Join(p[1..]) == prefix + "/" + (p[0] + "/" + Paths.Join(p[1..]));
    }
  }

  /** From the root, a reported path is its components joined by slashes. */
  lemma PathsJoined(p: Path)
    requires p != [] && p[0] != ""
    ensures PathFrom("", p) == Paths.Join(p)
  {
    if |p| > 1 {
      PathBelow(p[0], p[1..]);
      JoinFirst(p);
    }
  }

  /** Conflicts are reported at exactly the diverging paths, each with the kind of its divergence. */
  lemma {:induction false} ConflictsExact(prefix: string, b: Folder, o: Folder, t: Folder, tag: string, c: Conflict)
    ensures c in MergeDir(prefix, b, o, t, tag).conflicts <==> exists p :: p != [] && Reports(prefix, b, o, t, p, c)
    decreases o, 1
  {
    hide Reports, ConflictsAt;
    var all := AllNames(b, o, t);
    SortedLists(all);
    ConflictsListed(prefix, b, o, t, tag, Sorted(all), c);
    if n :| n in all && c in ConflictsAt(prefix, b, o, t, tag, n) {
      ReportedAt(prefix, b, o, t, tag, n, c);
    }
    if p :| p != [] && Reports(prefix, b, o, t, p, c) {
      ReportedAt(prefix, b, o, t, tag, p[0], c);
      NoCopy(prefix, b, o, t, tag, p[0]);
      assert p[0] in all;
    }
  }

  /** Where both sides hold an entry and do not diverge, a mode changed on one side wins, else ours. */
  lemma ModesPicked(prefix: string, b: Folder, o: Folder, t: Folder, tag: string, n: string)
    requires n in o.entries && n in t.entries && !Clash(Get(b, n), Get(o, n), Get(t, n))
    ensures var out := MergeDir(prefix, b, o, t, tag).tree;
            n in out.entries &&
            var (ours, theirs) := (o.entries[n].mode, t.entries[n].mode);
            out.entries[n].mode == if n in b.entries && ours == b.entries[n].mode then theirs else ours
  {
    var copies := DirShape(prefix, b, o, t, tag);
    hide MergeDir, SameContent;
    assert Get(MergeDir(prefix, b, o, t, tag).tree, n) == Settled(prefix, b, o, t, tag, n);
  }

  // ---- what the result can be sealed as ----

  ghost predicate DepthAtMost(f: Folder, d: nat) {
    forall n :: n in f.entries && f.entries[n].Dir? ==> d > 0 && DepthAtMost(f.entries[n].children, d - 1)
  }

  /** A merge is no deeper than its two sides. */
  lemma {:induction false} MergeDepth(prefix: string, b: Folder, o: Folder, t: Folder, tag: string, d: nat)
    requires DepthAtMost(o, d) && DepthAtMost(t, d)
    ensures DepthAtMost(MergeDir(prefix, b, o, t, tag).tree, d)
    decreases d
  {
    var copies := DirShape(prefix, b, o, t, tag);
    var out := MergeDir(prefix, b, o, t, tag).tree;
    hide MergeDir, Settled, AllNames, CopyName;
    forall n | n in out.entries && out.entries[n].Dir? ensures d > 0 && DepthAtMost(out.entries[n].children, d - 1) {
      if n in AllNames(b, o, t) {
        assert Get(out, n) == Settled(prefix, b, o, t, tag, n);
        SettledKinds(prefix, b, o, t, tag, n);
        if BothDirs(Get(o, n), Get(t, n)) {
          MergeDepth(JoinName(prefix, n), BaseDir(Get(b, n)), o.entries[n].children, t.entries[n].children, tag, d - 1);
        }
      } else {
        var m :| m in copies && copies[m] == n;
        assert CopyRight(AllNames(b, o, t), t, tag, out, m, n);
      }
    }
  }

  /** A settled node is a merged directory, or one side's node up to its mode. */
  lemma SettledKinds(prefix: string, b: Folder, o: Folder, t: Folder, tag: string, n: string)
    requires Settled(prefix, b, o, t, tag, n).Some?
    ensures var s := Settled(prefix, b, o, t, tag, n).value;
            if BothDirs(Get(o, n), Get(t, n)) then
              s.Dir? && s.children == MergeDir(JoinName(prefix, n), BaseDir(Get(b, n)), o.entries[n].children,
                                               t.entries[n].children, tag).tree
            else
              (n in o.entries && s == WithMode(o.entries[n], s.mode)) ||
                (n in t.entries && s == WithMode(t.entries[n], s.mode))
  {
    hide MergeDir, SameContent;
  }

  /** Every entry name at every level passes the tree decoder's guard. */
  ghost predicate WellNamed(f: Folder) {
    forall n :: n in f.entries ==> GoodName(n) && (f.entries[n].Dir? ==> WellNamed(f.entries[n].children))
  }

  /** No directory has more entries than a decoded tree may have. */
  ghost predicate Fanned(f: Folder) {
    |f.entries| <= MAX_TREE_FANOUT &&
    forall n :: n in f.entries && f.entries[n].Dir? ==> Fanned(f.entries[n].children)
  }

  lemma CopyNameGood(n: string, tag: string, c: string, tries: nat)
    requires CopyName(n, tag, c, tries) && GoodName(n) && SafeChars(tag) && Len(tag) <= 4000 && tries < 1_000_000
    ensures GoodName(c)
  {
    var k: nat :| k <= tries && c == Candidate(n, tag, k);
    hide Candidate;
    CandidateSafe(n, tag, k);
    assert Pow10(6) == 1_000_000;
    DecimalShort(k, 6);
    LenConcat(tag, "-");
    LenConcat(tag + "-", Decimal(k));
    assert Len("-") == 1;
    MarkedLen(Attempt(tag, k));
  }

  lemma NamesFew(b: Folder, o: Folder, t: Folder)
    requires Fanned(b) && Fanned(o) && Fanned(t)
    ensures |AllNames(b, o, t)| <= 3 * MAX_TREE_FANOUT
  {
    assert |b.entries| == |b.entries.Keys| && |o.entries| == |o.entries.Keys| && |t.entries| == |t.entries.Keys|;
  }

  /** A merge of decodable trees only authors names the decoder accepts. */
  lemma {:induction false} MergeNamesGood(prefix: string, b: Folder, o: Folder, t: Folder, tag: string)
    requires Fanned(b) && Fanned(o) && Fanned(t) && WellNamed(o) && WellNamed(t)
    requires SafeChars(tag) && Len(tag) <= 4000
    ensures WellNamed(MergeDir(prefix, b, o, t, tag).tree)
    decreases o
  {
    var copies := DirShape(prefix, b, o, t, tag);
    var out := MergeDir(prefix, b, o, t, tag).tree;
    hide MergeDir, GoodName, Settled, AllNames, CopiesRight, Fanned;
    forall n | n in out.entries ensures GoodName(n) && (out.entries[n].Dir? ==> WellNamed(out.entries[n].children)) {
      if n in AllNames(b, o, t) {
        assert Get(out, n) == Settled(prefix, b, o, t, tag, n);
        SettledKinds(prefix, b, o, t, tag, n);
        if BothDirs(Get(o, n), Get(t, n)) {
          FannedBelow(b, o, t, n);
          MergeNamesGood(JoinName(prefix, n), BaseDir(Get(b, n)), o.entries[n].children, t.entries[n].children, tag);
        }
      } else {
        CopyGood(b, o, t, tag, out, copies, n);
      }
    }
  }

  lemma FannedBelow(b: Folder, o: Folder, t: Folder, n: string)
    requires Fanned(b) && Fanned(o) && Fanned(t) && BothDirs(Get(o, n), Get(t, n))
    ensures Fanned(BaseDir(Get(b, n))) && Fanned(o.entries[n].children) && Fanned(t.entries[n].children)
  {
  }

  lemma CopyGood(b: Folder, o: Folder, t: Folder, tag: string, out: Folder, copies: map<string, string>, c: string)
    requires Fanned(b) && Fanned(o) && Fanned(t) && WellNamed(t) && SafeChars(tag) && Len(tag) <= 4000
    requires CopiesRight(AllNames(b, o, t), t, tag, out, copies) && c in copies.Values
    ensures GoodName(c) && c in out.entries && (out.entries[c].Dir? ==> WellNamed(out.entries[c].children))
  {
    NamesFew(b, o, t);
    hide Fanned, GoodName, CopyName, AllNames;
    var m :| m in copies && copies[m] == c;
    assert CopyRight(AllNames(b, o, t), t, tag, out, m, c);
    CopyNameGood(m, tag, c, 4 * |AllNames(b, o, t)| + 2);
  }
}
