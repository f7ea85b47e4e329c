/** Which chunks retention deletes, said by commits, paths and file contents alone. */
module RetentionLaws {
  import opened Prelude
  import opened Objects
  import opened Diff
  import opened Retention
  import Restore

  /** A file at `q` in the tree `t` has the chunk. */
  ghost predicate HoldsAt(st: set<TreeId>, t: TreeId, q: Path, c: ChunkId) {
    FileAt(st, Some(t), q).Some? && c in FileAt(st, Some(t), q).value
  }

  /** The commit changes the file at `p` against its first parent, or against nothing if it has none. */
  ghost predicate Edits(st: set<TreeId>, x: CommitId, p: Path) {
    var before := if |x.parents| == 0 then None else FileAt(st, Some(x.parents[0].root), p);
    before != FileAt(st, Some(x.root), p)
  }

  /** The commits before `order[i]` that change the file at `p`. */
  ghost function Newer(st: set<TreeId>, order: seq<CommitId>, i: nat, p: Path): set<nat>
    requires i <= |order|
  {
    set j: nat | j < i && Edits(st, order[j], p)
  }

  // ---- chunks and paths ----

  lemma {:induction false} UnderSomewhere(st: set<TreeId>, t: TreeId, c: ChunkId) returns (q: Path)
    requires Restore.Listed(t) && c in ChunksUnder(st, t)
    ensures q != [] && HoldsAt(st, t, q, c)
    decreases t
  {
    if e :| e in t.entries && e.File? && c in e.chunks {
      FindListed(t, e);
      q := [e.name];
    } else {
      var e :| e in t.entries && e.Dir? && c in ChunksUnder(st, e.subtree);
      FindListed(t, e);
      var rest := UnderSomewhere(st, e.subtree, c);
      q := [e.name] + rest;
      FileAtStep(st, Some(t), e.name, rest);
    }
  }

  lemma FindListed(t: TreeId, e: Entry)
    requires Restore.Listed(t) && e in t.entries
    ensures Find(t.entries, e.name) == Some(e)
  {
    var i :| 0 <= i < |t.entries| && t.entries[i] == e;
    Restore.FindAt(t.entries, i);
  }

  lemma {:induction false} SomewhereUnder(st: set<TreeId>, t: TreeId, q: Path, c: ChunkId)
    requires HoldsAt(st, t, q, c)
    ensures c in ChunksUnder(st, t)
    decreases |q|
  {
    if |q| > 1 {
      FileAtNone(st, q[1..]);
      var e := Get(st, Some(t), q[0]).value;
      SomewhereUnder(st, e.subtree, q[1..], c);
    }
  }

  /** What the scan keeps for a version of `p`: the chunks at `p`, or below it where it is now a folder. */
  lemma {:induction false} PathBelow(st: set<TreeId>, root: TreeId, p: Path, c: ChunkId) returns (q: Path)
    requires Restore.Listed(root) && c in PathChunks(st, root, p)
    ensures p <= q && HoldsAt(st, root, q, c)
    decreases |p|
  {
    if p == [] {
      q := UnderSomewhere(st, root, c);
    } else if |p| == 1 && Get(st, Some(root), p[0]).value.File? {
      q := p;
    } else {
      var e := Get(st, Some(root), p[0]).value;
      var rest := PathBelow(st, e.subtree, p[1..], c);
      q := [p[0]] + rest;
      FileAtStep(st, Some(root), p[0], rest);
      assert p == [p[0]] + p[1..];
    }
  }

  lemma {:induction false} BelowPath(st: set<TreeId>, root: TreeId, p: Path, q: Path, c: ChunkId)
    requires p <= q && HoldsAt(st, root, q, c)
    ensures c in PathChunks(st, root, p)
    decreases |p|
  {
    if p == [] {
      SomewhereUnder(st, root, q, c);
    } else if |q| > 1 {
      FileAtNone(st, q[1..]);
      var e := Get(st, Some(root), p[0]).value;
      assert p[1..] <= q[1..];
      BelowPath(st, e.subtree, p[1..], q[1..], c);
    }
  }

  // ---- versions ----

  lemma EditsChange(st: set<TreeId>, x: CommitId, p: Path)
    ensures Edits(st, x, p) <==> Changes(st, x, p)
  {
    FileAtNone(st, p);
    hide FileAt;
  }

  lemma {:induction false} VersionsCount(st: set<TreeId>, order: seq<CommitId>, n: nat, p: Path)
    requires n <= |order|
    ensures Versions(st, order, n, p) == |Newer(st, order, n, p)|
  {
    hide Edits, Changes;
    if n == 0 {
      assert Newer(st, order, 0, p) == {};
    } else {
      VersionsCount(st, order, n - 1, p);
      EditsChange(st, order[n - 1], p);
      var was := Newer(st, order, n - 1, p);
      assert Newer(st, order, n, p) == if Edits(st, order[n - 1], p) then was + {n - 1} else was;
    }
  }

  /** One of the latest `keep` commits that change `p` has the chunk at `p` or below it. */
  ghost predicate RecentlyAt(st: set<TreeId>, order: seq<CommitId>, keep: nat, i: nat, p: Path, q: Path, c: ChunkId) {
    && i < |order| && Edits(st, order[i], p) && |Newer(st, order, i, p)| < keep
    && p <= q && HoldsAt(st, order[i].root, q, c)
  }

  lemma KeptIsRecent(st: set<TreeId>, order: seq<CommitId>, keep: nat, c: ChunkId)
    requires forall x :: x in order ==> Restore.Listed(x.root)
    ensures KeptChunk(st, order, keep, |order|, c) <==> exists i: nat, p, q :: RecentlyAt(st, order, keep, i, p, q, c)
  {
    hide Edits, Changes, PathChunks, HoldsAt, Restore.Listed, Newer, Versions;
    if KeptChunk(st, order, keep, |order|, c) {
      var i: nat, p: Path :| i < |order| && KeptVersion(st, order, keep, i, p) && c in PathChunks(st, order[i].root, p);
      assert order[i] in order;
      EditsChange(st, order[i], p);
      VersionsCount(st, order, i, p);
      var q := PathBelow(st, order[i].root, p, c);
      assert RecentlyAt(st, order, keep, i, p, q, c);
    }
    if i: nat, p, q :| RecentlyAt(st, order, keep, i, p, q, c) {
      EditsChange(st, order[i], p);
      VersionsCount(st, order, i, p);
      BelowPath(st, order[i].root, p, q, c);
      assert KeptVersion(st, order, keep, i, p);
    }
  }

  lemma {:induction false} InHistory(st: set<TreeId>, order: seq<CommitId>, n: nat, c: ChunkId)
    requires n <= |order|
    ensures c in HistoryChunks(st, order, n) <==> exists i :: 0 <= i < n && c in ChunksUnder(st, order[i].root)
  {
    hide ChunksUnder;
    if n > 0 {
      InHistory(st, order, n - 1, c);
      if c in ChunksUnder(st, order[n - 1].root) {
        assert 0 <= n - 1 < n;
      }
    }
  }

  lemma UnderExactly(st: set<TreeId>, t: TreeId, c: ChunkId)
    requires Restore.Listed(t)
    ensures c in ChunksUnder(st, t) <==> exists q :: HoldsAt(st, t, q, c)
  {
    hide ChunksUnder, HoldsAt, Restore.Listed;
    if c in ChunksUnder(st, t) {
      var q := UnderSomewhere(st, t, c);
    }
    if q :| HoldsAt(st, t, q, c) { SomewhereUnder(st, t, q, c); }
  }

  /**
   A chunk is deleted if and only if some commit of the history has it in a file, the head has it in
   none, and no commit among the latest `keep` that change a path has it at that path or below.
   */
  lemma DeadExactly(st: set<TreeId>, head: CommitId, order: seq<CommitId>, keep: nat, c: ChunkId)
    requires Restore.Listed(head.root) && forall x :: x in order ==> Restore.Listed(x.root)
    ensures IsDead(st, head, order, keep, c) <==>
            && (exists i, q :: 0 <= i < |order| && HoldsAt(st, order[i].root, q, c))
            && !(exists q :: HoldsAt(st, head.root, q, c))
            && !(exists i: nat, p, q :: RecentlyAt(st, order, keep, i, p, q, c))
  {
    hide ChunksUnder, HoldsAt, Restore.Listed, RecentlyAt, KeptChunk, HistoryChunks;
    KeptIsRecent(st, order, keep, c);
    UnderExactly(st, head.root, c);
    InHistory(st, order, |order|, c);
    forall i | 0 <= i < |order|
      ensures c in ChunksUnder(st, order[i].root) <==> exists q :: HoldsAt(st, order[i].root, q, c)
    {
      assert order[i] in order;
      UnderExactly(st, order[i].root, c);
    }
  }
}
