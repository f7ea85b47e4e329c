/** Bounded history: which chunks `prune_history` deletes, and which it never does. */
module Retention {
  import opened Prelude
  import opened Frame
  import opened Objects
  import opened Diff

  /** Every chunk under `t` that a walk skipping missing trees reaches. */
  function ChunksUnder(st: set<TreeId>, t: TreeId): set<ChunkId> {
    if t !in st then {}
    else
      (set e, c | e in t.entries && e.File? && c in e.chunks :: c) +
      set e, c | e in t.entries && e.Dir? && c in ChunksUnder(st, e.subtree) :: c
  }

  datatype Target = AFile(chunks: seq<ChunkId>) | ADir(tree: TreeId) | Nothing

  /** `resolve_path`, with a tree missing on the way reading as unresolvable. */
  function Resolve(st: set<TreeId>, root: TreeId, p: Path): Target
    decreases |p|
  {
    if p == [] then ADir(root)
    else
      match Get(st, Some(root), p[0])
      case None => Nothing
      case Some(File(_, _, _, _, _, chunks)) => if |p| == 1 then AFile(chunks) else Nothing
      case Some(Dir(_, _, _, subtree)) => Resolve(st, subtree, p[1..])
  }

  /** What `path_chunks` gives for `p`, empty when it does not resolve. */
  function PathChunks(st: set<TreeId>, root: TreeId, p: Path): set<ChunkId> {
    match Resolve(st, root, p)
    case AFile(chunks) => set c | c in chunks
    case ADir(t) => ChunksUnder(st, t)
    case Nothing => {}
  }

  /** Chunks of every reached tree no higher than `h` are reached. */
  ghost predicate CollectedTo(st: set<TreeId>, reached: set<Id>, h: nat) {
    forall t :: TreeObj(t) in reached && TreeHeight(t) <= h ==> Collected(st, reached, t)
  }

  ghost predicate Collected(st: set<TreeId>, reached: set<Id>, t: TreeId) {
    forall c :: c in ChunksUnder(st, t) ==> ChunkObj(c) in reached
  }

  /** `reached` grew by objects under `t` only, its trees no higher than `h`. */
  ghost predicate GrewUnder(st: set<TreeId>, before: set<Id>, after: set<Id>, t: TreeId, h: nat) {
    && before <= after
    && (forall c :: ChunkObj(c) in after && ChunkObj(c) !in before ==> c in ChunksUnder(st, t))
    && (forall u :: TreeObj(u) in after && TreeObj(u) !in before ==> TreeHeight(u) <= h)
  }

  /**
   `collect_tree`, lenient: a tree met again adds nothing, which is sound because everything under
   it is already there; only nesting past the limit fails.
   */
  method CollectTree(st: set<TreeId>, t: TreeId, depth: nat, before: set<Id>) returns (r: Result<set<Id>, ()>)
    requires CollectedTo(st, before, TreeHeight(t))
    ensures r.Ok? ==> GrewUnder(st, before, r.value, t, TreeHeight(t)) && CollectedTo(st, r.value, TreeHeight(t))
    ensures r.Ok? ==> Collected(st, r.value, t)
    ensures r.Err? ==> depth + TreeHeight(t) > MAX_TREE_DEPTH
    decreases TreeHeight(t)
  {
    hide TreeHeight, SubHeight, ChunksUnder, Collected, CollectedTo;
    HeightPositive(t);
    if depth >= MAX_TREE_DEPTH {
      return Err(());
    }
    if TreeObj(t) in before {
      CollectedAlready(st, before, t);
      return Ok(before);
    }
    if t !in st {
      MissingCollected(st, before, t);
      return Ok(before);
    }
    var reached := before + {TreeObj(t)};
    CollectStart(st, before, t);
    for i := 0 to |t.entries|
      invariant EntriesCollected(st, before, reached, t, i)
    {
      var e := t.entries[i];
      EntryBelow(t, i);
      match e {
        case File(_, _, _, _, _, chunks) =>
          CollectFile(st, before, reached, t, i);
          reached := reached + set c | c in chunks :: ChunkObj(c);
        case Dir(_, _, _, sub) =>
          LowerCollected(st, reached, TreeHeight(t) - 1, TreeHeight(sub));
          var more := CollectTree(st, sub, depth + 1, reached);
          if more.Err? {
            return Err(());
          }
          CollectDir(st, before, reached, more.value, t, i);
          reached := more.value;
      }
    }
    CollectEnd(st, before, reached, t);
    return Ok(reached);
  }

  /** The first `i` entries of `t` are collected, and `t` itself is on the way. */
  ghost predicate EntriesCollected(st: set<TreeId>, before: set<Id>, reached: set<Id>, t: TreeId, i: nat)
    requires i <= |t.entries|
  {
    && TreeHeight(t) > 0 && TreeObj(t) in reached
    && GrewUnder(st, before, reached, t, TreeHeight(t)) && CollectedTo(st, reached, TreeHeight(t) - 1)
    && (forall u :: TreeObj(u) in reached && TreeObj(u) !in before && TreeHeight(u) == TreeHeight(t) ==> u == t)
    && (forall j :: 0 <= j < i ==> EntryCollected(st, reached, t.entries[j]))
    && CollectedTo(st, before, TreeHeight(t))
  }

  ghost predicate EntryCollected(st: set<TreeId>, reached: set<Id>, e: Entry) {
    match e
    case File(_, _, _, _, _, chunks) => forall c :: c in chunks ==> ChunkObj(c) in reached
    case Dir(_, _, _, sub) => Collected(st, reached, sub)
  }

  lemma HeightPositive(t: TreeId)
    ensures TreeHeight(t) > 0
  {
  }

  lemma CollectedAlready(st: set<TreeId>, reached: set<Id>, t: TreeId)
    requires CollectedTo(st, reached, TreeHeight(t)) && TreeObj(t) in reached
    ensures Collected(st, reached, t)
  {
    hide TreeHeight, ChunksUnder;
  }

  lemma MissingCollected(st: set<TreeId>, reached: set<Id>, t: TreeId)
    requires t !in st
    ensures Collected(st, reached, t)
  {
  }

  lemma CollectStart(st: set<TreeId>, before: set<Id>, t: TreeId)
    requires CollectedTo(st, before, TreeHeight(t)) && TreeHeight(t) > 0
    ensures EntriesCollected(st, before, before + {TreeObj(t)}, t, 0)
  {
    hide TreeHeight, ChunksUnder;
    forall u | TreeObj(u) in before + {TreeObj(t)} && TreeHeight(u) <= TreeHeight(t) - 1
      ensures Collected(st, before + {TreeObj(t)}, u)
    {
      assert Collected(st, before, u);
    }
  }

  lemma EntryBelow(t: TreeId, i: nat)
    requires i < |t.entries|
    ensures t.entries[i].Dir? ==> TreeHeight(t.entries[i].subtree) < TreeHeight(t)
  {
    assert t.entries[i] in t.entries;
  }

  lemma LowerCollected(st: set<TreeId>, reached: set<Id>, high: nat, low: nat)
    requires CollectedTo(st, reached, high) && low <= high
    ensures CollectedTo(st, reached, low)
  {
    hide TreeHeight, Collected;
  }

  lemma CollectedMore(st: set<TreeId>, small: set<Id>, large: set<Id>, h: nat)
    requires CollectedTo(st, small, h) && small <= large
    requires forall u :: TreeObj(u) in large ==> TreeObj(u) in small
    ensures CollectedTo(st, large, h)
  {
    hide TreeHeight, ChunksUnder;
    forall u | TreeObj(u) in large && TreeHeight(u) <= h ensures Collected(st, large, u) {
      assert Collected(st, small, u);
    }
  }

  lemma EntriesStay(st: set<TreeId>, small: set<Id>, large: set<Id>, t: TreeId, i: nat)
    requires i <= |t.entries| && small <= large && forall j :: 0 <= j < i ==> EntryCollected(st, small, t.entries[j])
    ensures forall j :: 0 <= j < i ==> EntryCollected(st, large, t.entries[j])
  {
    hide ChunksUnder;
    forall j | 0 <= j < i ensures EntryCollected(st, large, t.entries[j]) {
      assert EntryCollected(st, small, t.entries[j]);
    }
  }

  lemma CollectFile(st: set<TreeId>, before: set<Id>, reached: set<Id>, t: TreeId, i: nat)
    requires i < |t.entries| && t.entries[i].File? && t in st && EntriesCollected(st, before, reached, t, i)
    ensures EntriesCollected(st, before, reached + (set c | c in t.entries[i].chunks :: ChunkObj(c)), t, i + 1)
  {
    var after := reached + set c | c in t.entries[i].chunks :: ChunkObj(c);
    assert t.entries[i] in t.entries;
    assert forall c :: c in t.entries[i].chunks ==> c in ChunksUnder(st, t);
    hide TreeHeight, ChunksUnder;
    CollectedMore(st, reached, after, TreeHeight(t) - 1);
    EntriesStay(st, reached, after, t, i);
  }

  lemma CollectDir(st: set<TreeId>, before: set<Id>, reached: set<Id>, after: set<Id>, t: TreeId, i: nat)
    requires i < |t.entries| && t.entries[i].Dir? && t in st && EntriesCollected(st, before, reached, t, i)
    requires var sub := t.entries[i].subtree;
             && TreeHeight(sub) < TreeHeight(t)
             && GrewUnder(st, reached, after, sub, TreeHeight(sub)) && CollectedTo(st, after, TreeHeight(sub))
             && Collected(st, after, sub)
    ensures EntriesCollected(st, before, after, t, i + 1)
  {
    var sub := t.entries[i].subtree;
    UnderSub(st, t, i);
    hide TreeHeight, ChunksUnder, EntryCollected, Collected, CollectedTo, GrewUnder;
    GrewOn(st, before, reached, after, t, sub, TreeHeight(t));
    CollectedBoth(st, reached, after, sub, TreeHeight(t) - 1);
    TopAlone(st, before, reached, after, t, sub);
    GrewMeans(st, reached, after, sub, TreeHeight(sub));
    EntriesStay(st, reached, after, t, i);
    EntryDone(st, after, t.entries[i]);
  }

  lemma UnderSub(st: set<TreeId>, t: TreeId, i: nat)
    requires i < |t.entries| && t.entries[i].Dir? && t in st
    ensures ChunksUnder(st, t.entries[i].subtree) <= ChunksUnder(st, t)
  {
    assert t.entries[i] in t.entries;
  }

  lemma GrewMeans(st: set<TreeId>, before: set<Id>, after: set<Id>, t: TreeId, h: nat)
    requires GrewUnder(st, before, after, t, h)
    ensures before <= after
  {
  }

  lemma GrewOn(st: set<TreeId>, before: set<Id>, reached: set<Id>, after: set<Id>, t: TreeId, sub: TreeId, h: nat)
    requires GrewUnder(st, before, reached, t, h) && GrewUnder(st, reached, after, sub, TreeHeight(sub))
    requires TreeHeight(sub) <= h && ChunksUnder(st, sub) <= ChunksUnder(st, t)
    ensures GrewUnder(st, before, after, t, h)
  {
    hide TreeHeight, ChunksUnder;
  }

  lemma CollectedBoth(st: set<TreeId>, reached: set<Id>, after: set<Id>, sub: TreeId, h: nat)
    requires GrewUnder(st, reached, after, sub, TreeHeight(sub)) && TreeHeight(sub) <= h
    requires CollectedTo(st, reached, h) && CollectedTo(st, after, TreeHeight(sub))
    ensures CollectedTo(st, after, h)
  {
    hide TreeHeight, ChunksUnder;
    forall u | TreeObj(u) in after && TreeHeight(u) <= h ensures Collected(st, after, u) {
      if TreeObj(u) in reached { assert Collected(st, reached, u); }
    }
  }

  lemma TopAlone(st: set<TreeId>, before: set<Id>, reached: set<Id>, after: set<Id>, t: TreeId, sub: TreeId)
    requires GrewUnder(st, reached, after, sub, TreeHeight(sub)) && TreeHeight(sub) < TreeHeight(t)
    requires forall u :: TreeObj(u) in reached && TreeObj(u) !in before && TreeHeight(u) == TreeHeight(t) ==> u == t
    ensures forall u :: TreeObj(u) in after && TreeObj(u) !in before && TreeHeight(u) == TreeHeight(t) ==> u == t
  {
    hide TreeHeight, ChunksUnder;
  }

  lemma EntryDone(st: set<TreeId>, reached: set<Id>, e: Entry)
    requires e.Dir? && Collected(st, reached, e.subtree)
    ensures EntryCollected(st, reached, e)
  {
    hide Collected;
  }

  lemma CollectEnd(st: set<TreeId>, before: set<Id>, reached: set<Id>, t: TreeId)
    requires EntriesCollected(st, before, reached, t, |t.entries|) && t in st
    ensures GrewUnder(st, before, reached, t, TreeHeight(t)) && CollectedTo(st, reached, TreeHeight(t)) &&
            Collected(st, reached, t)
  {
    assert Collected(st, reached, t) by {
      hide TreeHeight;
      forall c | c in ChunksUnder(st, t) ensures ChunkObj(c) in reached {
        var e :| e in t.entries && (if e.File? then c in e.chunks else c in ChunksUnder(st, e.subtree));
        var j :| 0 <= j < |t.entries| && t.entries[j] == e;
        assert EntryCollected(st, reached, t.entries[j]);
      }
    }
    hide TreeHeight, ChunksUnder;
    forall u | TreeObj(u) in reached && TreeHeight(u) <= TreeHeight(t) ensures Collected(st, reached, u) {
      if TreeObj(u) in before { assert Collected(st, before, u); }
    }
  }

  lemma {:induction false} ResolveLower(st: set<TreeId>, root: TreeId, p: Path)
    requires Resolve(st, root, p).ADir?
    ensures TreeHeight(Resolve(st, root, p).tree) <= TreeHeight(root)
    decreases |p|
  {
    if p != [] {
      var e := Get(st, Some(root), p[0]).value;
      assert e in root.entries;
      ResolveLower(st, e.subtree, p[1..]);
    }
  }

  /** `path_chunks`: fails only where the tree at `p` is nested past the limit. */
  method ChunksAt(st: set<TreeId>, root: TreeId, p: Path) returns (r: Result<set<ChunkId>, ()>)
    ensures r.Ok? ==> r.value == PathChunks(st, root, p)
    ensures r.Err? ==> TreeHeight(root) > MAX_TREE_DEPTH
  {
    match Resolve(st, root, p) {
      case Nothing =>
        return Ok({});
      case AFile(chunks) =>
        return Ok(set c | c in chunks);
      case ADir(t) =>
        ResolveLower(st, root, p);
        hide TreeHeight, ChunksUnder;
        var all := CollectTree(st, t, 0, {});
        if all.Err? {
          return Err(());
        }
        return Ok(set x | x in all.value && x.ChunkObj? :: x.chunk);
    }
  }

  function FirstParent(c: CommitId): Option<TreeId> {
    if c.parents == [] then None else Some(c.parents[0].root)
  }

  /** Commit `c` counts as a version of `p`: it and its first parent disagree there. */
  predicate Changes(st: set<TreeId>, c: CommitId, p: Path) {
    FileAt(st, FirstParent(c), p) != FileAt(st, Some(c.root), p)
  }

  /** How many of the first `n` commits are versions of `p`. */
  function Versions(st: set<TreeId>, order: seq<CommitId>, n: nat, p: Path): nat
    requires n <= |order|
  {
    if n == 0 then 0 else Versions(st, order, n - 1, p) + if Changes(st, order[n - 1], p) then 1 else 0
  }

  /** `order[i]` is among the latest `keep` versions of `p`. */
  predicate KeptVersion(st: set<TreeId>, order: seq<CommitId>, keep: nat, i: nat, p: Path) {
    i < |order| && Changes(st, order[i], p) && Versions(st, order, i, p) < keep
  }

  /** `c` is needed by one of the latest `keep` versions of some path among the first `n` commits. */
  ghost predicate KeptChunk(st: set<TreeId>, order: seq<CommitId>, keep: nat, n: nat, c: ChunkId) {
    exists i: nat, p: Path :: i < n && KeptVersion(st, order, keep, i, p) && c in PathChunks(st, order[i].root, p)
  }

  /** Every chunk of any commit among the first `n`. */
  function HistoryChunks(st: set<TreeId>, order: seq<CommitId>, n: nat): set<ChunkId>
    requires n <= |order|
  {
    if n == 0 then {} else HistoryChunks(st, order, n - 1) + ChunksUnder(st, order[n - 1].root)
  }

  /**
   What the scan must produce: the history's chunks except the head's own and those of each
   path's latest `keep` versions.
   */
  ghost predicate IsDead(st: set<TreeId>, head: CommitId, order: seq<CommitId>, keep: nat, c: ChunkId) {
    && (c in ChunksUnder(st, head.root) || c in HistoryChunks(st, order, |order|))
    && c !in ChunksUnder(st, head.root)
    && !KeptChunk(st, order, keep, |order|, c)
  }

  /** The per-path counters after `n` commits: capped at `keep`, absent while zero. */
  ghost predicate Counted(st: set<TreeId>, order: seq<CommitId>, keep: nat, n: nat, kept: map<Path, nat>)
    requires n <= |order|
  {
    forall p: Path :: (if p in kept then kept[p] else 0) == Min(keep, Versions(st, order, n, p))
  }

  /** The counters in the middle of commit `n`, after the paths in `done`. */
  ghost predicate Counting(st: set<TreeId>, order: seq<CommitId>, keep: nat, n: nat, done: set<Path>,
                           kept: map<Path, nat>)
    requires n < |order|
  {
    forall p: Path :: (if p in kept then kept[p] else 0) ==
      Min(keep, if p in done then Versions(st, order, n + 1, p) else Versions(st, order, n, p))
  }

  /** The keep set in the middle of commit `n`, after the paths in `done`. */
  ghost predicate Keeping(st: set<TreeId>, head: CommitId, order: seq<CommitId>, keep: nat, n: nat, done: set<Path>,
                          ks: set<ChunkId>)
    requires n < |order|
  {
    forall c :: c in ks <==>
      || c in ChunksUnder(st, head.root)
      || KeptChunk(st, order, keep, n, c)
      || exists p :: p in done && KeptVersion(st, order, keep, n, p) && c in PathChunks(st, order[n].root, p)
  }

  lemma PathStep(st: set<TreeId>, head: CommitId, order: seq<CommitId>, keep: nat, n: nat, done: set<Path>,
                 kept: map<Path, nat>, ks: set<ChunkId>, path: Path)
    requires n < |order| && path !in done && Changes(st, order[n], path)
    requires Counting(st, order, keep, n, done, kept) && Keeping(st, head, order, keep, n, done, ks)
    ensures
      var seen := if path in kept then kept[path] else 0;
      var take := seen < keep;
      && Counting(st, order, keep, n, done + {path}, if take then kept[path := seen + 1] else kept)
      && Keeping(st, head, order, keep, n, done + {path},
                 if take then ks + PathChunks(st, order[n].root, path) else ks)
  {
    hide Changes, PathChunks, ChunksUnder, KeptChunk;
    var seen := if path in kept then kept[path] else 0;
    assert seen == Min(keep, Versions(st, order, n, path));
    assert seen < keep <==> KeptVersion(st, order, keep, n, path);
  }

  /** One commit of the scan: each changed path still owed a version takes this one. */
  method KeepCommit(st: set<TreeId>, ghost head: CommitId, order: seq<CommitId>, keep: nat, n: nat, changed: seq<Path>,
                    counters: map<Path, nat>, sofar: set<ChunkId>)
    returns (kept: map<Path, nat>, ks: set<ChunkId>, ok: bool)
    requires n < |order|
    requires forall p: Path :: p in changed <==> Changes(st, order[n], p)
    requires forall i, j :: 0 <= i < j < |changed| ==> changed[i] != changed[j]
    requires Counted(st, order, keep, n, counters)
    requires forall c :: c in sofar <==> c in ChunksUnder(st, head.root) || KeptChunk(st, order, keep, n, c)
    ensures ok ==> Counted(st, order, keep, n + 1, kept)
    ensures ok ==> forall c :: c in ks <==> c in ChunksUnder(st, head.root) || KeptChunk(st, order, keep, n + 1, c)
    ensures !ok ==> TreeHeight(order[n].root) > MAX_TREE_DEPTH
  {
    hide Changes, PathChunks, ChunksUnder, KeptChunk, KeptVersion, Versions, TreeHeight;
    kept, ks, ok := counters, sofar, true;
    ghost var done: set<Path> := {};
    for i := 0 to |changed|
      invariant done == set j | 0 <= j < i :: changed[j]
      invariant Counting(st, order, keep, n, done, kept)
      invariant Keeping(st, head, order, keep, n, done, ks)
    {
      var path := changed[i];
      PathStep(st, head, order, keep, n, done, kept, ks, path);
      var seen := if path in kept then kept[path] else 0;
      if seen < keep {
        kept := kept[path := seen + 1];
        var chunks := ChunksAt(st, order[n].root, path);
        if chunks.Err? {
          return kept, ks, false;
        }
        ks := ks + chunks.value;
      }
      done := done + {path};
    }
    CommitDone(st, head, order, keep, n, done, kept, ks);
  }

  /**
   The retention scan of `prune_history` over the commits newest first: the dead set is exactly
   the chunks of the history that neither the head nor any kept version needs.
   */
  method DeadChunks(st: set<TreeId>, head: CommitId, order: seq<CommitId>, keep: nat)
    returns (r: Result<set<ChunkId>, CommitId>)
    requires keep > 0
    ensures r.Ok? ==> forall c :: c in r.value <==> IsDead(st, head, order, keep, c)
    ensures r.Err? ==> r.error == head || r.error in order
    ensures r.Err? ==> Max(Height(FirstParent(r.error)), Height(Some(r.error.root))) >= MAX_TREE_DEPTH
  {
    hide KeptVersion, Versions, ChunksUnder, TreeHeight;
    var own := ChunksAt(st, head.root, []);
    if own.Err? {
      return Err(head);
    }
    var ks := own.value;
    var all := ks;
    var kept: map<Path, nat> := map[];
    StartCounters(st, order, keep);
    for n := 0 to |order|
      invariant all == ChunksUnder(st, head.root) + HistoryChunks(st, order, n)
      invariant Counted(st, order, keep, n, kept)
      invariant forall c :: c in ks <==> c in ChunksUnder(st, head.root) || KeptChunk(st, order, keep, n, c)
    {
      var commit := order[n];
      var under := ChunksAt(st, commit.root, []);
      if under.Err? {
        return Err(commit);
      }
      all := all + under.value;
      var changed := ChangedPaths(st, FirstParent(commit), Some(commit.root));
      if changed.Err? {
        return Err(commit);
      }
      var ok;
      kept, ks, ok := KeepCommit(st, head, order, keep, n, changed.value, kept, ks);
      if !ok {
        return Err(commit);
      }
    }
    return Ok(all - ks);
  }

  lemma StartCounters(st: set<TreeId>, order: seq<CommitId>, keep: nat)
    ensures Counted(st, order, keep, 0, map[])
  {
  }

  lemma CommitDone(st: set<TreeId>, head: CommitId, order: seq<CommitId>, keep: nat, n: nat, done: set<Path>,
                   kept: map<Path, nat>, ks: set<ChunkId>)
    requires n < |order|
    requires forall p: Path :: Changes(st, order[n], p) <==> p in done
    requires Counting(st, order, keep, n, done, kept) && Keeping(st, head, order, keep, n, done, ks)
    ensures Counted(st, order, keep, n + 1, kept)
    ensures forall c :: c in ks <==> c in ChunksUnder(st, head.root) || KeptChunk(st, order, keep, n + 1, c)
  {
    forall c
      ensures KeptChunk(st, order, keep, n + 1, c) <==>
        KeptChunk(st, order, keep, n, c) ||
        exists p :: p in done && KeptVersion(st, order, keep, n, p) && c in PathChunks(st, order[n].root, p)
    {
      if KeptChunk(st, order, keep, n + 1, c) && !KeptChunk(st, order, keep, n, c) {
        var i: nat, p: Path :| i < n + 1 && KeptVersion(st, order, keep, i, p) && c in PathChunks(st, order[i].root, p);
        assert i == n && p in done;
      }
    }
  }

  // ---- the dead set never touches what a head promises ----

  lemma {:induction false} ChunksUnderIsClosure(st: set<TreeId>, t: TreeId, c: ChunkId)
    requires ChunkObj(c) in TreeClosure(t)
    requires forall s :: TreeObj(s) in TreeClosure(t) ==> s in st
    ensures c in ChunksUnder(st, t)
  {
    assert TreeObj(t) in TreeClosure(t);
    if e :| e in t.entries && e.Dir? && ChunkObj(c) in TreeClosure(e.subtree) {
      forall s | TreeObj(s) in TreeClosure(e.subtree) ensures s in st {
        assert TreeObj(s) in TreeClosure(t);
      }
      ChunksUnderIsClosure(st, e.subtree, c);
    }
  }

  /** With the head's trees at hand, nothing dead belongs to the head's history or content. */
  lemma DeadAvoidsHead(st: set<TreeId>, head: CommitId, order: seq<CommitId>, keep: nat, c: ChunkId)
    requires forall s :: TreeObj(s) in TreeClosure(head.root) ==> s in st
    requires IsDead(st, head, order, keep, c)
    ensures ChunkObj(c) !in Needed(head)
  {
    if ChunkObj(c) in TreeClosure(head.root) {
      ChunksUnderIsClosure(st, head.root, c);
    }
  }
}
