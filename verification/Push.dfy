/** What a push stages: the client's planning walk over its own object graph. */
module Push {
  import opened Prelude
  import opened Frame
  import opened Objects
  import Dag

  datatype WalkError = DepthExceeded | Missing(id: Id)

  /** The client's local objects, as far as they can be opened. */
  datatype Local = Local(trees: set<TreeId>, commits: set<CommitId>)

  // ---- tree closures with a known set ----

  /** A set that holds every child of every tree in it. */
  ghost predicate ChildClosed(s: set<Id>) {
    forall t :: TreeObj(t) in s ==> Children(t) <= s
  }

  lemma {:induction false} ClosureInside(s: set<Id>, t: TreeId)
    requires ChildClosed(s) && TreeObj(t) in s
    ensures TreeClosure(t) <= s
  {
    forall x | x in TreeClosure(t)
      ensures x in s
    {
      if x != TreeObj(t) && x !in Children(t) {
        var e :| e in t.entries && e.Dir? && x in TreeClosure(e.subtree);
        assert TreeObj(e.subtree) in Children(t);
        ClosureInside(s, e.subtree);
      }
    }
  }

  lemma {:induction false} ClosureClosed(t: TreeId)
    ensures ChildClosed(TreeClosure(t))
  {
    forall u | TreeObj(u) in TreeClosure(t)
      ensures Children(u) <= TreeClosure(t)
    {
      if u != t {
        var e :| e in t.entries && e.Dir? && TreeObj(u) in TreeClosure(e.subtree);
        ClosureClosed(e.subtree);
        assert Children(u) <= TreeClosure(e.subtree);
        assert forall x :: x in TreeClosure(e.subtree) ==> x in TreeClosure(t);
      }
    }
  }

  /** The worklist holds, with everything already known or out, the children of every tree taken out. */
  ghost predicate Pending(known: set<Id>, out: set<Id>, work: seq<(TreeId, nat)>) {
    forall t, x :: TreeObj(t) in out && x in Children(t) ==> x in out || x in known || OnList(work, x)
  }

  ghost predicate OnList(work: seq<(TreeId, nat)>, x: Id) {
    exists i :: 0 <= i < |work| && TreeObj(work[i].0) == x
  }

  /**
   `tree_closure`: every tree and chunk id under `root` not behind a known subtree is added to
   `start`. With `known` and `start` closed, nothing under `root` is outside the two.
   */
  method TreeClosureWalk(local: Local, root: TreeId, known: set<Id>, start: set<Id>)
    returns (r: Result<set<Id>, WalkError>)
    requires ChildClosed(known) && ChildClosed(start + known)
    ensures r.Ok? ==> start <= r.value <= start + TreeClosure(root)
    ensures r.Ok? ==> TreeClosure(root) <= r.value + known
    ensures r.Ok? ==> ChildClosed(r.value + known)
  {
    hide Pending, OnList, TreeClosure, Children, ChildClosed;
    var out := start;
    var work := [(root, 0)];
    StartPending(known, start, root);
    RootInClosure(root);
    while work != []
      invariant start <= out <= start + TreeClosure(root)
      invariant forall i :: 0 <= i < |work| ==> TreeObj(work[i].0) in TreeClosure(root)
      invariant TreeObj(root) in out || TreeObj(root) in known || OnList(work, TreeObj(root))
      invariant Pending(known, out, work)
      decreases TreeClosure(root) - out, |work|
    {
      var (t, depth) := work[|work| - 1];
      var rest := work[..|work| - 1];
      if depth >= MAX_TREE_DEPTH {
        return Err(DepthExceeded);
      }
      if TreeObj(t) in known || TreeObj(t) in out {
        SkipPending(known, out, work);
        work := rest;
      } else {
        if t !in local.trees {
          return Err(Missing(TreeObj(t)));
        }
        var chunks, subs := SplitEntries(t, depth);
        TakePending(known, out, work, chunks, subs);
        ChildrenInClosure(root, t);
        ghost var was := out;
        out := out + {TreeObj(t)} + chunks;
        work := rest + subs;
        assert TreeObj(t) in TreeClosure(root) - was;
      }
    }
    WalkEnds(known, out, root);
    return Ok(out);
  }

  lemma RootInClosure(root: TreeId)
    ensures TreeObj(root) in TreeClosure(root)
  {
  }

  lemma ChildrenInClosure(root: TreeId, t: TreeId)
    requires TreeObj(t) in TreeClosure(root)
    ensures Children(t) <= TreeClosure(root)
    ensures (set e, c | e in t.entries && e.File? && c in e.chunks :: ChunkObj(c)) <= Children(t)
  {
    ClosureClosed(root);
  }

  lemma WalkEnds(known: set<Id>, out: set<Id>, root: TreeId)
    requires ChildClosed(known) && Pending(known, out, [])
    requires TreeObj(root) in out || TreeObj(root) in known || OnList([], TreeObj(root))
    ensures ChildClosed(out + known) && TreeClosure(root) <= out + known
  {
    assert ChildClosed(out + known);
    ClosureInside(out + known, root);
  }

  /** One tree's entries: its files' chunks, and its subdirectories to visit one level deeper. */
  method SplitEntries(t: TreeId, depth: nat) returns (chunks: set<Id>, subs: seq<(TreeId, nat)>)
    ensures chunks == set e, c | e in t.entries && e.File? && c in e.chunks :: ChunkObj(c)
    ensures forall x :: OnList(subs, x) <==> exists e :: e in t.entries && e.Dir? && x == TreeObj(e.subtree)
    ensures forall i :: 0 <= i < |subs| ==> TreeObj(subs[i].0) in Children(t)
  {
    chunks, subs := {}, [];
    for i := 0 to |t.entries|
      invariant chunks == set e, c | e in t.entries[..i] && e.File? && c in e.chunks :: ChunkObj(c)
      invariant forall x :: OnList(subs, x) <==> exists e :: e in t.entries[..i] && e.Dir? && x == TreeObj(e.subtree)
      invariant forall i :: 0 <= i < |subs| ==> TreeObj(subs[i].0) in Children(t)
    {
      var e := t.entries[i];
      assert t.entries[..i + 1] == t.entries[..i] + [e];
      if e.File? {
        chunks := chunks + set c | c in e.chunks :: ChunkObj(c);
      } else {
        OnListAppend(subs, (e.subtree, depth + 1));
        subs := subs + [(e.subtree, depth + 1)];
      }
    }
    assert t.entries[..|t.entries|] == t.entries;
  }

  lemma OnListAppend(work: seq<(TreeId, nat)>, w: (TreeId, nat))
    ensures forall x :: OnList(work + [w], x) <==> OnList(work, x) || x == TreeObj(w.0)
  {
    forall x
      ensures OnList(work + [w], x) <==> OnList(work, x) || x == TreeObj(w.0)
    {
      if OnList(work, x) {
        var i :| 0 <= i < |work| && TreeObj(work[i].0) == x;
        assert (work + [w])[i] == work[i];
      }
      assert (work + [w])[|work|] == w;
    }
  }

  lemma StartPending(known: set<Id>, start: set<Id>, root: TreeId)
    requires ChildClosed(start + known)
    ensures Pending(known, start, [(root, 0)])
    ensures OnList([(root, 0)], TreeObj(root))
  {
    assert [(root, 0)][0] == (root, 0);
  }

  lemma OnListSplit(work: seq<(TreeId, nat)>, x: Id)
    requires work != []
    ensures OnList(work, x) <==> OnList(work[..|work| - 1], x) || x == TreeObj(work[|work| - 1].0)
  {
    OnListAppend(work[..|work| - 1], work[|work| - 1]);
    assert work == work[..|work| - 1] + [work[|work| - 1]];
  }

  lemma SkipPending(known: set<Id>, out: set<Id>, work: seq<(TreeId, nat)>)
    requires work != [] && Pending(known, out, work)
    requires TreeObj(work[|work| - 1].0) in known + out
    ensures Pending(known, out, work[..|work| - 1])
    ensures forall x :: OnList(work, x) ==> OnList(work[..|work| - 1], x) || x in known + out
  {
    forall x ensures OnList(work, x) <==> OnList(work[..|work| - 1], x) || x == TreeObj(work[|work| - 1].0) {
      OnListSplit(work, x);
    }
  }

  lemma TakePending(known: set<Id>, out: set<Id>, work: seq<(TreeId, nat)>, chunks: set<Id>, subs: seq<(TreeId, nat)>)
    requires work != [] && Pending(known, out, work)
    requires
      var t := work[|work| - 1].0;
      && chunks == (set e, c | e in t.entries && e.File? && c in e.chunks :: ChunkObj(c))
      && forall x :: OnList(subs, x) <==> exists e :: e in t.entries && e.Dir? && x == TreeObj(e.subtree)
    ensures
      var t := work[|work| - 1].0;
      && Pending(known, out + {TreeObj(t)} + chunks, work[..|work| - 1] + subs)
      && forall x :: OnList(work, x) ==> OnList(work[..|work| - 1] + subs, x) || x == TreeObj(t)
  {
    var t := work[|work| - 1].0;
    var rest := work[..|work| - 1];
    forall x ensures OnList(rest + subs, x) <==> OnList(rest, x) || OnList(subs, x) {
      OnListConcat(rest, subs, x);
    }
    forall x ensures OnList(work, x) <==> OnList(rest, x) || x == TreeObj(t) {
      OnListSplit(work, x);
    }
  }

  lemma OnListConcat(a: seq<(TreeId, nat)>, b: seq<(TreeId, nat)>, x: Id)
    ensures OnList(a + b, x) <==> OnList(a, x) || OnList(b, x)
  {
    if OnList(a, x) {
      var i :| 0 <= i < |a| && TreeObj(a[i].0) == x;
      assert (a + b)[i] == a[i];
    }
    if OnList(b, x) {
      var i :| 0 <= i < |b| && TreeObj(b[i].0) == x;
      assert (a + b)[|a| + i] == b[i];
    }
  }

  // ---- the commit graph ----

  lemma {:induction false} HistoryClosed(c: CommitId, x: CommitId, p: CommitId)
    requires x in History(c) && p in x.parents
    ensures p in History(c)
  {
    if x != c {
      var q :| q in c.parents && x in History(q);
      HistoryClosed(q, x, p);
    } else {
      assert p in History(p);
    }
  }

  lemma {:induction false} HistoryInside(s: set<CommitId>, c: CommitId)
    requires c in s
    requires forall x, p :: x in s && p in x.parents ==> p in s
    ensures History(c) <= s
  {
    forall x | x in History(c) ensures x in s {
      if x != c {
        var q :| q in c.parents && x in History(q);
        HistoryInside(s, q);
      }
    }
  }

  function Histories(heads: seq<CommitId>): set<CommitId> {
    set h, x | h in heads && x in History(h) :: x
  }

  /** `load_commit_dag`: the parent map of everything reachable from the heads; a missing commit errors. */
  method LoadCommitDag(local: Local, heads: seq<CommitId>)
    returns (r: Result<Dag.ParentMap<CommitId>, WalkError>)
    ensures r.Ok? ==> r.value.Keys == Histories(heads)
    ensures r.Ok? ==> forall c :: c in r.value ==> r.value[c] == c.parents
    ensures r.Err? ==> r.error.Missing? && r.error.id.CommitObj? && r.error.id.commit !in local.commits
  {
    hide Histories, History;
    var parents: Dag.ParentMap<CommitId> := map[];
    var work := heads;
    HeadsInHistories(heads);
    while work != []
      invariant parents.Keys <= Histories(heads)
      invariant forall c :: c in work ==> c in Histories(heads)
      invariant forall h :: h in heads ==> h in parents || h in work
      invariant forall c :: c in parents ==> parents[c] == c.parents
      invariant forall c, p :: c in parents && p in c.parents ==> p in parents || p in work
      decreases Histories(heads) - parents.Keys, |work|
    {
      var c := work[|work| - 1];
      assert work == work[..|work| - 1] + [c];
      if c in parents {
        work := work[..|work| - 1];
      } else {
        if c !in local.commits {
          return Err(Missing(CommitObj(c)));
        }
        var more := Dag.Unseen(c.parents, parents.Keys);
        ParentsInHistories(heads, c);
        ghost var was := parents;
        work := work[..|work| - 1] + more;
        parents := parents[c := c.parents];
        assert c in Histories(heads) - was.Keys;
      }
    }
    LoadedAll(heads, parents.Keys);
    return Ok(parents);
  }

  lemma HeadsInHistories(heads: seq<CommitId>)
    ensures forall h :: h in heads ==> h in Histories(heads)
  {
    forall h | h in heads ensures h in Histories(heads) {
      assert h in History(h);
    }
  }

  lemma ParentsInHistories(heads: seq<CommitId>, c: CommitId)
    requires c in Histories(heads)
    ensures forall p :: p in c.parents ==> p in Histories(heads)
  {
    forall p | p in c.parents ensures p in Histories(heads) {
      var h :| h in heads && c in History(h);
      HistoryClosed(h, c, p);
    }
  }

  lemma LoadedAll(heads: seq<CommitId>, s: set<CommitId>)
    requires s <= Histories(heads)
    requires forall h :: h in heads ==> h in s
    requires forall c, p :: c in s && p in c.parents ==> p in s
    ensures s == Histories(heads)
  {
    forall x | x in Histories(heads) ensures x in s {
      var h :| h in heads && x in History(h);
      HistoryInside(s, h);
    }
  }

  /** Over a loaded map, path reachability is membership in the history. */
  lemma {:induction false} ReachIsHistory(parents: Dag.ParentMap<CommitId>, h: CommitId, x: CommitId)
    requires forall c :: c in History(h) ==> c in parents && parents[c] == c.parents
    ensures Dag.Reach(parents, h, x) <==> x in History(h)
  {
    if Dag.Reach(parents, h, x) {
      assert h in History(h);
      forall c, p | c in History(h) && Dag.Edge(parents, c, p) ensures p in History(h) {
        HistoryClosed(h, c, p);
      }
      Dag.ClosedContains(parents, History(h), h, x);
    }
    if x in History(h) {
      HistoryReached(parents, h, x);
    }
  }

  lemma {:induction false} HistoryReached(parents: Dag.ParentMap<CommitId>, h: CommitId, x: CommitId)
    requires forall c :: c in History(h) ==> c in parents && parents[c] == c.parents
    requires x in History(h)
    ensures Dag.Reach(parents, h, x)
  {
    Dag.ReachSelf(parents, h);
    if x != h {
      var p :| p in h.parents && x in History(p);
      assert h in History(h);
      forall c | c in History(p) ensures c in History(h) {
      }
      HistoryReached(parents, p, x);
      Dag.ReachStep(parents, h, h, p);
      Dag.ReachTrans(parents, h, p, x);
    }
  }

  // ---- the plan ----

  function HistoryOf(c: Option<CommitId>): set<CommitId> {
    if c.Some? then History(c.value) else {}
  }

  /** The content of the remote head's tree: durable there, never sent. */
  function Known(remote: Option<CommitId>): set<Id> {
    if remote.Some? then TreeClosure(remote.value.root) else {}
  }

  function New(target: CommitId, remote: Option<CommitId>): set<CommitId> {
    History(target) - HistoryOf(remote)
  }

  function CommitObjs(cs: set<CommitId>): set<Id> {
    set c | c in cs :: CommitObj(c)
  }

  /** What must be staged: the new commits and the target's own content, minus what is known. */
  function Required(target: CommitId, remote: Option<CommitId>): set<Id> {
    (CommitObjs(New(target, remote)) + TreeClosure(target.root)) - Known(remote)
  }

  /** What is staged when held: the content of the older new commits. */
  function Optional(target: CommitId, remote: Option<CommitId>): set<Id> {
    (set c, x | c in New(target, remote) && c != target && x in TreeClosure(c.root) :: x)
    - Known(remote) - Required(target, remote)
  }

  lemma {:induction false} NoCommitsInTrees(t: TreeId, c: CommitId)
    ensures CommitObj(c) !in TreeClosure(t)
  {
    if CommitObj(c) in TreeClosure(t) {
      var e :| e in t.entries && e.Dir? && CommitObj(c) in TreeClosure(e.subtree);
      NoCommitsInTrees(e.subtree, c);
    }
  }

  /** A won push leaves nothing of the new head uncovered: it was known, in the old history, or required. */
  lemma PlanCovers(target: CommitId, remote: Option<CommitId>)
    ensures Needed(target) <=
            (if remote.Some? then Needed(remote.value) else {}) + Required(target, remote)
  {
    forall x | x in Needed(target)
      ensures x in (if remote.Some? then Needed(remote.value) else {}) + Required(target, remote)
    {
      if x.CommitObj? && x.commit in New(target, remote) {
        assert x in CommitObjs(New(target, remote));
        if remote.Some? {
          NoCommitsInTrees(remote.value.root, x.commit);
        }
      }
    }
  }

  /** Every tree and chunk of every commit in a history. */
  function HistoryContent(c: CommitId): set<Id> {
    set h, x | h in History(c) && x in TreeClosure(h.root) :: x
  }

  /** The whole content of the new commits is known or in the plan, one way or the other. */
  lemma PlanCoversNew(target: CommitId, remote: Option<CommitId>, c: CommitId)
    requires c in New(target, remote)
    ensures TreeClosure(c.root) <= Known(remote) + Required(target, remote) + Optional(target, remote)
  {
    hide TreeClosure, History, New, CommitObjs;
  }

  /** So the whole content of the target's history is that of the remote head's history and the plan. */
  lemma PlanCoversHistory(target: CommitId, remote: Option<CommitId>)
    ensures HistoryContent(target) <=
            (if remote.Some? then HistoryContent(remote.value) else {}) + Required(target, remote) +
            Optional(target, remote)
  {
    hide TreeClosure, Required, Optional;
    forall c, x | c in History(target) && x in TreeClosure(c.root)
      ensures x in (if remote.Some? then HistoryContent(remote.value) else {}) + Required(target, remote) +
                   Optional(target, remote)
    {
      if c in New(target, remote) {
        PlanCoversNew(target, remote, c);
        if x in Known(remote) { assert remote.value in History(remote.value); }
      }
    }
  }

  /** Nothing the remote head needs is sent again, and nothing but the target's own history is sent. */
  lemma PlanSendsNew(target: CommitId, remote: Option<CommitId>, x: Id)
    requires x in Required(target, remote) + Optional(target, remote)
    ensures remote.Some? ==> x !in Needed(remote.value)
    ensures match x case CommitObj(c) => c in History(target) case _ => x in HistoryContent(target)
  {
    assert target in History(target);
    if x.CommitObj? {
      NoCommitsInTrees(target.root, x.commit);
      forall c: CommitId ensures x !in TreeClosure(c.root) { NoCommitsInTrees(c.root, x.commit); }
    }
    hide TreeClosure, History;
  }

  method NewCommitSet(local: Local, target: CommitId, remote: Option<CommitId>)
    returns (r: Result<set<CommitId>, WalkError>)
    ensures r.Ok? ==> r.value == New(target, remote)
  {
    hide History, Dag.Reach;
    var heads := [target] + if remote.Some? then [remote.value] else [];
    var dag := LoadCommitDag(local, heads);
    if dag.Err? {
      return Err(dag.error);
    }
    var parents := dag.value;
    var new_ := Dag.NewCommits(parents, remote, target);
    forall x
      ensures x in new_ <==> x in New(target, remote)
    {
      assert target in heads;
      HeadLoaded(heads, parents, target, x);
      if remote.Some? {
        assert remote.value in heads;
        HeadLoaded(heads, parents, remote.value, x);
      }
    }
    return Ok(new_);
  }

  lemma HeadLoaded(heads: seq<CommitId>, parents: Dag.ParentMap<CommitId>, h: CommitId, x: CommitId)
    requires h in heads && parents.Keys == Histories(heads)
    requires forall c :: c in parents ==> parents[c] == c.parents
    ensures Dag.Reach(parents, h, x) <==> x in History(h)
  {
    forall c | c in History(h) ensures c in parents {
      assert c in Histories(heads);
    }
    ReachIsHistory(parents, h, x);
  }

  /** `push_objects` up to staging: it wants exactly `Required` strictly and `Optional` when held. */
  method Plan(local: Local, target: CommitId, remote: Option<CommitId>)
    returns (r: Result<(set<Id>, set<Id>), WalkError>)
    ensures r.Ok? ==> r.value.0 == Required(target, remote) && r.value.1 == Optional(target, remote)
  {
    hide TreeClosure, History, ChildClosed, New;
    var fresh_ := NewCommitSet(local, target, remote);
    if fresh_.Err? {
      return Err(fresh_.error);
    }
    EmptyClosed();
    var known: set<Id> := {};
    if remote.Some? {
      var k := TreeClosureWalk(local, remote.value.root, {}, {});
      if k.Err? {
        return Err(k.error);
      }
      known := k.value;
      assert known == TreeClosure(remote.value.root);
      ClosureClosed(remote.value.root);
    }
    var commits := CommitObjs(fresh_.value);
    CommitsClosed(fresh_.value, known);
    var strict := TreeClosureWalk(local, target.root, known, commits);
    if strict.Err? {
      return Err(strict.error);
    }
    var lenient := LenientWalks(local, fresh_.value - {target}, known);
    if lenient.Err? {
      return Err(lenient.error);
    }
    var required := strict.value - known;
    var optional := lenient.value - known - strict.value;
    assert required == Required(target, remote);
    assert optional == Optional(target, remote) by {
      assert lenient.value - known == TreesOf(fresh_.value - {target}) - known;
    }
    return Ok((required, optional));
  }

  lemma EmptyClosed()
    ensures ChildClosed({}) && ChildClosed({} + {})
  {
  }

  lemma CommitsClosed(cs: set<CommitId>, known: set<Id>)
    requires ChildClosed(known)
    ensures ChildClosed(CommitObjs(cs) + known)
  {
    assert forall t :: TreeObj(t) in CommitObjs(cs) + known ==> TreeObj(t) in known;
  }

  function TreesOf(cs: set<CommitId>): set<Id> {
    set c, x | c in cs && x in TreeClosure(c.root) :: x
  }

  method LenientWalks(local: Local, cs: set<CommitId>, known: set<Id>) returns (r: Result<set<Id>, WalkError>)
    requires ChildClosed(known)
    ensures r.Ok? ==> r.value <= TreesOf(cs) <= r.value + known
  {
    hide TreeClosure, ChildClosed;
    var out: set<Id> := {};
    var todo := cs;
    assert {} + known == known;
    while todo != {}
      invariant todo <= cs
      invariant ChildClosed(out + known)
      invariant out <= TreesOf(cs - todo) <= out + known
      decreases todo
    {
      var c :| c in todo;
      var step := TreeClosureWalk(local, c.root, known, out);
      if step.Err? {
        return Err(step.error);
      }
      TreesOfAdd(cs - todo, c);
      assert cs - (todo - {c}) == cs - todo + {c};
      out := step.value;
      todo := todo - {c};
    }
    assert cs - {} == cs;
    return Ok(out);
  }

  lemma TreesOfAdd(cs: set<CommitId>, c: CommitId)
    ensures TreesOf(cs + {c}) == TreesOf(cs) + TreeClosure(c.root)
  {
  }
}
