/**
 Fetching a commit's history and content. Every write to the local store keeps it closed: a stored
 tree has all its subtrees stored, a stored commit has all its parents stored. The store's methods
 demand this of each single write, so it holds at every moment, whatever the remote answers.
 */
module Fetch {
  import opened Prelude
  import opened Frame
  import opened Objects
  import Push

  function Subtrees(t: TreeId): set<TreeId> {
    set e | e in t.entries && e.Dir? :: e.subtree
  }

  function Chunks(t: TreeId): set<ChunkId> {
    set e, c | e in t.entries && e.File? && c in e.chunks :: c
  }

  ghost predicate TreesClosed(objs: set<Id>) {
    forall t, c :: TreeObj(t) in objs && c in Subtrees(t) ==> TreeObj(c) in objs
  }

  ghost predicate CommitsClosed(objs: set<Id>) {
    forall c, p :: CommitObj(c) in objs && p in c.parents ==> CommitObj(p) in objs
  }

  /** The local object store; an id stands for its verified content. */
  class Local {
    var objs: set<Id>

    ghost predicate Valid()
      reads this
    {
      TreesClosed(objs) && CommitsClosed(objs)
    }

    constructor ()
      ensures Valid() && objs == {}
    {
      objs := {};
    }

    method PutChunk(c: ChunkId)
      requires Valid()
      modifies this
      ensures Valid() && objs == old(objs) + {ChunkObj(c)}
    {
      objs := objs + {ChunkObj(c)};
    }

    method PutTree(t: TreeId)
      requires Valid() && forall c :: c in Subtrees(t) ==> TreeObj(c) in objs
      modifies this
      ensures Valid() && objs == old(objs) + {TreeObj(t)}
    {
      objs := objs + {TreeObj(t)};
    }

    /** One transaction. */
    method PutCommits(cs: set<CommitId>)
      requires Valid() && forall c, p :: c in cs && p in c.parents ==> CommitObj(p) in objs || p in cs
      modifies this
      ensures Valid() && objs == old(objs) + set c | c in cs :: CommitObj(c)
    {
      objs := objs + set c | c in cs :: CommitObj(c);
    }
  }

  /** What the remote may answer: nothing at all, absent, bytes that do not verify, or the object. */
  datatype Reply = Failed | Absent | Bogus | Genuine

  datatype FetchError = Transport | MissingRemote(id: Id) | NotVerified(id: Id) | TooDeep

  /** An answer per object and request number: the remote may change its mind. */
  type Remote = (Id, nat) -> Reply

  function Refused(r: Reply, id: Id): Option<FetchError> {
    match r
    case Failed => Some(Transport)
    case Absent => Some(MissingRemote(id))
    case Bogus => Some(NotVerified(id))
    case Genuine => None
  }

  // ---- commits ----

  ghost predicate ParentsCovered(objs: set<Id>, got: set<CommitId>, work: seq<CommitId>) {
    forall c, p :: c in got && p in c.parents ==> CommitObj(p) in objs || p in got || p in work
  }

  /** `fetch_commits`: the missing history lands in one transaction, or not at all. */
  method FetchCommits(remote: Remote, start: nat, local: Local, head: CommitId)
    returns (r: Result<(), FetchError>, asked: nat)
    requires local.Valid()
    modifies local
    ensures local.Valid() && old(local.objs) <= local.objs
    ensures r.Err? ==> local.objs == old(local.objs)
    ensures r.Ok? ==> CommitObj(head) in local.objs
    ensures forall x :: x in local.objs && x !in old(local.objs) ==> x.CommitObj? && x.commit in History(head)
  {
    hide History;
    var got: set<CommitId> := {};
    var seen: set<CommitId> := {};
    var work := [head];
    asked := start;
    HistorySelf(head);
    while work != []
      invariant local.objs == old(local.objs)
      invariant got <= seen
      invariant forall c :: c in seen ==> CommitObj(c) in local.objs || c in got
      invariant forall c :: c in seen || c in work ==> c in History(head)
      invariant head in seen || head in work
      invariant ParentsCovered(local.objs, got, work)
      decreases History(head) - seen, |work|
    {
      var c := work[|work| - 1];
      var rest := work[..|work| - 1];
      assert forall x :: x in work <==> x in rest || x == c;
      work := rest;
      if c in seen {
        continue;
      }
      ghost var was := seen;
      seen := seen + {c};
      assert c in History(head) - was;
      if CommitObj(c) in local.objs {
        continue;
      }
      var reply := remote(CommitObj(c), asked);
      asked := asked + 1;
      var refusal := Refused(reply, CommitObj(c));
      if refusal.Some? {
        return Err(refusal.value), asked;
      }
      forall p | p in c.parents ensures p in History(head) {
        Push.HistoryClosed(head, c, p);
      }
      work := work + c.parents;
      got := got + {c};
    }
    local.PutCommits(got);
    r := Ok(());
  }

  lemma HistorySelf(c: CommitId)
    ensures c in History(c)
  {
  }

  /** With the store closed, a stored commit has its whole history stored. */
  lemma {:induction false} StoredHistory(objs: set<Id>, c: CommitId)
    requires CommitsClosed(objs) && CommitObj(c) in objs
    ensures forall x :: x in History(c) ==> CommitObj(x) in objs
  {
    forall x | x in History(c) ensures CommitObj(x) in objs {
      if x != c {
        var p :| p in c.parents && x in History(p);
        StoredHistory(objs, p);
      }
    }
  }

  // ---- trees ----

  datatype Walk = Trees | WithChunks

  datatype Step = Enter(t: TreeId, depth: nat) | Store(t: TreeId)

  /** `c` is stored, or somewhere above position `i` of the stack. */
  ghost predicate Covered(objs: set<Id>, stack: seq<Step>, i: nat, c: TreeId) {
    TreeObj(c) in objs || exists j :: i < j < |stack| && stack[j].t == c
  }

  /** A tree waiting to be stored has its subtrees stored or above it. */
  ghost predicate StoresCovered(objs: set<Id>, stack: seq<Step>) {
    forall i, c :: 0 <= i < |stack| && stack[i].Store? && c in Subtrees(stack[i].t) ==> Covered(objs, stack, i, c)
  }

  ghost predicate Waiting(stack: seq<Step>, t: TreeId) {
    exists j :: 0 <= j < |stack| && stack[j] == Store(t)
  }

  /** A tree once entered is stored or waiting. */
  ghost predicate SeenCovered(objs: set<Id>, seen: set<Id>, stack: seq<Step>) {
    forall t :: TreeObj(t) in seen ==> TreeObj(t) in objs || Waiting(stack, t)
  }

  /** Everything above a waiting tree lies strictly below it in the hierarchy. */
  ghost predicate Nested(stack: seq<Step>) {
    forall i, j :: 0 <= i < j < |stack| && stack[i].Store? ==> TreeHeight(stack[j].t) < TreeHeight(stack[i].t)
  }

  lemma SubtreeLower(t: TreeId, c: TreeId)
    requires c in Subtrees(t)
    ensures TreeHeight(c) < TreeHeight(t)
  {
  }

  /** Taking a waiting tree off the stack: its subtrees are all stored. */
  lemma PopStore(objs: set<Id>, seen: set<Id>, stack: seq<Step>)
    requires stack != [] && stack[|stack| - 1].Store?
    requires StoresCovered(objs, stack) && SeenCovered(objs, seen, stack) && Nested(stack)
    ensures var t := stack[|stack| - 1].t;
            var (rest, after) := (stack[..|stack| - 1], objs + {TreeObj(t)});
            (forall c :: c in Subtrees(t) ==> TreeObj(c) in objs) &&
            StoresCovered(after, rest) && SeenCovered(after, seen, rest) && Nested(rest)
  {
    hide Subtrees, TreeHeight;
    var n := |stack| - 1;
    var t := stack[n].t;
    var (rest, after) := (stack[..n], objs + {TreeObj(t)});
    forall c | c in Subtrees(t) ensures TreeObj(c) in objs {
      assert Covered(objs, stack, n, c);
    }
    forall i, c | 0 <= i < |rest| && rest[i].Store? && c in Subtrees(rest[i].t) ensures Covered(after, rest, i, c) {
      assert stack[i] == rest[i];
      assert Covered(objs, stack, i, c);
      if TreeObj(c) !in after {
        var j :| i < j < |stack| && stack[j].t == c;
        assert rest[j].t == c;
      }
    }
    forall u | TreeObj(u) in seen ensures TreeObj(u) in after || Waiting(rest, u) {
      if TreeObj(u) !in after {
        var j :| 0 <= j < |stack| && stack[j] == Store(u);
        assert rest[j] == Store(u);
      }
    }
  }

  /** A tree met a second time is stored: it cannot still be waiting below one of its own descendants. */
  lemma SeenStored(objs: set<Id>, seen: set<Id>, stack: seq<Step>)
    requires stack != [] && SeenCovered(objs, seen, stack) && Nested(stack)
    requires stack[|stack| - 1].Enter? && TreeObj(stack[|stack| - 1].t) in seen
    ensures TreeObj(stack[|stack| - 1].t) in objs
  {
    hide TreeHeight;
  }

  /** Taking a stored tree's entry off the stack. */
  lemma PopStored(objs: set<Id>, seen: set<Id>, stack: seq<Step>)
    requires stack != [] && stack[|stack| - 1].Enter? && TreeObj(stack[|stack| - 1].t) in objs
    requires StoresCovered(objs, stack) && SeenCovered(objs, seen, stack) && Nested(stack)
    ensures var rest := stack[..|stack| - 1];
            var now := seen + {TreeObj(stack[|stack| - 1].t)};
            StoresCovered(objs, rest) && SeenCovered(objs, now, rest) && Nested(rest)
  {
    hide Subtrees, TreeHeight;
    var n := |stack| - 1;
    var t := stack[n].t;
    var rest := stack[..n];
    forall u | TreeObj(u) in seen + {TreeObj(t)} ensures TreeObj(u) in objs || Waiting(rest, u) {
      if TreeObj(u) !in objs {
        var j :| 0 <= j < |stack| && stack[j] == Store(u);
        assert rest[j] == Store(u);
      }
    }
    forall i, c | 0 <= i < |rest| && rest[i].Store? && c in Subtrees(rest[i].t) ensures Covered(objs, rest, i, c) {
      assert stack[i] == rest[i];
      assert Covered(objs, stack, i, c);
      if TreeObj(c) !in objs {
        var j :| i < j < |stack| && stack[j].t == c;
        assert rest[j].t == c;
      }
    }
  }

  /** `subs` enters exactly the subtrees of `t`. */
  ghost predicate Entering(t: TreeId, subs: seq<Step>) {
    && (forall i :: 0 <= i < |subs| ==> subs[i].Enter? && subs[i].t in Subtrees(t))
    && (forall c :: c in Subtrees(t) ==> exists i :: 0 <= i < |subs| && subs[i].t == c)
  }

  /** Entering a tree: it waits below its subtrees unless it is already stored. */
  lemma PushOpen(objs: set<Id>, seen: set<Id>, stack: seq<Step>, subs: seq<Step>)
    requires stack != [] && stack[|stack| - 1].Enter? && Entering(stack[|stack| - 1].t, subs)
    requires StoresCovered(objs, stack) && SeenCovered(objs, seen, stack) && Nested(stack)
    ensures var t := stack[|stack| - 1].t;
            var now := stack[..|stack| - 1] + (if TreeObj(t) in objs then [] else [Store(t)]) + subs;
            StoresCovered(objs, now) && SeenCovered(objs, seen + {TreeObj(t)}, now) && Nested(now)
  {
    hide Subtrees, TreeHeight;
    var n := |stack| - 1;
    var t := stack[n].t;
    var rest := stack[..n];
    var own := if TreeObj(t) in objs then [] else [Store(t)];
    var now := rest + own + subs;
    assert own != [] ==> now[n] == Store(t);
    OpenCovered(objs, stack, subs, own, now);
    forall u | TreeObj(u) in seen + {TreeObj(t)} ensures TreeObj(u) in objs || Waiting(now, u) {
      if TreeObj(u) !in objs && u != t {
        var j :| 0 <= j < |stack| && stack[j] == Store(u);
        assert now[j] == Store(u);
      }
    }
    forall i, j | 0 <= i < j < |now| && now[i].Store? ensures TreeHeight(now[j].t) < TreeHeight(now[i].t) {
      if j >= n + |own| {
        SubtreeLower(t, subs[j - n - |own|].t);
        assert i < n ==> now[i] == stack[i];
      } else {
        assert now[i] == stack[i] && now[j].t == stack[j].t;
      }
    }
  }

  lemma OpenCovered(objs: set<Id>, stack: seq<Step>, subs: seq<Step>, own: seq<Step>, now: seq<Step>)
    requires stack != [] && stack[|stack| - 1].Enter? && Entering(stack[|stack| - 1].t, subs) &&
            StoresCovered(objs, stack)
    requires own == (if TreeObj(stack[|stack| - 1].t) in objs then [] else [Store(stack[|stack| - 1].t)])
    requires now == stack[..|stack| - 1] + own + subs
    ensures StoresCovered(objs, now)
  {
    hide Subtrees;
    var n := |stack| - 1;
    var t := stack[n].t;
    forall i, c | 0 <= i < |now| && now[i].Store? && c in Subtrees(now[i].t) ensures Covered(objs, now, i, c) {
      if i < n {
        assert stack[i] == now[i];
        assert Covered(objs, stack, i, c);
        if TreeObj(c) !in objs {
          var j :| i < j < |stack| && stack[j].t == c;
          assert now[j].t == c;
        }
      } else {
        var k :| 0 <= k < |subs| && subs[k].t == c;
        assert now[n + |own| + k] == subs[k];
      }
    }
  }

  // ---- completeness of a walk with chunks ----

  ghost predicate OnStack(stack: seq<Step>, c: TreeId) {
    exists j :: 0 <= j < |stack| && stack[j].Enter? && stack[j].t == c
  }

  /** Every tree walked has its chunks stored and its subtrees walked or about to be. */
  ghost predicate Walked(objs: set<Id>, seen: set<Id>, stack: seq<Step>) {
    forall t :: TreeObj(t) in seen ==>
      (forall c :: c in Subtrees(t) ==> TreeObj(c) in seen || OnStack(stack, c)) &&
      (forall c :: c in Chunks(t) ==> ChunkObj(c) in objs)
  }

  lemma {:induction false} WalkedAll(objs: set<Id>, seen: set<Id>, t: TreeId)
    requires Walked(objs, seen, []) && SeenCovered(objs, seen, []) && TreeObj(t) in seen
    ensures TreeClosure(t) <= objs
  {
    forall x | x in TreeClosure(t) ensures x in objs {
      if x == TreeObj(t) {
      } else if x in Children(t) && x.ChunkObj? {
        assert x.chunk in Chunks(t);
      } else if x in Children(t) {
        assert x.tree in Subtrees(t);
      } else {
        var e :| e in t.entries && e.Dir? && x in TreeClosure(e.subtree);
        assert e.subtree in Subtrees(t);
        WalkedAll(objs, seen, e.subtree);
      }
    }
  }

  /** More stored objects break none of the stack's invariants. */
  lemma MoreStored(objs: set<Id>, more: set<Id>, seen: set<Id>, stack: seq<Step>)
    requires objs <= more && StoresCovered(objs, stack) && SeenCovered(objs, seen, stack)
    ensures StoresCovered(more, stack) && SeenCovered(more, seen, stack)
  {
    hide Subtrees;
    forall i, c | 0 <= i < |stack| && stack[i].Store? && c in Subtrees(stack[i].t) ensures Covered(more, stack, i, c) {
      assert Covered(objs, stack, i, c);
    }
  }

  /** Walking one tree: its chunks are stored and its subtrees are on the stack. */
  lemma WalkOne(objs: set<Id>, more: set<Id>, seen: set<Id>, now: set<Id>, stack: seq<Step>, after: seq<Step>,
                subs: seq<Step>, t: TreeId)
    requires Walked(objs, seen, stack) && stack != [] && stack[|stack| - 1].Enter? && stack[|stack| - 1].t == t
    requires Entering(t, subs) && objs <= more && (forall c :: c in Chunks(t) ==> ChunkObj(c) in more)
    requires after == stack[..|stack| - 1] + subs || after == stack[..|stack| - 1] + [Store(t)] + subs
    requires forall u :: TreeObj(u) in now <==> TreeObj(u) in seen || u == t
    ensures Walked(more, now, after)
  {
    hide Subtrees, Chunks;
    var n := |stack| - 1;
    forall u, c | TreeObj(u) in now && c in Subtrees(u) ensures TreeObj(c) in now || OnStack(after, c) {
      if u == t {
        var k :| 0 <= k < |subs| && subs[k].t == c;
        assert after[|after| - |subs| + k] == subs[k];
      } else if TreeObj(c) !in now {
        assert OnStack(stack, c);
        var j :| 0 <= j < |stack| && stack[j].Enter? && stack[j].t == c;
        assert after[j] == stack[j];
      }
    }
  }

  lemma WalkedPop(objs: set<Id>, more: set<Id>, seen: set<Id>, stack: seq<Step>)
    requires Walked(objs, seen, stack) && stack != [] && objs <= more
    requires stack[|stack| - 1].Store? || TreeObj(stack[|stack| - 1].t) in seen
    ensures Walked(more, seen, stack[..|stack| - 1])
  {
    hide Subtrees, Chunks;
    var rest := stack[..|stack| - 1];
    forall u, c | TreeObj(u) in seen && c in Subtrees(u) ensures TreeObj(c) in seen || OnStack(rest, c) {
      if TreeObj(c) !in seen {
        var j :| 0 <= j < |stack| && stack[j].Enter? && stack[j].t == c;
        assert rest[j] == stack[j];
      }
    }
  }

  // ---- the walk ----

  /** One tree's entries: the chunks of its files, and its subdirectories to enter. */
  method Split(t: TreeId, depth: nat) returns (chunks: seq<ChunkId>, subs: seq<Step>)
    ensures Entering(t, subs)
    ensures forall c :: c in chunks <==> c in Chunks(t)
  {
    chunks, subs := [], [];
    var i := 0;
    while i < |t.entries|
      invariant 0 <= i <= |t.entries|
      invariant forall k :: 0 <= k < |subs| ==> subs[k].Enter? && subs[k].t in Subtrees(t)
      invariant forall j :: 0 <= j < i && t.entries[j].Dir? ==> OnStack(subs, t.entries[j].subtree)
      invariant forall c :: c in chunks ==> c in Chunks(t)
      invariant forall j, c :: 0 <= j < i && t.entries[j].File? && c in t.entries[j].chunks ==> c in chunks
    {
      var e := t.entries[i];
      if e.Dir? {
        ghost var was := subs;
        subs := subs + [Enter(e.subtree, depth + 1)];
        assert subs[|was|].t == e.subtree;
        forall j | 0 <= j < i && t.entries[j].Dir? ensures OnStack(subs, t.entries[j].subtree) {
          var k :| 0 <= k < |was| && was[k].Enter? && was[k].t == t.entries[j].subtree;
          assert subs[k] == was[k];
        }
      } else {
        chunks := chunks + e.chunks;
      }
      i := i + 1;
    }
    forall c | c in Subtrees(t) ensures exists k :: 0 <= k < |subs| && subs[k].t == c {
      var e :| e in t.entries && e.Dir? && e.subtree == c;
      var j :| 0 <= j < |t.entries| && t.entries[j] == e;
      assert OnStack(subs, c);
    }
  }

  /** The chunks of one tree that are new to this walk and absent locally, each verified before it is stored. */
  method FetchChunks(remote: Remote, start: nat, local: Local, seen: set<Id>, chunks: seq<ChunkId>)
    returns (r: Result<set<Id>, FetchError>, asked: nat)
    requires local.Valid() && forall c :: ChunkObj(c) in seen ==> ChunkObj(c) in local.objs
    modifies local
    ensures local.Valid() && old(local.objs) <= local.objs
    ensures forall x :: x in local.objs && x !in old(local.objs) ==> x.ChunkObj? && x.chunk in chunks
    ensures r.Ok? ==> r.value == seen + (set c | c in chunks :: ChunkObj(c))
    ensures r.Ok? ==> forall c :: ChunkObj(c) in r.value ==> ChunkObj(c) in local.objs
  {
    asked := start;
    var now := seen;
    var i := 0;
    while i < |chunks|
      invariant 0 <= i <= |chunks| && local.Valid() && old(local.objs) <= local.objs
      invariant now == seen + (set c | c in chunks[..i] :: ChunkObj(c))
      invariant forall c :: ChunkObj(c) in now ==> ChunkObj(c) in local.objs
      invariant forall x :: x in local.objs && x !in old(local.objs) ==> x.ChunkObj? && x.chunk in chunks
    {
      var c := chunks[i];
      assert chunks[..i + 1] == chunks[..i] + [c];
      if ChunkObj(c) !in now {
        now := now + {ChunkObj(c)};
        if ChunkObj(c) !in local.objs {
          var refusal := Refused(remote(ChunkObj(c), asked), ChunkObj(c));
          asked := asked + 1;
          if refusal.Some? {
            return Err(refusal.value), asked;
          }
          local.PutChunk(c);
        }
      }
      i := i + 1;
    }
    assert chunks[..i] == chunks;
    r := Ok(now);
  }

  /**
   `fetch_tree`: post-order over an explicit stack. Whatever happens the store stays closed and only
   gains objects under `root`; a finished walk leaves `root` stored, with chunks its whole closure.
   */
  method FetchTree(remote: Remote, start: nat, local: Local, root: TreeId, walk: Walk)
    returns (r: Result<(), FetchError>, asked: nat)
    requires local.Valid()
    modifies local
    ensures local.Valid() && old(local.objs) <= local.objs
    ensures local.objs <= old(local.objs) + TreeClosure(root)
    ensures r.Ok? ==> TreeObj(root) in local.objs
    ensures r.Ok? && walk == WithChunks ==> TreeClosure(root) <= local.objs
  {
    hide TreeClosure, Children, StoresCovered, SeenCovered, Nested, Walked, Entering, Chunks, TreesClosed,
      CommitsClosed;
    asked := start;
    var seen: set<Id> := {};
    var stack := [Enter(root, 0)];
    StartStack(local.objs, root);
    Push.RootInClosure(root);
    while stack != []
      invariant local.Valid() && old(local.objs) <= local.objs <= old(local.objs) + TreeClosure(root)
      invariant StoresCovered(local.objs, stack) && SeenCovered(local.objs, seen, stack) && Nested(stack)
      invariant walk == WithChunks ==> Walked(local.objs, seen, stack)
      invariant forall c :: ChunkObj(c) in seen ==> ChunkObj(c) in local.objs
      invariant forall i :: 0 <= i < |stack| ==> TreeObj(stack[i].t) in TreeClosure(root)
      invariant TreeObj(root) in seen || stack == [Enter(root, 0)]
      decreases TreeClosure(root) - seen, |stack|
    {
      var step := stack[|stack| - 1];
      var rest := stack[..|stack| - 1];
      var t := step.t;
      if step.Store? {
        PopStore(local.objs, seen, stack);
        if walk == WithChunks { WalkedPop(local.objs, local.objs + {TreeObj(t)}, seen, stack); }
        local.PutTree(t);
        stack := rest;
        continue;
      }
      if step.depth >= MAX_TREE_DEPTH {
        return Err(TooDeep), asked;
      }
      if TreeObj(t) in seen {
        SeenStored(local.objs, seen, stack);
        PopStored(local.objs, seen, stack);
        assert seen + {TreeObj(t)} == seen;
        if walk == WithChunks { WalkedPop(local.objs, local.objs, seen, stack); }
        stack := rest;
        continue;
      }
      if walk == Trees && TreeObj(t) in local.objs {
        PopStored(local.objs, seen, stack);
        seen := seen + {TreeObj(t)};
        stack := rest;
        continue;
      }
      var own: seq<Step> := [];
      if TreeObj(t) !in local.objs {
        var refusal := Refused(remote(TreeObj(t), asked), TreeObj(t));
        asked := asked + 1;
        if refusal.Some? {
          return Err(refusal.value), asked;
        }
        own := [Store(t)];
      }
      var chunks, subs := Split(t, step.depth);
      PushOpen(local.objs, seen, stack, subs);
      SplitInside(root, t, subs);
      ghost var (was, before, held) := (stack, seen, local.objs);
      stack := rest + own + subs;
      seen := seen + {TreeObj(t)};
      if walk == WithChunks {
        var more;
        more, asked := FetchChunks(remote, asked, local, seen, chunks);
        MoreStored(held, local.objs, before + {TreeObj(t)}, stack);
        if more.Err? {
          return Err(more.error), asked;
        }
        SeenChunks(local.objs, seen, more.value, chunks, stack);
        seen := more.value;
        WalkOne(held, local.objs, before, seen, was, stack, subs, t);
      }
    }
    WalkDone(local.objs, seen, root, walk);
    r := Ok(());
  }

  lemma StartStack(objs: set<Id>, root: TreeId)
    ensures StoresCovered(objs, [Enter(root, 0)]) && SeenCovered(objs, {}, [Enter(root, 0)]) && Nested([Enter(root, 0)])
    ensures Walked(objs, {}, [Enter(root, 0)])
  {
  }

  lemma SplitInside(root: TreeId, t: TreeId, subs: seq<Step>)
    requires TreeObj(t) in TreeClosure(root) && Entering(t, subs)
    ensures forall i :: 0 <= i < |subs| ==> TreeObj(subs[i].t) in TreeClosure(root)
    ensures forall c :: c in Chunks(t) ==> ChunkObj(c) in TreeClosure(root)
  {
    Push.ClosureClosed(root);
    assert Children(t) <= TreeClosure(root);
    forall c | c in Subtrees(t) ensures TreeObj(c) in Children(t) { }
    forall c | c in Chunks(t) ensures ChunkObj(c) in Children(t) { }
  }

  /** Chunks among the seen ids do not matter to the tree invariants. */
  lemma SeenChunks(objs: set<Id>, seen: set<Id>, now: set<Id>, chunks: seq<ChunkId>, stack: seq<Step>)
    requires SeenCovered(objs, seen, stack) && now == seen + (set c | c in chunks :: ChunkObj(c))
    ensures SeenCovered(objs, now, stack)
    ensures forall u :: TreeObj(u) in now <==> TreeObj(u) in seen
  {
  }

  lemma WalkDone(objs: set<Id>, seen: set<Id>, root: TreeId, walk: Walk)
    requires SeenCovered(objs, seen, []) && TreeObj(root) in seen
    requires walk == WithChunks ==> Walked(objs, seen, [])
    ensures TreeObj(root) in objs
    ensures walk == WithChunks ==> TreeClosure(root) <= objs
  {
    if walk == WithChunks { WalkedAll(objs, seen, root); }
  }

  /** The `Walk::Trees` shortcut is sound: in a closed store a stored tree has every tree under it stored. */
  lemma {:induction false} StoredTrees(objs: set<Id>, t: TreeId)
    requires TreesClosed(objs) && TreeObj(t) in objs
    ensures forall x :: x in TreeClosure(t) && x.TreeObj? ==> x in objs
  {
    forall x | x in TreeClosure(t) && x.TreeObj? ensures x in objs {
      if x != TreeObj(t) {
        if x in Children(t) {
          assert x.tree in Subtrees(t);
        } else {
          var e :| e in t.entries && e.Dir? && x in TreeClosure(e.subtree);
          assert e.subtree in Subtrees(t);
          StoredTrees(objs, e.subtree);
        }
      }
    }
  }

  /** `fetch_closure`: finished, the whole history and content of the head are local. */
  method FetchClosure(remote: Remote, local: Local, head: CommitId) returns (r: Result<(), FetchError>)
    requires local.Valid()
    modifies local
    ensures local.Valid() && old(local.objs) <= local.objs
    ensures local.objs <= old(local.objs) + Needed(head)
    ensures r.Ok? ==> Needed(head) <= local.objs
  {
    hide History, TreeClosure;
    var commits, asked := FetchCommits(remote, 0, local, head);
    if commits.Err? {
      return Err(commits.error);
    }
    StoredHistory(local.objs, head);
    r, asked := FetchTree(remote, asked, local, head.root, WithChunks);
  }
}
