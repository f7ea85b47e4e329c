/** Newest-first topological order of a history: Kahn's algorithm with a priority heap. */
module Topo {
  import opened Prelude
  import Dag

  /** A commit id, compared as a big-endian number. */
  datatype Id = Id(n: nat)

  type ParentMap = map<Id, seq<Id>>

  /** How many times `q` occurs in a parent list. */
  function Mult(ps: seq<Id>, q: Id): nat {
    if ps == [] then 0 else Mult(ps[..|ps| - 1], q) + if ps[|ps| - 1] == q then 1 else 0
  }

  lemma {:induction false} MultIn(ps: seq<Id>, q: Id)
    ensures Mult(ps, q) > 0 <==> q in ps
  {
    if ps != [] {
      MultIn(ps[..|ps| - 1], q);
      assert ps == ps[..|ps| - 1] + [ps[|ps| - 1]];
    }
  }

  /** The weight of `c` in the child count of `q`: its edges to `q`, with repetition. */
  function Weight(parents: ParentMap, q: Id): Id -> nat {
    c => if c in parents then Mult(parents[c], q) else 0
  }

  /** How many edges lead to `q` from `s`. */
  ghost function Count(parents: ParentMap, s: set<Id>, q: Id): nat {
    Sum(s, Weight(parents, q))
  }

  lemma {:induction false} CountZero(parents: ParentMap, s: set<Id>, q: Id)
    ensures Count(parents, s, q) == 0 <==> forall c: Id :: c in s ==> !Dag.Edge(parents, c, q)
  {
    if s != {} {
      var c: Id :| c in s;
      SumTakes(s, Weight(parents, q), c);
      CountZero(parents, s - {c}, q);
      if c in parents {
        MultIn(parents[c], q);
      }
      forall d: Id | d in s ensures d == c || d in s - {c} {
      }
    }
  }

  lemma CountTakes(parents: ParentMap, s: set<Id>, q: Id, c: Id)
    requires c in s && c in parents
    ensures Count(parents, s, q) == Mult(parents[c], q) + Count(parents, s - {c}, q)
  {
    SumTakes(s, Weight(parents, q), c);
  }

  // ---- specification ----

  /** Every child of `q` is already listed. */
  ghost predicate Ready(parents: ParentMap, listed: set<Id>, q: Id) {
    q in parents && q !in listed && forall c: Id :: c in parents && Dag.Edge(parents, c, q) ==> c in listed
  }

  /** `(ts, id)` order, the heap's. */
  predicate NotAfter(ts: map<Id, nat>, a: Id, b: Id)
    requires a in ts && b in ts
  {
    ts[a] < ts[b] || (ts[a] == ts[b] && a.n <= b.n)
  }

  function SetOf(s: seq<Id>): set<Id> {
    set x | x in s
  }

  ghost predicate Distinct(s: seq<Id>) {
    forall i, j :: 0 <= i < j < |s| ==> s[i] != s[j]
  }

  /** `x` is ready, and no ready commit is newer, nor as new with a larger id. */
  ghost predicate Chosen(parents: ParentMap, ts: map<Id, nat>, listed: set<Id>, x: Id)
    requires ts.Keys == parents.Keys
  {
    Ready(parents, listed, x) && forall q: Id :: Ready(parents, listed, q) ==>
      ts[q] < ts[x] || (ts[q] == ts[x] && q.n <= x.n)
  }

  /** Each listed commit was the largest ready one when it was taken. */
  ghost predicate Greedy(parents: ParentMap, ts: map<Id, nat>, order: seq<Id>)
    requires ts.Keys == parents.Keys
  {
    forall k :: 0 <= k < |order| ==> Chosen(parents, ts, SetOf(order[..k]), order[k])
  }

  /** Every edge stays inside the map: the history was loaded whole. */
  ghost predicate Whole(parents: ParentMap) {
    forall c: Id, p: Id :: Dag.Edge(parents, c, p) ==> p in parents
  }

  /** A greedy listing puts every child before its parents. */
  lemma ChildrenFirst(parents: ParentMap, ts: map<Id, nat>, order: seq<Id>, i: nat, j: nat)
    requires ts.Keys == parents.Keys && Greedy(parents, ts, order) && Distinct(order)
    requires i < |order| && j < |order| && Dag.Edge(parents, order[i], order[j])
    ensures i < j
  {
    assert Chosen(parents, ts, SetOf(order[..j]), order[j]);
    assert order[i] in SetOf(order[..j]);
  }

  // ---- the algorithm ----

  ghost predicate Counts(parents: ParentMap, open: set<Id>, children: map<Id, nat>) {
    children.Keys == parents.Keys && forall q: Id :: q in parents ==> children[q] == Count(parents, open, q)
  }

  /** The counting pass: one tick per edge, repeated parents counted repeatedly. */
  method CountChildren(parents: ParentMap) returns (children: map<Id, nat>)
    requires Whole(parents)
    ensures Counts(parents, parents.Keys, children)
  {
    hide Counts;
    children := map k: Id | k in parents :: 0;
    StartCounts(parents, children);
    var todo := parents.Keys;
    ghost var done: set<Id> := {};
    while todo != {}
      invariant todo !! done && todo + done == parents.Keys
      invariant Counts(parents, done, children)
      decreases todo
    {
      var c: Id :| c in todo;
      children := AddEdges(parents, c, children, done);
      done := done + {c};
      todo := todo - {c};
    }
    assert done == parents.Keys;
  }

  lemma StartCounts(parents: ParentMap, children: map<Id, nat>)
    requires children == map k: Id | k in parents :: 0
    ensures Counts(parents, {}, children)
  {
  }

  method AddEdges(parents: ParentMap, c: Id, start: map<Id, nat>, ghost done: set<Id>) returns (children: map<Id, nat>)
    requires Whole(parents) && c in parents && c !in done && Counts(parents, done, start)
    ensures Counts(parents, done + {c}, children)
  {
    hide Count;
    var ps := parents[c];
    children := start;
    for i := 0 to |ps|
      invariant children.Keys == parents.Keys
      invariant forall q: Id :: q in parents ==> children[q] == Count(parents, done, q) + Mult(ps[..i], q)
    {
      assert Dag.Edge(parents, c, ps[i]);
      children := children[ps[i] := children[ps[i]] + 1];
      assert ps[..i + 1][..i] == ps[..i];
    }
    assert ps[..|ps|] == ps;
    forall q: Id | q in parents ensures children[q] == Count(parents, done + {c}, q) {
      CountTakes(parents, done + {c}, q, c);
      assert done + {c} - {c} == done;
    }
  }

  /** The heap as a multiset: exactly the open commits whose count is zero, once each. */
  ghost predicate HeapIs(heap: multiset<Id>, children: map<Id, nat>, listed: set<Id>) {
    heap == multiset(set q: Id | q in children && q !in listed && children[q] == 0)
  }

  /** `pop`: the heap's largest `(ts, id)`. */
  method PopMax(heap: multiset<Id>, ts: map<Id, nat>) returns (best: Id)
    requires heap != multiset{} && forall q: Id :: q in heap ==> q in ts
    ensures best in heap && forall q: Id :: q in heap ==> NotAfter(ts, q, best)
  {
    best :| best in heap;
    var todo := heap;
    ghost var done: set<Id> := {};
    while todo != multiset{}
      invariant best in heap && todo <= heap
      invariant forall q: Id :: q in heap ==> q in todo || q in done
      invariant forall q: Id :: q in done ==> q in heap && NotAfter(ts, q, best)
      decreases |todo|
    {
      var q: Id :| q in todo;
      if !NotAfter(ts, q, best) {
        best := q;
      }
      todo := todo - multiset{q};
      done := done + {q};
    }
  }

  /** The loop state between pops. */
  ghost predicate Running(parents: ParentMap, ts: map<Id, nat>, order: seq<Id>, children: map<Id, nat>,
                          heap: multiset<Id>)
    requires ts.Keys == parents.Keys
  {
    && Distinct(order) && SetOf(order) <= parents.Keys && Greedy(parents, ts, order)
    && Counts(parents, parents.Keys - SetOf(order), children)
    && HeapIs(heap, children, SetOf(order))
    && forall q: Id :: q in order ==> q in children && children[q] == 0
  }

  /** A zero count means every child is listed. */
  lemma ZeroIsReady(parents: ParentMap, order: seq<Id>, children: map<Id, nat>, q: Id)
    requires Counts(parents, parents.Keys - SetOf(order), children) && q in parents && q !in order
    ensures children[q] == 0 <==> Ready(parents, SetOf(order), q)
  {
    CountZero(parents, parents.Keys - SetOf(order), q);
    if children[q] == 0 {
      forall c: Id | c in parents && Dag.Edge(parents, c, q) ensures c in SetOf(order) {
        assert c in parents.Keys - SetOf(order) ==> !Dag.Edge(parents, c, q);
      }
    }
  }

  /** One pop's bookkeeping: drop the popped commit's edges, readying parents that reach zero. */
  method Release(parents: ParentMap, cid: Id, ghost listed: set<Id>, start: map<Id, nat>, from: multiset<Id>)
    returns (children: map<Id, nat>, heap: multiset<Id>)
    requires Whole(parents) && cid in parents && cid in listed
    requires start.Keys == parents.Keys
    requires forall q: Id :: q in parents ==>
            start[q] == Count(parents, parents.Keys - listed, q) + Mult(parents[cid], q)
    requires forall q: Id :: q in listed ==> q in parents && start[q] == 0
    requires HeapIs(from, start, listed)
    ensures Counts(parents, parents.Keys - listed, children)
    ensures HeapIs(heap, children, listed)
    ensures forall q: Id :: q in listed ==> q in children && children[q] == 0
  {
    hide Count;
    var ps := parents[cid];
    children, heap := start, from;
    forall q: Id ensures Tail(ps, 0, q) == Mult(ps, q) {
      TailIsMult(ps, q, 0);
    }
    var i := 0;
    while i < |ps|
      invariant 0 <= i <= |ps|
      invariant children.Keys == parents.Keys
      invariant forall q: Id :: q in parents ==>
              children[q] == Count(parents, parents.Keys - listed, q) + Tail(ps, i, q)
      invariant forall q: Id :: q in listed ==> children[q] == 0
      invariant HeapIs(heap, children, listed)
    {
      var p := ps[i];
      assert Dag.Edge(parents, cid, p);
      ghost var was := children;
      children := children[p := children[p] - 1];
      HeapStep(was, p, listed, heap);
      if children[p] == 0 {
        heap := heap + multiset{p};
      }
      i := i + 1;
    }
  }

  /** Occurrences of `q` from position `i` on. */
  function Tail(ps: seq<Id>, i: nat, q: Id): nat
    requires i <= |ps|
    decreases |ps| - i
  {
    if i == |ps| then 0 else Tail(ps, i + 1, q) + if ps[i] == q then 1 else 0
  }

  lemma {:induction false} TailIsMult(ps: seq<Id>, q: Id, i: nat)
    requires i <= |ps|
    ensures Tail(ps, i, q) + Mult(ps[..i], q) == Mult(ps, q)
    decreases |ps| - i
  {
    if i < |ps| {
      TailIsMult(ps, q, i + 1);
      assert ps[..i + 1][..i] == ps[..i];
    } else {
      assert ps[..i] == ps;
    }
  }

  lemma HeapStep(was: map<Id, nat>, p: Id, listed: set<Id>, heap: multiset<Id>)
    requires HeapIs(heap, was, listed) && p in was && was[p] > 0 && p !in listed
    ensures HeapIs(if was[p] == 1 then heap + multiset{p} else heap, was[p := was[p] - 1], listed)
  {
    var now := was[p := was[p] - 1];
    var a := set q: Id | q in was && q !in listed && was[q] == 0;
    var b := set q: Id | q in now && q !in listed && now[q] == 0;
    if was[p] == 1 {
      assert b == a + {p} && p !in a;
    } else {
      assert b == a;
    }
  }

  ghost predicate HasChild(parents: ParentMap, s: set<Id>, q: Id) {
    exists c: Id :: c in s && Dag.Edge(parents, c, q)
  }

  lemma ChildOf(parents: ParentMap, s: set<Id>, q: Id) returns (c: Id)
    requires Dag.Acyclic(parents) && HasChild(parents, s, q)
    ensures c in s && Dag.Edge(parents, c, q) && !Dag.Reach(parents, q, c) && Dag.Reach(parents, c, q)
  {
    c :| c in s && Dag.Edge(parents, c, q);
    Dag.ReachSelf<Id>(parents, c);
    Dag.ReachStep<Id>(parents, c, c, q);
  }

  /** A nonempty set in which everything has a child inside is cyclic. */
  lemma {:induction false} SomeoneIsReady(parents: ParentMap, s: set<Id>, cur: Id, visited: set<Id>)
    requires Dag.Acyclic(parents) && cur in s && visited <= s
    requires forall q: Id :: q in s ==> HasChild(parents, s, q)
    requires forall v: Id :: v in visited ==> Dag.Reach(parents, cur, v)
    ensures false
    decreases s - visited
  {
    hide Dag.Reach, Dag.Acyclic, Dag.Edge, HasChild;
    var c := ChildOf(parents, s, cur);
    Dag.ReachSelf<Id>(parents, c);
    forall v: Id | v in visited ensures Dag.Reach(parents, c, v) {
      Dag.ReachTrans<Id>(parents, c, cur, v);
    }
    assert c in s - visited;
    SomeoneIsReady(parents, s, c, visited + {c});
  }

  /** With nothing ready, an acyclic history is fully listed. */
  lemma NothingReady(parents: ParentMap, order: seq<Id>, children: map<Id, nat>)
    requires Dag.Acyclic(parents) && Counts(parents, parents.Keys - SetOf(order), children)
    requires forall q: Id :: q in parents && q !in order ==> children[q] != 0
    requires SetOf(order) <= parents.Keys
    ensures SetOf(order) == parents.Keys
  {
    hide Count, Dag.Reach, Dag.Acyclic, HasChild;
    var open := parents.Keys - SetOf(order);
    if open != {} {
      var cur: Id :| cur in open;
      forall q: Id | q in open ensures HasChild(parents, open, q) {
        NonzeroHasChild(parents, open, q);
      }
      SomeoneIsReady(parents, open, cur, {});
    }
    assert parents.Keys <= SetOf(order) by {
      assert open == {};
      assert forall x: Id :: x in parents ==> x in SetOf(order) || x in open;
    }
  }

  lemma NonzeroHasChild(parents: ParentMap, s: set<Id>, q: Id)
    requires Count(parents, s, q) != 0
    ensures HasChild(parents, s, q)
  {
    CountZero(parents, s, q);
  }

  lemma StartRunning(parents: ParentMap, ts: map<Id, nat>, children: map<Id, nat>, heap: multiset<Id>)
    requires ts.Keys == parents.Keys && Counts(parents, parents.Keys, children) && HeapIs(heap, children, {})
    ensures Running(parents, ts, [], children, heap)
  {
    assert SetOf([]) == {} && parents.Keys - {} == parents.Keys;
  }

  /** Appending the largest ready commit keeps the listing greedy. */
  lemma GreedyAppend(parents: ParentMap, ts: map<Id, nat>, order: seq<Id>, cid: Id)
    requires ts.Keys == parents.Keys && Greedy(parents, ts, order) && Chosen(parents, ts, SetOf(order), cid)
    ensures Greedy(parents, ts, order + [cid])
  {
    hide Chosen;
    var all := order + [cid];
    assert order[..|order|] == order;
    forall k | 0 <= k < |all| ensures Chosen(parents, ts, SetOf(all[..k]), all[k]) {
      assert all[..k] == order[..k];
    }
  }

  lemma Popped(parents: ParentMap, ts: map<Id, nat>, order: seq<Id>, children: map<Id, nat>, heap: multiset<Id>,
               cid: Id)
    requires ts.Keys == parents.Keys && Running(parents, ts, order, children, heap)
    requires cid in heap && forall q: Id :: q in heap ==> q in ts && NotAfter(ts, q, cid)
    ensures cid in parents && cid !in order && children[cid] == 0
    ensures Distinct(order + [cid]) && SetOf(order + [cid]) == SetOf(order) + {cid} &&
            Greedy(parents, ts, order + [cid])
  {
    hide Counts, HeapIs, Greedy, Ready, Chosen, NotAfter;
    CountsKeys(parents, parents.Keys - SetOf(order), children);
    HeapMembers(heap, children, SetOf(order));
    forall q: Id | q in parents && q !in order ensures children[q] == 0 <==> Ready(parents, SetOf(order), q) {
      ZeroIsReady(parents, order, children, q);
    }
    forall q: Id | Ready(parents, SetOf(order), q) ensures q in ts && NotAfter(ts, q, cid) {
      ReadyOpen(parents, order, q);
    }
    ChosenFrom(parents, ts, SetOf(order), cid);
    GreedyAppend(parents, ts, order, cid);
  }

  lemma ChosenFrom(parents: ParentMap, ts: map<Id, nat>, listed: set<Id>, x: Id)
    requires ts.Keys == parents.Keys && Ready(parents, listed, x)
    requires forall q: Id :: Ready(parents, listed, q) ==> q in ts && x in ts && NotAfter(ts, q, x)
    ensures Chosen(parents, ts, listed, x)
  {
  }

  lemma ReadyOpen(parents: ParentMap, order: seq<Id>, q: Id)
    requires Ready(parents, SetOf(order), q)
    ensures q in parents && q !in order
  {
  }

  lemma Accounts(parents: ParentMap, order: seq<Id>, children: map<Id, nat>, cid: Id)
    requires Counts(parents, parents.Keys - SetOf(order), children) && cid in parents && cid !in order
    ensures forall q: Id :: q in parents ==>
              children[q] == Count(parents, parents.Keys - SetOf(order + [cid]), q) + Mult(parents[cid], q)
  {
    hide Count;
    assert parents.Keys - SetOf(order) - {cid} == parents.Keys - SetOf(order + [cid]);
    forall q: Id | q in parents
      ensures children[q] == Count(parents, parents.Keys - SetOf(order + [cid]), q) + Mult(parents[cid], q)
    {
      CountTakes(parents, parents.Keys - SetOf(order), q, cid);
    }
  }

  lemma HeapWithout(heap: multiset<Id>, children: map<Id, nat>, listed: set<Id>, cid: Id)
    requires HeapIs(heap, children, listed) && cid in heap
    ensures HeapIs(heap - multiset{cid}, children, listed + {cid})
  {
    var a := set q: Id | q in children && q !in listed && children[q] == 0;
    var b := set q: Id | q in children && q !in listed + {cid} && children[q] == 0;
    assert b == a - {cid};
  }

  /** One turn of the loop: pop the largest ready commit, list it, release its parents. */
  method PopStep(parents: ParentMap, ts: map<Id, nat>, ghost order: seq<Id>, start: map<Id, nat>, from: multiset<Id>)
    returns (cid: Id, children: map<Id, nat>, heap: multiset<Id>)
    requires ts.Keys == parents.Keys && Whole(parents) && from != multiset{}
    requires Running(parents, ts, order, start, from)
    ensures Running(parents, ts, order + [cid], children, heap)
    ensures cid in parents.Keys - SetOf(order)
  {
    hide Running, Counts, HeapIs, Whole, Count, Mult, Distinct, Greedy;
    HeapKnown(parents, ts, order, start, from);
    cid := PopMax(from, ts);
    ghost var listed := SetOf(order) + {cid};
    BeforeRelease(parents, ts, order, start, from, cid);
    children, heap := Release(parents, cid, listed, start, from - multiset{cid});
    AfterRelease(parents, ts, order + [cid], children, heap);
  }

  lemma HeapKnown(parents: ParentMap, ts: map<Id, nat>, order: seq<Id>, children: map<Id, nat>, heap: multiset<Id>)
    requires ts.Keys == parents.Keys && Running(parents, ts, order, children, heap)
    ensures forall q: Id :: q in heap ==> q in ts
  {
    HeapMembers(heap, children, SetOf(order));
  }

  /** What a popped commit hands to the release loop. */
  lemma BeforeRelease(parents: ParentMap, ts: map<Id, nat>, order: seq<Id>, start: map<Id, nat>, from: multiset<Id>,
                      cid: Id)
    requires ts.Keys == parents.Keys && Running(parents, ts, order, start, from)
    requires cid in from && forall q: Id :: q in from ==> q in ts && NotAfter(ts, q, cid)
    ensures cid in parents && cid !in SetOf(order) && start.Keys == parents.Keys
    ensures SetOf(order + [cid]) == SetOf(order) + {cid} <= parents.Keys
    ensures Distinct(order + [cid]) && Greedy(parents, ts, order + [cid])
    ensures forall q: Id :: q in parents ==>
              start[q] == Count(parents, parents.Keys - (SetOf(order) + {cid}), q) + Mult(parents[cid], q)
    ensures forall q: Id :: q in SetOf(order) + {cid} ==> q in parents && start[q] == 0
    ensures HeapIs(from - multiset{cid}, start, SetOf(order) + {cid})
  {
    CountsKeys(parents, parents.Keys - SetOf(order), start);
    hide Counts, HeapIs, Greedy, Count, Mult, Distinct;
    Popped(parents, ts, order, start, from, cid);
    Accounts(parents, order, start, cid);
    HeapWithout(from, start, SetOf(order), cid);
  }

  lemma AfterRelease(parents: ParentMap, ts: map<Id, nat>, order: seq<Id>, children: map<Id, nat>, heap: multiset<Id>)
    requires ts.Keys == parents.Keys && Distinct(order) && SetOf(order) <= parents.Keys && Greedy(parents, ts, order)
    requires Counts(parents, parents.Keys - SetOf(order), children) && HeapIs(heap, children, SetOf(order))
    requires forall q: Id :: q in SetOf(order) ==> q in children && children[q] == 0
    ensures Running(parents, ts, order, children, heap)
  {
    hide Greedy, Counts, HeapIs, Distinct;
    assert forall q: Id :: q in order ==> q in SetOf(order);
  }

  /**
   Kahn's loop on a loaded history: each commit at most once, taken as the largest `(ts, id)`
   among the ready ones, and none left out when the history is acyclic.
   */
  method KahnOrder(parents: ParentMap, ts: map<Id, nat>) returns (order: seq<Id>)
    requires ts.Keys == parents.Keys && Whole(parents)
    ensures Distinct(order) && SetOf(order) <= parents.Keys && Greedy(parents, ts, order)
    ensures Dag.Acyclic(parents) ==> SetOf(order) == parents.Keys
  {
    hide Running, Counts, Dag.Acyclic, Whole, Greedy, Distinct;
    var children := CountChildren(parents);
    var heap := multiset(set q: Id | q in children && children[q] == 0);
    StartHeap(children);
    order := [];
    StartRunning(parents, ts, children, heap);
    while heap != multiset{}
      invariant Running(parents, ts, order, children, heap)
      decreases parents.Keys - SetOf(order)
    {
      ghost var was := order;
      var cid;
      cid, children, heap := PopStep(parents, ts, order, children, heap);
      order := order + [cid];
      assert SetOf(order) == SetOf(was) + {cid};
    }
    RunningDone(parents, ts, order, children);
  }

  lemma RunningDone(parents: ParentMap, ts: map<Id, nat>, order: seq<Id>, children: map<Id, nat>)
    requires ts.Keys == parents.Keys && Running(parents, ts, order, children, multiset{})
    ensures Distinct(order) && SetOf(order) <= parents.Keys && Greedy(parents, ts, order)
    ensures Dag.Acyclic(parents) ==> SetOf(order) == parents.Keys
  {
    hide Dag.Acyclic, Greedy, Count, Dag.Reach;
    HeapMembers(multiset{}, children, SetOf(order));
    assert forall q: Id :: q in order <==> q in SetOf(order);
    if Dag.Acyclic(parents) {
      NothingReady(parents, order, children);
    }
  }

  lemma CountsKeys(parents: ParentMap, open: set<Id>, children: map<Id, nat>)
    requires Counts(parents, open, children)
    ensures children.Keys == parents.Keys
  {
  }

  lemma StartHeap(children: map<Id, nat>)
    ensures HeapIs(multiset(set q: Id | q in children && children[q] == 0), children, {})
  {
    assert (set q: Id | q in children && children[q] == 0) ==
        (set q: Id | q in children && q !in {} && children[q] == 0);
  }

  lemma HeapMembers(heap: multiset<Id>, children: map<Id, nat>, listed: set<Id>)
    requires HeapIs(heap, children, listed)
    ensures forall q: Id :: q in heap <==> q in children && q !in listed && children[q] == 0
  {
  }

  // ---- loading ----

  /** A stored commit: its parents and advisory timestamp. */
  datatype Commit = Commit(parents: seq<Id>, ts: nat)

  function Edges(store: map<Id, Commit>): ParentMap {
    map c: Id | c in store :: store[c].parents
  }

  /** The part of the store the head reaches. */
  ghost function HistoryParents(store: map<Id, Commit>, head: Id): ParentMap {
    map c: Id | c in store && Dag.Reach(Edges(store), head, c) :: store[c].parents
  }

  ghost function HistoryTimes(store: map<Id, Commit>, head: Id): map<Id, nat> {
    map c: Id | c in store && Dag.Reach(Edges(store), head, c) :: store[c].ts
  }

  /** The loading walk: the parents and timestamps of everything reachable from the head. */
  method LoadHistory(store: map<Id, Commit>, head: Id) returns (r: Result<(ParentMap, map<Id, nat>), Id>)
    ensures r.Ok? ==> r.value.0.Keys == r.value.1.Keys && Whole(r.value.0)
    ensures r.Ok? ==> forall x: Id :: x in r.value.0 <==> Dag.Reach(Edges(store), head, x)
    ensures r.Ok? ==> forall x: Id :: x in r.value.0 ==>
              x in store && r.value.0[x] == store[x].parents && r.value.1[x] == store[x].ts
    ensures r.Err? ==> r.error !in store && Dag.Reach(Edges(store), head, r.error)
  {
    hide Dag.Walking, Dag.Reach;
    var parents: ParentMap, ts: map<Id, nat> := map[], map[];
    var work := [head];
    ghost var full := Edges(store);
    Dag.WalkStart<Id>(full, [head]);
    assert parents.Keys == {};
    while work != []
      invariant parents.Keys == ts.Keys
      invariant forall x: Id :: x in parents ==> x in store && parents[x] == store[x].parents && ts[x] == store[x].ts
      invariant Dag.Walking(full, [head], parents.Keys, work)
      decreases store.Keys - parents.Keys, |work|
    {
      var cid := work[|work| - 1];
      if cid in parents {
        Dag.WalkSkip<Id>(full, [head], parents.Keys, work);
        work := work[..|work| - 1];
      } else {
        if cid !in store {
          OnListReached(full, head, parents.Keys, work);
          return Err(cid);
        }
        var more := Dag.Unseen(store[cid].parents, parents.Keys);
        Dag.WalkStep<Id>(full, [head], parents.Keys, work, more);
        ghost var was := parents.Keys;
        work := work[..|work| - 1] + more;
        parents, ts := parents[cid := store[cid].parents], ts[cid := store[cid].ts];
        assert parents.Keys == was + {cid} && cid in store.Keys - was;
      }
    }
    Dag.WalkDone<Id>(full, [head], parents.Keys);
    Dag.ClosureOfOne<Id>(full, head, parents.Keys);
    LoadedWhole(store, parents, head);
    return Ok((parents, ts));
  }

  lemma OnListReached(full: ParentMap, head: Id, seen: set<Id>, work: seq<Id>)
    requires work != [] && Dag.Walking(full, [head], seen, work)
    ensures Dag.Reach(full, head, work[|work| - 1])
  {
    assert Dag.From(full, [head], work[|work| - 1]);
  }

  lemma LoadedWhole(store: map<Id, Commit>, parents: ParentMap, head: Id)
    requires forall x: Id :: x in parents <==> Dag.Reach(Edges(store), head, x)
    requires forall x: Id :: x in parents ==> x in store && parents[x] == store[x].parents
    ensures Whole(parents)
  {
    forall c: Id, p: Id | Dag.Edge(parents, c, p) ensures p in parents {
      Dag.ReachStep<Id>(Edges(store), head, c, p);
    }
  }

  lemma LoadedAcyclic(store: map<Id, Commit>, parents: ParentMap)
    requires Dag.Acyclic(Edges(store))
    requires forall x: Id :: x in parents ==> x in store && parents[x] == store[x].parents
    ensures Dag.Acyclic(parents)
  {
    forall c: Id, p: Id | Dag.Edge(parents, c, p) ensures !Dag.Reach(parents, p, c) {
      assert Dag.Edge(Edges(store), c, p);
      if Dag.Reach(parents, p, c) {
        var path :| Dag.IsPath(parents, path) && path[0] == p && path[|path| - 1] == c;
        forall i | 0 <= i < |path| - 1 ensures Dag.Edge(Edges(store), path[i], path[i + 1]) {
          assert Dag.Edge(parents, path[i], path[i + 1]);
        }
        assert Dag.IsPath(Edges(store), path);
      }
    }
  }

  /**
   `topo_order`: each commit reachable from the head exactly once (content addresses are acyclic),
   every child before its parents, always the largest `(ts, id)` among the ready ones; the only
   error is a missing commit.
   */
  method TopoOrder(store: map<Id, Commit>, head: Id) returns (r: Result<seq<Id>, Id>)
    ensures r.Err? ==> r.error !in store && Dag.Reach(Edges(store), head, r.error)
    ensures r.Ok? ==> Distinct(r.value)
    ensures r.Ok? ==> forall x: Id :: x in r.value ==> x in store && Dag.Reach(Edges(store), head, x)
    ensures r.Ok? && Dag.Acyclic(Edges(store)) ==> forall x: Id :: Dag.Reach(Edges(store), head, x) ==> x in r.value
    ensures r.Ok? ==>
            forall i, j :: 0 <= i < |r.value| && 0 <= j < |r.value| && r.value[j] in store[r.value[i]].parents ==> i < j
    ensures r.Ok? ==> Greedy(HistoryParents(store, head), HistoryTimes(store, head), r.value)
  {
    hide Dag.Acyclic, Dag.Reach, Greedy, Whole;
    var loaded := LoadHistory(store, head);
    if loaded.Err? {
      return Err(loaded.error);
    }
    var (parents, ts) := loaded.value;
    if Dag.Acyclic(Edges(store)) {
      LoadedAcyclic(store, parents);
    }
    var order := KahnOrder(parents, ts);
    assert forall x: Id :: x in order <==> x in SetOf(order);
    assert HistoryParents(store, head) == parents && HistoryTimes(store, head) == ts;
    forall i, j | 0 <= i < |order| && 0 <= j < |order| && order[j] in store[order[i]].parents ensures i < j {
      assert order[i] in parents;
      ChildrenFirst(parents, ts, order, i, j);
    }
    return Ok(order);
  }
}
