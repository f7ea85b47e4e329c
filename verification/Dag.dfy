/** Commit-DAG ancestry: worklist traversals that tolerate cycles, against a path-based specification. */
module Dag {
  import opened Prelude

  /** Edges from a commit to its parents; ids without an entry have none. */
  type ParentMap<Id> = map<Id, seq<Id>>

  ghost predicate Edge<Id>(parents: ParentMap<Id>, c: Id, p: Id) {
    c in parents && p in parents[c]
  }

  ghost predicate IsPath<Id>(parents: ParentMap<Id>, path: seq<Id>) {
    path != [] && forall i :: 0 <= i < |path| - 1 ==> Edge(parents, path[i], path[i + 1])
  }

  /** `b` is reachable from `a` along parent edges, in zero or more steps. */
  ghost predicate Reach<Id(!new)>(parents: ParentMap<Id>, a: Id, b: Id) {
    exists path :: IsPath(parents, path) && path[0] == a && path[|path| - 1] == b
  }

  lemma ReachSelf<Id(!new)>(parents: ParentMap<Id>, a: Id)
    ensures Reach(parents, a, a)
  {
    assert IsPath(parents, [a]);
  }

  lemma ReachStep<Id(!new)>(parents: ParentMap<Id>, a: Id, b: Id, c: Id)
    requires Reach(parents, a, b) && Edge(parents, b, c)
    ensures Reach(parents, a, c)
  {
    var path :| IsPath(parents, path) && path[0] == a && path[|path| - 1] == b;
    assert IsPath(parents, path + [c]);
  }

  lemma {:induction false} PathStays<Id(!new)>(parents: ParentMap<Id>, s: set<Id>, path: seq<Id>)
    requires IsPath(parents, path) && path[0] in s
    requires forall x, y :: x in s && Edge(parents, x, y) ==> y in s
    ensures path[|path| - 1] in s
  {
    if |path| > 1 {
      assert Edge(parents, path[0], path[1]);
      forall i | 0 <= i < |path[1..]| - 1
        ensures Edge(parents, path[1..][i], path[1..][i + 1])
      {
        assert Edge(parents, path[i + 1], path[i + 2]);
      }
      PathStays(parents, s, path[1..]);
    }
  }

  /** A set closed under edges contains everything reachable from its members. */
  lemma ClosedContains<Id(!new)>(parents: ParentMap<Id>, s: set<Id>, a: Id, b: Id)
    requires a in s && Reach(parents, a, b)
    requires forall x, y :: x in s && Edge(parents, x, y) ==> y in s
    ensures b in s
  {
    var path :| IsPath(parents, path) && path[0] == a && path[|path| - 1] == b;
    PathStays(parents, s, path);
  }

  lemma ReachTrans<Id(!new)>(parents: ParentMap<Id>, a: Id, b: Id, c: Id)
    requires Reach(parents, a, b) && Reach(parents, b, c)
    ensures Reach(parents, a, c)
  {
    var p :| IsPath(parents, p) && p[0] == a && p[|p| - 1] == b;
    var q :| IsPath(parents, q) && q[0] == b && q[|q| - 1] == c;
    var r := p + q[1..];
    forall i | 0 <= i < |r| - 1
      ensures Edge(parents, r[i], r[i + 1])
    {
      if i >= |p| - 1 {
        assert Edge(parents, q[i + 1 - |p|], q[i + 2 - |p|]);
      } else {
        assert Edge(parents, p[i], p[i + 1]);
      }
    }
    assert IsPath(parents, r);
  }

  /** A nontrivial walk starts with a parent edge. */
  lemma ReachHead<Id(!new)>(parents: ParentMap<Id>, a: Id, b: Id) returns (p: Id)
    requires Reach(parents, a, b) && a != b
    ensures Edge(parents, a, p) && Reach(parents, p, b)
  {
    var path :| IsPath(parents, path) && path[0] == a && path[|path| - 1] == b;
    assert |path| > 1;
    p := path[1];
    assert Edge(parents, path[0], path[1]);
    forall i | 0 <= i < |path[1..]| - 1
      ensures Edge(parents, path[1..][i], path[1..][i + 1])
    {
      assert Edge(parents, path[i + 1], path[i + 2]);
    }
    assert IsPath(parents, path[1..]);
  }

  /** Everything a traversal can touch. */
  function Universe<Id>(parents: ParentMap<Id>, starts: seq<Id>): set<Id> {
    (set s | s in starts) + set c, p | c in parents && p in parents[c] :: p
  }

  ghost predicate From<Id(!new)>(parents: ParentMap<Id>, starts: seq<Id>, x: Id) {
    exists s :: s in starts && Reach(parents, s, x)
  }

  /** `seen` is exactly what the starts reach. */
  ghost predicate IsClosure<Id(!new)>(parents: ParentMap<Id>, starts: seq<Id>, seen: set<Id>) {
    forall x :: x in seen <==> From(parents, starts, x)
  }

  /** The worklist state: everything found is reachable, and every pending edge is on the list. */
  ghost predicate Walking<Id(!new)>(parents: ParentMap<Id>, starts: seq<Id>, seen: set<Id>, work: seq<Id>) {
    && (forall x :: x in seen || x in work ==> From(parents, starts, x))
    && (forall s :: s in starts ==> s in seen || s in work)
    && (forall x, y :: x in seen && Edge(parents, x, y) ==> y in seen || y in work)
  }

  lemma FromStep<Id(!new)>(parents: ParentMap<Id>, starts: seq<Id>, c: Id, p: Id)
    requires From(parents, starts, c) && Edge(parents, c, p)
    ensures From(parents, starts, p)
  {
    var s :| s in starts && Reach(parents, s, c);
    ReachStep(parents, s, c, p);
  }

  lemma WalkStep<Id(!new)>(parents: ParentMap<Id>, starts: seq<Id>, seen: set<Id>, work: seq<Id>, more: seq<Id>)
    requires work != [] && Walking(parents, starts, seen, work)
    requires
      var c := work[|work| - 1];
      c !in seen
      && (forall p :: p in more ==> Edge(parents, c, p))
      && (forall p :: Edge(parents, c, p) ==> p in more || p in seen + {c})
    ensures Walking(parents, starts, seen + {work[|work| - 1]}, work[..|work| - 1] + more)
  {
    hide Reach, Edge, From;
    var rest, c := work[..|work| - 1], work[|work| - 1];
    assert work == rest + [c];
    forall x | x in seen + {c} || x in rest + more
      ensures From(parents, starts, x)
    {
      if x in more {
        FromStep(parents, starts, c, x);
      }
    }
  }

  lemma WalkSkip<Id(!new)>(parents: ParentMap<Id>, starts: seq<Id>, seen: set<Id>, work: seq<Id>)
    requires work != [] && Walking(parents, starts, seen, work) && work[|work| - 1] in seen
    ensures Walking(parents, starts, seen, work[..|work| - 1])
  {
    hide Reach, Edge, From;
    assert work == work[..|work| - 1] + [work[|work| - 1]];
  }

  lemma WalkDone<Id(!new)>(parents: ParentMap<Id>, starts: seq<Id>, seen: set<Id>)
    requires Walking(parents, starts, seen, [])
    ensures IsClosure(parents, starts, seen)
  {
    forall x | From(parents, starts, x)
      ensures x in seen
    {
      var s :| s in starts && Reach(parents, s, x);
      ClosedContains(parents, seen, s, x);
    }
  }

  lemma WalkStart<Id(!new)>(parents: ParentMap<Id>, starts: seq<Id>)
    ensures Walking(parents, starts, {}, starts)
  {
    forall s | s in starts ensures Reach(parents, s, s) {
      ReachSelf(parents, s);
    }
  }

  method Unseen<Id(==)>(ps: seq<Id>, seen: set<Id>) returns (out: seq<Id>)
    ensures forall p :: p in out <==> p in ps && p !in seen
  {
    out := [];
    for i := 0 to |ps|
      invariant forall p :: p in out <==> p in ps[..i] && p !in seen
    {
      if ps[i] !in seen {
        out := out + [ps[i]];
      }
    }
  }

  /** The closure of `starts` under `Edge`, on any map at all: cycles only revisit what is already seen. */
  method AncestorsOfAll<Id(==,!new)>(parents: ParentMap<Id>, starts: seq<Id>) returns (seen: set<Id>)
    ensures IsClosure(parents, starts, seen)
  {
    hide Walking, Reach;
    seen := {};
    var work := starts;
    WalkStart(parents, starts);
    while work != []
      invariant Walking(parents, starts, seen, work)
      invariant seen <= Universe(parents, starts)
      invariant forall x :: x in work ==> x in Universe(parents, starts)
      decreases Universe(parents, starts) - seen, |work|
    {
      var c := work[|work| - 1];
      if c in seen {
        WalkSkip(parents, starts, seen, work);
        work := work[..|work| - 1];
      } else {
        var more: seq<Id> := [];
        if c in parents {
          more := Unseen(parents[c], seen + {c});
        }
        WalkStep(parents, starts, seen, work, more);
        work := work[..|work| - 1] + more;
        seen := seen + {c};
      }
    }
    WalkDone(parents, starts, seen);
  }

  /** Decides `Reach` from `descendant`, stopping as soon as `ancestor` turns up. */
  method IsAncestor<Id(==,!new)>(parents: ParentMap<Id>, ancestor: Id, descendant: Id) returns (r: bool)
    ensures r <==> Reach(parents, descendant, ancestor)
  {
    hide Walking, Reach;
    if ancestor == descendant {
      ReachSelf(parents, ancestor);
      return true;
    }
    var seen: set<Id>, work := {}, [descendant];
    WalkStart(parents, work);
    while work != []
      invariant Walking(parents, [descendant], seen, work)
      invariant ancestor !in seen && ancestor !in work
      invariant seen <= Universe(parents, [descendant])
      invariant forall x :: x in work ==> x in Universe(parents, [descendant])
      decreases Universe(parents, [descendant]) - seen, |work|
    {
      var c := work[|work| - 1];
      if c in seen {
        WalkSkip(parents, [descendant], seen, work);
        work := work[..|work| - 1];
      } else {
        var more: seq<Id> := [];
        if c in parents {
          if ancestor in parents[c] {
            FoundIt(parents, descendant, seen, work, ancestor);
            return true;
          }
          more := Unseen(parents[c], seen + {c});
        }
        WalkStep(parents, [descendant], seen, work, more);
        work := work[..|work| - 1] + more;
        seen := seen + {c};
      }
    }
    NotFound(parents, descendant, seen, ancestor);
    return false;
  }

  lemma FoundIt<Id(!new)>(parents: ParentMap<Id>, d: Id, seen: set<Id>, work: seq<Id>, a: Id)
    requires work != [] && Walking(parents, [d], seen, work) && Edge(parents, work[|work| - 1], a)
    ensures Reach(parents, d, a)
  {
    assert From(parents, [d], work[|work| - 1]);
    ReachStep(parents, d, work[|work| - 1], a);
  }

  lemma NotFound<Id(!new)>(parents: ParentMap<Id>, d: Id, seen: set<Id>, a: Id)
    requires Walking(parents, [d], seen, []) && a !in seen
    ensures !Reach(parents, d, a)
  {
    WalkDone(parents, [d], seen);
    assert d in [d] && (Reach(parents, d, a) ==> From(parents, [d], a));
  }

  lemma ClosureOfOne<Id(!new)>(parents: ParentMap<Id>, a: Id, seen: set<Id>)
    requires IsClosure(parents, [a], seen)
    ensures forall x :: x in seen <==> Reach(parents, a, x)
  {
    assert forall s :: s in [a] <==> s == a;
    assert forall x :: From(parents, [a], x) <==> Reach(parents, a, x);
  }

  /** The sibling's closure without ours; without an `ours`, all of it. */
  method NewCommits<Id(==,!new)>(parents: ParentMap<Id>, ours: Option<Id>, sibling: Id) returns (r: set<Id>)
    ensures forall x :: x in r <==> Reach(parents, sibling, x) && !(ours.Some? && Reach(parents, ours.value, x))
  {
    hide Reach;
    var known: set<Id> := {};
    if ours.Some? {
      known := AncestorsOfAll(parents, [ours.value]);
      ClosureOfOne(parents, ours.value, known);
    }
    var all := AncestorsOfAll(parents, [sibling]);
    ClosureOfOne(parents, sibling, all);
    r := all - known;
  }

  // ---- lowest common ancestors ----

  ghost predicate Common<Id(!new)>(parents: ParentMap<Id>, a: Id, b: Id, x: Id) {
    Reach(parents, a, x) && Reach(parents, b, x)
  }

  /** No commit is a proper ancestor of itself. */
  ghost predicate Acyclic<Id(!new)>(parents: ParentMap<Id>) {
    forall c, p :: Edge(parents, c, p) ==> !Reach(parents, p, c)
  }

  /** A common ancestor that no other common ancestor descends to. */
  ghost predicate Lowest<Id(!new)>(parents: ParentMap<Id>, a: Id, b: Id, x: Id) {
    Common(parents, a, b, x) && forall y :: Common(parents, a, b, y) && Reach(parents, y, x) ==> y == x
  }

  method FlattenParents<Id(==,!new)>(parents: ParentMap<Id>, common: set<Id>) returns (starts: seq<Id>)
    ensures forall p :: p in starts <==> exists c :: c in common && Edge(parents, c, p)
  {
    starts := [];
    var todo := common;
    while todo != {}
      invariant todo <= common
      invariant forall p :: p in starts <==> exists c :: c in common - todo && Edge(parents, c, p)
      decreases todo
    {
      var c :| c in todo;
      ghost var before := starts;
      if c in parents {
        starts := starts + parents[c];
      }
      forall p
        ensures p in starts <==> exists d :: d in common - (todo - {c}) && Edge(parents, d, p)
      {
        assert p in starts <==> p in before || Edge(parents, c, p);
        assert c in common - (todo - {c});
      }
      todo := todo - {c};
    }
  }

  /**
   The maximal common ancestors, by subtracting everything below one: never anything else, and on
   an acyclic map all of them.
   */
  method LowestCommonAncestors<Id(==,!new)>(parents: ParentMap<Id>, a: Id, b: Id) returns (r: set<Id>)
    ensures forall x :: x in r ==> Lowest(parents, a, b, x)
    ensures Acyclic(parents) ==> forall x :: x in r <==> Lowest(parents, a, b, x)
  {
    hide Reach, Acyclic, Lowest;
    var ancA := AncestorsOfAll(parents, [a]);
    ClosureOfOne(parents, a, ancA);
    var ancB := AncestorsOfAll(parents, [b]);
    ClosureOfOne(parents, b, ancB);
    var common := set c | c in ancB && c in ancA;
    var starts := FlattenParents(parents, common);
    var below := AncestorsOfAll(parents, starts);
    r := common - below;
    forall x | x in common
      ensures x !in below ==> Lowest(parents, a, b, x)
      ensures Acyclic(parents) && x in below ==> !Lowest(parents, a, b, x)
    {
      BelowIsNotLowest(parents, a, b, common, starts, below, x);
    }
    forall x | Lowest(parents, a, b, x)
      ensures x in common
    {
      LowestIsCommon(parents, a, b, x);
    }
  }

  lemma LowestIsCommon<Id(!new)>(parents: ParentMap<Id>, a: Id, b: Id, x: Id)
    requires Lowest(parents, a, b, x)
    ensures Reach(parents, a, x) && Reach(parents, b, x)
  {
  }

  lemma BelowIsNotLowest<Id(!new)>(parents: ParentMap<Id>, a: Id, b: Id, common: set<Id>, starts: seq<Id>,
                                   below: set<Id>, x: Id)
    requires x in common
    requires forall c :: c in common <==> Common(parents, a, b, c)
    requires forall p :: p in starts <==> exists c :: c in common && Edge(parents, c, p)
    requires IsClosure(parents, starts, below)
    ensures x !in below ==> Lowest(parents, a, b, x)
    ensures Acyclic(parents) && x in below ==> !Lowest(parents, a, b, x)
  {
    if Acyclic(parents) && x in below {
      assert From(parents, starts, x);
      var p :| p in starts && Reach(parents, p, x);
      var c :| c in common && Edge(parents, c, p);
      ReachSelf(parents, c);
      ReachStep(parents, c, c, p);
      ReachTrans(parents, c, p, x);
      assert c != x;
    }
    if !Lowest(parents, a, b, x) {
      AboveMeansBelow(parents, a, b, common, starts, x);
    }
  }

  lemma AboveMeansBelow<Id(!new)>(parents: ParentMap<Id>, a: Id, b: Id, common: set<Id>, starts: seq<Id>, x: Id)
    requires x in common && !Lowest(parents, a, b, x)
    requires forall c :: c in common <==> Common(parents, a, b, c)
    requires forall p :: p in starts <==> exists c :: c in common && Edge(parents, c, p)
    ensures From(parents, starts, x)
  {
    var y :| Common(parents, a, b, y) && Reach(parents, y, x) && y != x;
    var p := ReachHead(parents, y, x);
    assert Edge(parents, y, p) && p in starts;
  }

  /** No lowest common ancestor descends to another. */
  lemma LowestAntichain<Id(!new)>(parents: ParentMap<Id>, a: Id, b: Id, x: Id, y: Id)
    requires Lowest(parents, a, b, x) && Lowest(parents, a, b, y) && Reach(parents, x, y)
    ensures x == y
  {
  }

  /** The sides of a merge agree on its base candidates. */
  lemma LowestSymmetric<Id(!new)>(parents: ParentMap<Id>, a: Id, b: Id, x: Id)
    ensures Lowest(parents, a, b, x) <==> Lowest(parents, b, a, x)
  {
  }

  /** Every common ancestor lies at or below a lowest one, so one exists whenever a common ancestor does. */
  lemma {:induction false} LowestAboveEvery<Id(!new)>(parents: ParentMap<Id>, a: Id, b: Id, pool: set<Id>, x: Id)
    returns (l: Id)
    requires Acyclic(parents) && Common(parents, a, b, x)
    requires forall y :: y != x && Common(parents, a, b, y) && Reach(parents, y, x) ==> y in pool
    ensures Lowest(parents, a, b, l) && Reach(parents, l, x)
    decreases |pool|
  {
    if Lowest(parents, a, b, x) {
      ReachSelf(parents, x);
      l := x;
    } else {
      var y :| Common(parents, a, b, y) && Reach(parents, y, x) && y != x;
      forall z | z != y && Common(parents, a, b, z) && Reach(parents, z, y)
        ensures z in pool - {y}
      {
        ReachTrans(parents, z, y, x);
        if z == x {
          var p := ReachHead(parents, x, y);
          ReachTrans(parents, p, y, x);
          assert false;
        }
      }
      assert |pool - {y}| < |pool|;
      l := LowestAboveEvery(parents, a, b, pool - {y}, y);
      ReachTrans(parents, l, y, x);
    }
  }

  /** The base set is empty exactly for disjoint histories. */
  lemma LowestExists<Id(!new)>(parents: ParentMap<Id>, a: Id, b: Id)
    requires Acyclic(parents)
    ensures (exists x :: Lowest(parents, a, b, x)) <==> (exists x :: Common(parents, a, b, x))
  {
    if x :| Common(parents, a, b, x) {
      var pool := {a} + Universe(parents, []);
      forall y | Common(parents, a, b, y) ensures y in pool {
        ClosedContains(parents, pool, a, y);
      }
      var l := LowestAboveEvery(parents, a, b, pool, x);
    }
  }

  /** A choice among the maximal common ancestors that depends on the graph alone, so all devices agree. */
  method MergeBase(parents: ParentMap<nat>, a: nat, b: nat) returns (r: Option<nat>)
    ensures r.Some? ==> Lowest(parents, a, b, r.value)
    ensures Acyclic(parents) && r.Some? ==> forall x: nat :: Lowest(parents, a, b, x) ==> r.value <= x
    ensures Acyclic(parents) ==> (r.None? <==> !exists x: nat :: Common(parents, a, b, x))
  {
    hide Lowest, Common, Reach, Acyclic;
    var lca: set<nat> := LowestCommonAncestors<nat>(parents, a, b);
    if Acyclic(parents) {
      LowestExists<nat>(parents, a, b);
    }
    if lca == {} {
      return None;
    }
    var best: nat :| best in lca;
    var todo := lca - {best};
    while todo != {}
      invariant best in lca && todo <= lca && forall x: nat :: x in lca && x !in todo ==> best <= x
      decreases todo
    {
      var x: nat :| x in todo;
      if x < best {
        best := x;
      }
      todo := todo - {x};
    }
    r := Some(best);
    assert Lowest(parents, a, b, best);
  }
}
