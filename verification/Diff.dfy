/**
 The id-pruned tree diff behind `secsec log` and retention, against a path-by-path specification.
 `st` is the set of trees the local store holds; any other tree is compared as if it had no entries.
 */
module Diff {
  import opened Prelude
  import opened Frame
  import opened Objects

  type Path = seq<string>

  function Names(st: set<TreeId>, t: Option<TreeId>): set<string> {
    if t.None? || t.value !in st then {} else set e | e in t.value.entries :: e.name
  }

  /** The entry of that name; the strict decoder admits no duplicate names, so the first is the only one. */
  function Find(es: seq<Entry>, name: string): (r: Option<Entry>)
    ensures r.Some? ==> r.value in es && r.value.name == name
    ensures r.None? ==> forall e :: e in es ==> e.name != name
  {
    if es == [] then None
    else if es[0].name == name then Some(es[0])
    else Find(es[1..], name)
  }

  function Get(st: set<TreeId>, t: Option<TreeId>, name: string): (r: Option<Entry>)
    ensures r.Some? ==> t.Some? && r.value in t.value.entries && r.value.name == name
    ensures r.None? <==> name !in Names(st, t)
  {
    if t.None? || t.value !in st then None else Find(t.value.entries, name)
  }

  function SubDir(e: Option<Entry>): Option<TreeId> {
    if e.Some? && e.value.Dir? then Some(e.value.subtree) else None
  }

  function ChunksOf(e: Option<Entry>): Option<seq<ChunkId>> {
    if e.Some? && e.value.File? then Some(e.value.chunks) else None
  }

  /** The content of the file at `p`, `None` when no file is there. */
  function FileAt(st: set<TreeId>, t: Option<TreeId>, p: Path): Option<seq<ChunkId>>
    decreases |p|
  {
    if p == [] then None
    else if |p| == 1 then ChunksOf(Get(st, t, p[0]))
    else FileAt(st, SubDir(Get(st, t, p[0])), p[1..])
  }

  lemma {:induction false} FileAtNone(st: set<TreeId>, p: Path)
    ensures FileAt(st, None, p) == None
  {
    if |p| > 1 {
      FileAtNone(st, p[1..]);
    }
  }

  lemma FileAtStep(st: set<TreeId>, t: Option<TreeId>, name: string, p: Path)
    requires p != []
    ensures FileAt(st, t, [name] + p) == FileAt(st, SubDir(Get(st, t, name)), p)
  {
    assert ([name] + p)[1..] == p;
  }

  /** `q` lies under `prefix`, continues with one of `names`, and its file content differs. */
  ghost predicate Differs(st: set<TreeId>, before: Option<TreeId>, after: Option<TreeId>, prefix: Path,
                          names: set<string>, q: Path) {
    && |prefix| < |q| && q[..|prefix|] == prefix && q[|prefix|] in names
    && FileAt(st, before, q[|prefix|..]) != FileAt(st, after, q[|prefix|..])
  }

  /** `out` lists, without repetition, exactly the differing paths. */
  ghost predicate Lists(st: set<TreeId>, before: Option<TreeId>, after: Option<TreeId>, prefix: Path,
                        names: set<string>, out: seq<Path>) {
    && (forall i, j :: 0 <= i < j < |out| ==> out[i] != out[j])
    && forall q :: q in out <==> Differs(st, before, after, prefix, names, q)
  }

  function Height(t: Option<TreeId>): nat {
    if t.None? then 0 else TreeHeight(t.value)
  }

  /**
   `diff_trees`: subtrees with equal ids are skipped unread, and the result is still exact. The only
   error is nesting past the depth cap.
   */
  method DiffTrees(st: set<TreeId>, before: Option<TreeId>, after: Option<TreeId>, prefix: Path, depth: nat)
    returns (r: Result<seq<Path>, ()>)
    ensures r.Ok? ==> Lists(st, before, after, prefix, Names(st, before) + Names(st, after), r.value)
    ensures r.Err? ==> depth + Max(Height(before), Height(after)) >= MAX_TREE_DEPTH
    decreases Height(before) + Height(after)
  {
    if depth >= MAX_TREE_DEPTH {
      return Err(());
    }
    var out: seq<Path> := [];
    var todo := Names(st, before) + Names(st, after);
    ghost var done: set<string> := {};
    while todo != {}
      invariant todo !! done && todo + done == Names(st, before) + Names(st, after)
      invariant Lists(st, before, after, prefix, done, out)
      decreases todo
    {
      var name :| name in todo;
      var o, n := Get(st, before, name), Get(st, after, name);
      var here: seq<Path>, below: seq<Path> := [], [];
      if o.Some? && o.value.File? && n.Some? && n.value.File? {
        if o.value.chunks != n.value.chunks {
          here := [prefix + [name]];
        }
      } else {
        // Files are compared by `ChunksOf`, so a file against a directory differs here.
        if (o.Some? && o.value.File?) || (n.Some? && n.value.File?) {
          here := [prefix + [name]];
        }
        var od, nd := SubDir(o), SubDir(n);
        if (od.Some? || nd.Some?) && od != nd {
          SubHeights(st, before, after, name);
          var sub := DiffTrees(st, od, nd, prefix + [name], depth + 1);
          if sub.Err? {
            return Err(());
          }
          below := sub.value;
        }
      }
      NameLists(st, before, after, prefix, name, here, below);
      JoinLists(st, before, after, prefix, done, name, out, here + below);
      out := out + (here + below);
      done := done + {name};
      todo := todo - {name};
    }
    assert done == Names(st, before) + Names(st, after);
    return Ok(out);
  }

  lemma SubHeights(st: set<TreeId>, before: Option<TreeId>, after: Option<TreeId>, name: string)
    requires SubDir(Get(st, before, name)).Some? || SubDir(Get(st, after, name)).Some?
    ensures var (b, a) := (Height(SubDir(Get(st, before, name))), Height(SubDir(Get(st, after, name))));
            Max(b, a) < Max(Height(before), Height(after)) && b + a < Height(before) + Height(after)
  {
    SubHeightOne(st, before, name);
    SubHeightOne(st, after, name);
  }

  lemma SubHeightOne(st: set<TreeId>, t: Option<TreeId>, name: string)
    ensures SubDir(Get(st, t, name)).Some? ==> Height(SubDir(Get(st, t, name))) < Height(t)
    ensures Height(SubDir(Get(st, t, name))) <= Height(t)
  {
  }

  lemma FileAtNames(st: set<TreeId>, t: Option<TreeId>, p: Path)
    requires FileAt(st, t, p) != None
    ensures p != [] && p[0] in Names(st, t)
  {
    if |p| > 1 && Get(st, t, p[0]).None? {
      FileAtNone(st, p[1..]);
    }
  }

  /** A difference at a name is a difference of its files or one below its directories. */
  lemma DiffersSplit(st: set<TreeId>, before: Option<TreeId>, after: Option<TreeId>, prefix: Path, name: string,
                     q: Path)
    ensures
      var o, n := Get(st, before, name), Get(st, after, name);
      Differs(st, before, after, prefix, {name}, q) <==>
        (q == prefix + [name] && ChunksOf(o) != ChunksOf(n))
        || Differs(st, SubDir(o), SubDir(n), prefix + [name], Names(st, SubDir(o)) + Names(st, SubDir(n)), q)
  {
    var k := |prefix|;
    var od, nd := SubDir(Get(st, before, name)), SubDir(Get(st, after, name));
    if |q| > k {
      assert q[..k + 1] == q[..k] + [q[k]];
      assert q[..k] == prefix && q[k] == name <==> q[..k + 1] == prefix + [name];
    }
    if |q| == k + 1 {
      assert q[..k + 1] == q;
      if q == prefix + [name] {
        assert q[k..] == [name];
      }
    } else if |q| > k + 1 && q[..k] == prefix && q[k] == name {
      var p := q[k + 1..];
      assert q[k..] == [name] + p && q[..k + 1] == prefix + [name];
      FileAtStep(st, before, name, p);
      FileAtStep(st, after, name, p);
      if FileAt(st, od, p) != None {
        FileAtNames(st, od, p);
      }
      if FileAt(st, nd, p) != None {
        FileAtNames(st, nd, p);
      }
    }
  }

  lemma NameLists(st: set<TreeId>, before: Option<TreeId>, after: Option<TreeId>, prefix: Path, name: string,
                  here: seq<Path>, below: seq<Path>)
    requires here == if ChunksOf(Get(st, before, name)) != ChunksOf(Get(st, after, name)) then [prefix + [name]] else []
    requires
      var od, nd := SubDir(Get(st, before, name)), SubDir(Get(st, after, name));
      if od == nd then below == [] else Lists(st, od, nd, prefix + [name], Names(st, od) + Names(st, nd), below)
    ensures Lists(st, before, after, prefix, {name}, here + below)
  {
    var od, nd := SubDir(Get(st, before, name)), SubDir(Get(st, after, name));
    forall q
      ensures q in here + below <==> Differs(st, before, after, prefix, {name}, q)
    {
      DiffersSplit(st, before, after, prefix, name, q);
    }
    assert forall q :: q in below ==> Differs(st, od, nd, prefix + [name], Names(st, od) + Names(st, nd), q);
    forall i, j | 0 <= i < j < |here + below|
      ensures (here + below)[i] != (here + below)[j]
    {
      if i < |here| {
        assert below[j - |here|] in below;
      }
    }
  }

  lemma JoinLists(st: set<TreeId>, before: Option<TreeId>, after: Option<TreeId>, prefix: Path, done: set<string>,
                  name: string,
                  out: seq<Path>, more: seq<Path>)
    requires name !in done
    requires Lists(st, before, after, prefix, done, out) && Lists(st, before, after, prefix, {name}, more)
    ensures Lists(st, before, after, prefix, done + {name}, out + more)
  {
    forall q
      ensures q in out + more <==> Differs(st, before, after, prefix, done + {name}, q)
    {
    }
    forall i, j | 0 <= i < j < |out + more|
      ensures (out + more)[i] != (out + more)[j]
    {
      if i < |out| && j >= |out| {
        assert out[i] in out && more[j - |out|] in more;
      }
    }
  }

  /** `changed_paths`: exactly the file paths whose chunk lists differ, each once. */
  method ChangedPaths(st: set<TreeId>, before: Option<TreeId>, after: Option<TreeId>) returns (r: Result<seq<Path>, ()>)
    ensures r.Ok? ==> forall p :: p in r.value <==> FileAt(st, before, p) != FileAt(st, after, p)
    ensures r.Ok? ==> forall i, j :: 0 <= i < j < |r.value| ==> r.value[i] != r.value[j]
    ensures r.Err? ==> Max(Height(before), Height(after)) >= MAX_TREE_DEPTH
  {
    r := DiffTrees(st, before, after, [], 0);
    if r.Ok? {
      forall p
        ensures p in r.value <==> FileAt(st, before, p) != FileAt(st, after, p)
      {
        assert p[0..] == p && p[..0] == [];
        if FileAt(st, before, p) != FileAt(st, after, p) {
          if FileAt(st, before, p) != None {
            FileAtNames(st, before, p);
          } else {
            FileAtNames(st, after, p);
          }
        }
      }
    }
  }
}
