/** Slash-joined paths: the string form loses nothing, so per-path counters never merge two paths. */
module Paths {

  /** What the tree name guard leaves of a component, as far as paths are concerned. */
  predicate CleanName(n: string) {
    n != "" && n != "." && '/' !in n
  }

  ghost predicate Clean(p: seq<string>) {
    forall i :: 0 <= i < |p| ==> CleanName(p[i])
  }

  /** `join(prefix, name)` applied component by component. */
  function Join(p: seq<string>): string {
    if p == [] then ""
    else if |p| == 1 then p[0]
    else Join(p[..|p| - 1]) + "/" + p[|p| - 1]
  }

  function LastSlash(s: string): (i: int)
    ensures -1 <= i < |s|
    ensures i >= 0 ==> s[i] == '/'
    ensures forall j :: i < j < |s| ==> s[j] != '/'
  {
    if s == "" then -1
    else if s[|s| - 1] == '/' then |s| - 1
    else LastSlash(s[..|s| - 1])
  }

  /** `path_components`: the segments between slashes that `Kept` lets through. */
  function Components(s: string): seq<string>
    decreases |s|
  {
    var i := LastSlash(s);
    (if i < 0 then [] else Components(s[..i])) + Kept(s[i + 1..])
  }

  /** Empty and `.` segments are dropped. */
  function Kept(segment: string): seq<string> {
    if segment == "" || segment == "." then [] else [segment]
  }

  /** Splitting a joined path gives back its components. */
  lemma {:induction false} ComponentsOfJoin(p: seq<string>)
    requires Clean(p)
    ensures Components(Join(p)) == p
  {
    hide LastSlash, Kept, Components, CleanName;
    if p == [] {
      NoComponents();
    } else if |p| == 1 {
      OneComponent(p[0]);
      assert p == [p[0]];
    } else {
      var init, last := p[..|p| - 1], p[|p| - 1];
      ComponentsOfJoin(init);
      assert Join(p) == Join(init) + "/" + last;
      hide Join;
      ComponentsLast(Join(init), last);
      assert p == init + [last];
    }
  }

  lemma NoComponents()
    ensures Components("") == []
  {
    assert LastSlash("") == -1;
    assert Kept("") == [];
  }

  lemma OneComponent(n: string)
    requires CleanName(n)
    ensures Components(n) == [n]
  {
    assert LastSlash(n) == -1 by { hide LastSlash; }
    assert n[0..] == n;
    hide LastSlash;
  }

  lemma ComponentsLast(a: string, b: string)
    requires CleanName(b)
    ensures Components(a + "/" + b) == Components(a) + [b]
  {
    var s := a + "/" + b;
    SlashBeforeLast(a, b);
    assert s[..|a|] == a && s[|a| + 1..] == b;
    SplitAt(s, |a|);
  }

  lemma SplitAt(s: string, k: nat)
    requires k < |s| && LastSlash(s) == k
    ensures Components(s) == Components(s[..k]) + Kept(s[k + 1..])
  {
    hide LastSlash, Kept;
  }

  lemma SlashBeforeLast(a: string, b: string)
    requires '/' !in b
    ensures LastSlash(a + "/" + b) == |a|
  {
    hide LastSlash, NoSlashAfter;
    AfterSlash(a, b);
    SlashIs(a + "/" + b, |a|);
  }

  lemma AfterSlash(a: string, b: string)
    requires '/' !in b
    ensures var s := a + "/" + b; |a| < |s| && s[|a|] == '/' && NoSlashAfter(s, |a|)
  {
    var s := a + "/" + b;
    forall j | |a| < j < |s| ensures s[j] != '/' {
      assert s[j] == b[j - |a| - 1];
    }
  }

  predicate NoSlashAfter(s: string, k: nat) {
    forall j :: k < j < |s| ==> s[j] != '/'
  }

  lemma SlashIs(s: string, k: nat)
    requires k < |s| && s[k] == '/' && NoSlashAfter(s, k)
    ensures LastSlash(s) == k
  {
    hide LastSlash;
  }

  /** Distinct paths have distinct strings. */
  lemma JoinInjective(p: seq<string>, q: seq<string>)
    requires Clean(p) && Clean(q) && Join(p) == Join(q)
    ensures p == q
  {
    ComponentsOfJoin(p);
    ComponentsOfJoin(q);
  }
}
