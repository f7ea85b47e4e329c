/**
 The roster fold against the chain itself. Which chains are accepted, and every field of the folded
 state, are said in terms of the entries and their positions alone.
 */
module RosterLaws {
  import opened Prelude
  import opened Sigchain
  import opened Roster

  // ---- reading a chain ----

  /** The founding entry or a grant of `d`. */
  predicate Admits(e: Entry, d: DeviceId) {
    (e.body.op.Genesis? || e.body.op.AddDevice?) && e.body.op.pubkey == Canonical(d)
  }

  predicate Revokes(e: Entry, d: DeviceId) {
    e.body.op == RevokeDevice(d)
  }

  /** `d` is a member by entry `k`: no later entry admits it anew or revokes it. */
  ghost predicate Standing(es: seq<Entry>, d: DeviceId, k: nat) {
    k < |es| && Admits(es[k], d) && forall j :: k < j < |es| ==> !Admits(es[j], d) && !Revokes(es[j], d)
  }

  ghost predicate MemberOf(es: seq<Entry>, d: DeviceId) {
    exists k: nat :: Standing(es, d, k)
  }

  function Rotations(es: seq<Entry>): nat {
    if es == [] then 0 else Rotations(es[..|es| - 1]) + if es[|es| - 1].body.op.Rotate? then 1 else 0
  }

  /** The commitment of the last rotation, or of genesis. */
  function LastCommit(es: seq<Entry>): MkCommit
    requires es != [] && es[0].body.op.Genesis?
  {
    var e := es[|es| - 1];
    if e.body.op.Rotate? then e.body.op.mkCommit
    else if |es| == 1 then es[0].body.op.mkCommit
    else LastCommit(es[..|es| - 1])
  }

  /** A founding entry that names, and is signed by, the key it admits. */
  ghost predicate Founds(g: Entry, rfp: Link) {
    && g.body.seqNo == 0 && g.body.prev == NoLink && LinkTo(g) == rfp
    && g.body.op.Genesis? && g.body.op.pubkey == Canonical(g.body.signer)
    && g.sig == SigBy(g.body.signer, g.body)
  }

  /** Entry `i` obeys every rule, judged by the entries before it. */
  ghost predicate Follows(es: seq<Entry>, i: nat)
    requires 0 < i < |es| && es[0].body.op.Genesis?
  {
    var e := es[i];
    && e.body.seqNo == i && e.body.prev == LinkTo(es[i - 1])
    && MemberOf(es[..i], e.body.signer) && e.sig == SigBy(e.body.signer, e.body)
    && match e.body.op
       case Genesis(_, _, _) => false
       case AddDevice(pubkey, mkCommit, _) => pubkey.Canonical? && mkCommit == LastCommit(es[..i])
       case RevokeDevice(_) => true
       case Rotate(_) => 1 + Rotations(es[..i]) < U32_MAX
       case SetMinAlgo(_) => true
  }

  ghost predicate Accepted(es: seq<Entry>, rfp: Link) {
    es != [] && Founds(es[0], rfp) && forall i: nat :: 0 < i < |es| ==> Follows(es, i)
  }

  // ---- the folded state, field by field ----

  /** Members and everyone ever admitted. */
  ghost predicate PeopleOf(es: seq<Entry>, st: State) {
    && (forall d :: d in st.members <==> MemberOf(es, d))
    && (forall d :: d in st.ever <==> exists k :: 0 <= k < |es| && Admits(es[k], d))
  }

  /** The grants on record are the standing ones, with their signer and position. */
  ghost predicate GrantsOf(es: seq<Entry>, st: State) {
    && st.addedBy.Keys == st.addedAt.Keys
    && (forall d :: d in st.addedBy ==> exists k: nat :: 0 < k && Standing(es, d, k))
    && (forall d, k: nat :: 0 < k && Standing(es, d, k) ==>
          d in st.addedBy && st.addedBy[d] == es[k].body.signer && st.addedAt[d] == k)
  }

  /** The enrolment keys on record are those of the standing admissions that carry one. */
  ghost predicate EnrollsOf(es: seq<Entry>, st: State) {
    && (forall d :: d in st.enrolls ==> MemberOf(es, d))
    && (forall d, k: nat :: Standing(es, d, k) ==>
          (d in st.enrolls <==> es[k].body.op.enroll != NoEnroll) &&
          (d in st.enrolls ==> st.enrolls[d] == es[k].body.op.enroll))
  }

  /** Generations count the rotations, each with its own commitment. */
  ghost predicate KeysOf(es: seq<Entry>, st: State)
    requires es != [] && es[0].body.op.Genesis?
  {
    && st.generation == 1 + Rotations(es)
    && 1 in st.mkCommits && st.mkCommits[1] == es[0].body.op.mkCommit
    && (forall k: nat :: k < |es| && es[k].body.op.Rotate? ==> CommitAt(es, st.mkCommits, k))
    && st.generation in st.mkCommits && st.mkCommits[st.generation] == LastCommit(es)
  }

  /** The algorithm floor is the highest ever set. */
  ghost predicate FloorOf(es: seq<Entry>, st: State) {
    && MIN_ALGO_ID <= st.minAlgo
    && (forall k :: 0 <= k < |es| && es[k].body.op.SetMinAlgo? ==> es[k].body.op.minAlgo <= st.minAlgo)
    && (st.minAlgo == MIN_ALGO_ID ||
        exists k :: 0 <= k < |es| && es[k].body.op == SetMinAlgo(st.minAlgo))
  }

  /** Everything the folded state says is read off the chain. */
  ghost predicate StateOf(es: seq<Entry>, st: State)
    requires es != [] && es[0].body.op.Genesis?
  {
    PeopleOf(es, st) && GrantsOf(es, st) && EnrollsOf(es, st) && KeysOf(es, st) && FloorOf(es, st) &&
    st.tipSeq == |es| - 1
  }

  // ---- one more entry ----

  lemma StandingNext(es: seq<Entry>, e: Entry, d: DeviceId, k: nat)
    ensures Standing(es + [e], d, k) <==>
            (k == |es| && Admits(e, d)) || (Standing(es, d, k) && !Admits(e, d) && !Revokes(e, d))
  {
    hide Admits, Revokes;
    var more := es + [e];
    if Standing(more, d, k) && k < |es| {
      assert more[|es|] == e;
      forall j | k < j < |es| ensures !Admits(es[j], d) && !Revokes(es[j], d) { assert more[j] == es[j]; }
    }
  }

  lemma MemberNext(es: seq<Entry>, e: Entry, d: DeviceId)
    ensures MemberOf(es + [e], d) <==> Admits(e, d) || (MemberOf(es, d) && !Revokes(e, d))
  {
    hide Standing;
    if MemberOf(es + [e], d) {
      var k: nat :| Standing(es + [e], d, k);
      StandingNext(es, e, d, k);
    }
    if Admits(e, d) {
      StandingNext(es, e, d, |es|);
    } else if MemberOf(es, d) && !Revokes(e, d) {
      var k: nat :| Standing(es, d, k);
      StandingNext(es, e, d, k);
    }
  }

  lemma PeopleNext(es: seq<Entry>, st: State, e: Entry)
    requires PeopleOf(es, st) && Apply(st, e).Ok?
    ensures PeopleOf(es + [e], Apply(st, e).value)
  {
    hide MemberOf;
    var next := Apply(st, e).value;
    forall d ensures d in next.members <==> MemberOf(es + [e], d) { MemberNext(es, e, d); }
    forall d ensures d in next.ever <==> exists k :: 0 <= k < |es + [e]| && Admits((es + [e])[k], d) {
      EverNext(es, e, d);
    }
  }

  lemma EverNext(es: seq<Entry>, e: Entry, d: DeviceId)
    ensures (exists k :: 0 <= k < |es + [e]| && Admits((es + [e])[k], d)) <==>
            Admits(e, d) || exists k :: 0 <= k < |es| && Admits(es[k], d)
  {
    hide Admits;
    var more := es + [e];
    if Admits(e, d) { assert Admits(more[|es|], d); }
    if k :| 0 <= k < |es| && Admits(es[k], d) { assert Admits(more[k], d); }
  }

  lemma GrantsNext(es: seq<Entry>, st: State, e: Entry)
    requires GrantsOf(es, st) && es != [] && Apply(st, e).Ok? && e.body.seqNo == |es|
    ensures GrantsOf(es + [e], Apply(st, e).value)
  {
    hide Standing;
    var next, more := Apply(st, e).value, es + [e];
    forall d | d in next.addedBy ensures exists k: nat :: 0 < k && Standing(more, d, k) {
      if Admits(e, d) {
        StandingNext(es, e, d, |es|);
      } else {
        var k: nat :| 0 < k && Standing(es, d, k);
        StandingNext(es, e, d, k);
      }
    }
    forall d, k: nat | 0 < k && Standing(more, d, k)
      ensures k < |more|
      ensures d in next.addedBy && next.addedBy[d] == more[k].body.signer && next.addedAt[d] == k
    {
      StandingNext(es, e, d, k);
      StandingAdmits(more, d, k);
    }
  }

  lemma EnrollsNext(es: seq<Entry>, st: State, e: Entry)
    requires EnrollsOf(es, st) && Apply(st, e).Ok?
    ensures EnrollsOf(es + [e], Apply(st, e).value)
  {
    hide Standing, MemberOf;
    var next, more := Apply(st, e).value, es + [e];
    forall d | d in next.enrolls ensures MemberOf(more, d) { MemberNext(es, e, d); }
    forall d, k: nat | Standing(more, d, k)
      ensures k < |more| && (more[k].body.op.Genesis? || more[k].body.op.AddDevice?)
      ensures d in next.enrolls <==> more[k].body.op.enroll != NoEnroll
      ensures d in next.enrolls ==> next.enrolls[d] == more[k].body.op.enroll
    {
      StandingNext(es, e, d, k);
      StandingAdmits(more, d, k);
      if k < |es| { StandingAdmits(es, d, k); }
    }
  }

  lemma StandingAdmits(es: seq<Entry>, d: DeviceId, k: nat)
    requires Standing(es, d, k)
    ensures k < |es| && Admits(es[k], d)
  {
  }

  lemma RotationsNext(es: seq<Entry>, e: Entry)
    ensures Rotations(es + [e]) == Rotations(es) + if e.body.op.Rotate? then 1 else 0
  {
    assert (es + [e])[..|es|] == es;
  }

  lemma {:induction false} RotationsUpTo(es: seq<Entry>, k: nat)
    requires k <= |es|
    ensures Rotations(es[..k]) <= Rotations(es)
    decreases |es|
  {
    if k == |es| {
      assert es[..k] == es;
    } else {
      RotationsUpTo(es[..|es| - 1], k);
      assert es[..|es| - 1][..k] == es[..k];
    }
  }

  lemma CommitNext(es: seq<Entry>, e: Entry)
    requires es != [] && es[0].body.op.Genesis?
    ensures LastCommit(es + [e]) == if e.body.op.Rotate? then e.body.op.mkCommit else LastCommit(es)
  {
    assert (es + [e])[..|es|] == es;
  }

  /** Rotation `k` fixed the commitment of its generation. */
  ghost predicate CommitAt(es: seq<Entry>, commits: map<nat, MkCommit>, k: nat)
    requires k < |es| && es[k].body.op.Rotate?
  {
    var g := 1 + Rotations(es[..k + 1]);
    g in commits && commits[g] == es[k].body.op.mkCommit
  }

  lemma CommitKept(es: seq<Entry>, e: Entry, before: map<nat, MkCommit>, after: map<nat, MkCommit>, k: nat)
    requires k < |es| && es[k].body.op.Rotate? && CommitAt(es, before, k)
    requires forall g :: g in before && g <= 1 + Rotations(es) ==> g in after && after[g] == before[g]
    ensures CommitAt(es + [e], after, k)
  {
    hide Rotations;
    assert (es + [e])[..k + 1] == es[..k + 1];
    RotationsUpTo(es, k + 1);
  }

  lemma KeysNext(es: seq<Entry>, st: State, e: Entry)
    requires es != [] && es[0].body.op.Genesis? && KeysOf(es, st) && Apply(st, e).Ok?
    ensures KeysOf(es + [e], Apply(st, e).value)
  {
    var next, more := Apply(st, e).value, es + [e];
    RotationsNext(es, e);
    CommitNext(es, e);
    assert more[..|more|] == more;
    hide Rotations, LastCommit;
    forall k: nat | k < |more| && more[k].body.op.Rotate? ensures CommitAt(more, next.mkCommits, k) {
      if k < |es| {
        CommitKept(es, e, st.mkCommits, next.mkCommits, k);
      }
    }
  }

  lemma FloorNext(es: seq<Entry>, st: State, e: Entry)
    requires FloorOf(es, st) && Apply(st, e).Ok?
    ensures FloorOf(es + [e], Apply(st, e).value)
  {
    var next, more := Apply(st, e).value, es + [e];
    if next.minAlgo != MIN_ALGO_ID {
      if next.minAlgo == st.minAlgo {
        var k :| 0 <= k < |es| && es[k].body.op == SetMinAlgo(st.minAlgo);
        assert more[k].body.op == SetMinAlgo(next.minAlgo);
      } else {
        assert more[|es|].body.op == SetMinAlgo(next.minAlgo);
      }
    }
  }

  lemma GenesisState(g: Entry, rfp: Link)
    requires FoldGenesis(g, rfp).Ok?
    ensures g.body.op.Genesis? && StateOf([g], FoldGenesis(g, rfp).value)
  {
    var st := FoldGenesis(g, rfp).value;
    assert [g][..0] == [] && [g][..1] == [g];
    var d0 := g.body.signer;
    assert Standing([g], d0, 0);
    assert forall d, k: nat :: Standing([g], d, k) ==> k == 0 && d == d0;
    assert forall k :: 0 <= k < |[g]| ==> [g][k] == g;
    assert Admits([g][0], d0);
  }

  // ---- the main results ----

  lemma StateNext(es: seq<Entry>, st: State, e: Entry)
    requires es != [] && es[0].body.op.Genesis? && StateOf(es, st) && Apply(st, e).Ok? && e.body.seqNo == |es|
    ensures StateOf(es + [e], Apply(st, e).value)
  {
    assert Apply(st, e).value.tipSeq == |es|;
    hide Apply, PeopleOf, GrantsOf, EnrollsOf, KeysOf, FloorOf;
    PeopleNext(es, st, e);
    GrantsNext(es, st, e);
    EnrollsNext(es, st, e);
    KeysNext(es, st, e);
    FloorNext(es, st, e);
  }

  /** Every field of a folded state is what the chain says. */
  lemma {:induction false} FoldState(es: seq<Entry>, rfp: Link)
    requires Fold(es, rfp).Ok?
    ensures es != [] && es[0].body.op.Genesis? && StateOf(es, Fold(es, rfp).value)
  {
    if |es| == 1 {
      GenesisState(es[0], rfp);
      assert es == [es[0]];
    } else {
      var n := |es| - 1;
      hide Apply, StateOf;
      FoldState(es[..n], rfp);
      StateNext(es[..n], Fold(es[..n], rfp).value, es[n]);
      assert es[..n] + [es[n]] == es;
    }
  }

  /** On a chain accepted so far, one more entry is taken exactly when it obeys every rule. */
  lemma StepExact(es: seq<Entry>, rfp: Link)
    requires |es| > 1 && Fold(es[..|es| - 1], rfp).Ok?
    ensures es[0].body.op.Genesis? && (Fold(es, rfp).Ok? <==> Follows(es, |es| - 1))
  {
    var n := |es| - 1;
    FoldState(es[..n], rfp);
    var (st, e) := (Fold(es[..n], rfp).value, es[n]);
    assert es[..n][0] == es[0] && es[..n][n - 1] == es[n - 1];
    assert e.body.signer in st.members <==> MemberOf(es[..n], e.body.signer);
    hide MemberOf, Rotations, LastCommit;
  }

  /** A chain folds if and only if it is well founded and every later entry obeys every rule. */
  lemma {:induction false} FoldExact(es: seq<Entry>, rfp: Link)
    ensures Fold(es, rfp).Ok? <==> Accepted(es, rfp)
  {
    if |es| > 1 {
      var n := |es| - 1;
      FoldExact(es[..n], rfp);
      if Fold(es[..n], rfp).Ok? { StepExact(es, rfp); }
      hide Fold;
      AcceptedNext(es, rfp);
    }
  }

  lemma AcceptedNext(es: seq<Entry>, rfp: Link)
    requires |es| > 1
    ensures Accepted(es, rfp) <==> Accepted(es[..|es| - 1], rfp) && Follows(es, |es| - 1)
  {
    hide Follows;
    var n := |es| - 1;
    if es[0].body.op.Genesis? {
      forall i: nat | 0 < i < n ensures Follows(es, i) <==> Follows(es[..n], i) { FollowsPrefix(es, n, i); }
    }
  }

  lemma FollowsPrefix(es: seq<Entry>, n: nat, i: nat)
    requires 0 < i < n <= |es| && es[0].body.op.Genesis?
    ensures Follows(es[..n], i) <==> Follows(es, i)
  {
    hide MemberOf, Rotations, LastCommit;
    assert es[..n][..i] == es[..i];
  }

  // ---- the error of a refused chain ----

  /** The first rule that entry `i` breaks. */
  ghost function Fault(es: seq<Entry>, i: nat): RosterError
    requires 0 < i < |es| && es[0].body.op.Genesis? && !Follows(es, i)
  {
    var e := es[i];
    if e.body.seqNo != i then BadSeq
    else if e.body.prev != LinkTo(es[i - 1]) then ChainBreak
    else if !MemberOf(es[..i], e.body.signer) then NotMember
    else if e.sig != SigBy(e.body.signer, e.body) then BadSignature
    else if e.body.op.Genesis? then DoubleGenesis
    else if e.body.op.Rotate? then BadSeq
    else if e.body.op.AddDevice? && e.body.op.mkCommit != LastCommit(es[..i]) then BadCommit
    else BadKey
  }

  /** A refused chain is refused for the first rule broken by its first bad entry, whatever follows. */
  lemma {:induction false} FirstFault(es: seq<Entry>, rfp: Link, i: nat)
    requires 0 < i < |es| && Accepted(es[..i], rfp) && !Follows(es, i)
    ensures Fold(es, rfp) == Err(Fault(es, i))
    decreases |es|
  {
    var n := |es| - 1;
    if i < n {
      FollowsPrefix(es, n, i);
      assert es[..n][..i] == es[..i];
      FirstFault(es[..n], rfp, i);
    } else {
      FaultHere(es, rfp);
    }
  }

  lemma FaultHere(es: seq<Entry>, rfp: Link)
    requires |es| > 1 && Accepted(es[..|es| - 1], rfp) && !Follows(es, |es| - 1)
    ensures Fold(es, rfp) == Err(Fault(es, |es| - 1))
  {
    var n := |es| - 1;
    FoldExact(es[..n], rfp);
    FoldState(es[..n], rfp);
    var (st, e) := (Fold(es[..n], rfp).value, es[n]);
    assert Fold(es, rfp) == Step(st, es[n - 1], n, e);
    assert e.body.signer in st.members <==> MemberOf(es[..n], e.body.signer);
    assert st.generation in st.mkCommits && st.mkCommits[st.generation] == LastCommit(es[..n]);
    assert st.generation == 1 + Rotations(es[..n]);
    hide MemberOf, Rotations, LastCommit, Accepted, StateOf, Fold;
  }

  // ---- revocation on the chain ----

  /** `a` signed the standing grant of `d`. */
  ghost predicate Granted(es: seq<Entry>, a: DeviceId, d: DeviceId) {
    exists k: nat :: 0 < k && Standing(es, d, k) && es[k].body.signer == a
  }

  /** A line of standing grants from `path[0]` down that never passes through `revoker`. */
  ghost predicate GrantLine(es: seq<Entry>, revoker: DeviceId, path: seq<DeviceId>) {
    path != [] && forall i :: 0 < i < |path| ==> Granted(es, path[i - 1], path[i]) && path[i] != revoker
  }

  /** `d` was granted at position `after` or later, by `target` or down a line of grants from it. */
  ghost predicate SweptBy(es: seq<Entry>, target: DeviceId, after: nat, revoker: DeviceId, d: DeviceId) {
    && d != target && d != revoker
    && (exists k: nat :: 0 < k && after <= k && Standing(es, d, k))
    && exists path :: GrantLine(es, revoker, path) && path[0] == target && path[|path| - 1] == d
  }

  lemma GrantedOnChain(es: seq<Entry>, st: State, a: DeviceId, d: DeviceId)
    requires GrantsOf(es, st)
    ensures GrantedBy(st, a, d) <==> Granted(es, a, d)
  {
    hide Standing;
    if d in st.addedBy {
      var k: nat :| 0 < k && Standing(es, d, k);
    }
  }

  lemma LineOnChain(es: seq<Entry>, st: State, revoker: DeviceId, path: seq<DeviceId>)
    requires GrantsOf(es, st)
    ensures GrantPath(st, revoker, path) <==> GrantLine(es, revoker, path)
  {
    hide Granted, GrantedBy, GrantsOf;
    forall i | 0 < i < |path| ensures GrantedBy(st, path[i - 1], path[i]) <==> Granted(es, path[i - 1], path[i]) {
      GrantedOnChain(es, st, path[i - 1], path[i]);
    }
  }

  /** The closure computed from the folded state is the sweep read off the chain. */
  lemma ClosureOnChain(es: seq<Entry>, rfp: Link, target: DeviceId, after: nat, revoker: DeviceId, d: DeviceId)
    requires Fold(es, rfp).Ok?
    ensures InClosure(Fold(es, rfp).value, target, after, revoker, d) <==> SweptBy(es, target, after, revoker, d)
  {
    hide Fold, Standing, Granted, GrantedBy, GrantsOf;
    var st := Fold(es, rfp).value;
    FoldState(es, rfp);
    forall path ensures GrantPath(st, revoker, path) <==> GrantLine(es, revoker, path) {
      LineOnChain(es, st, revoker, path);
    }
    LatestOnChain(es, st, after, d);
    if InClosure(st, target, after, revoker, d) {
      var path :| GrantPath(st, revoker, path) && path[0] == target && path[|path| - 1] == d;
      assert GrantLine(es, revoker, path);
    }
    if SweptBy(es, target, after, revoker, d) {
      var path :| GrantLine(es, revoker, path) && path[0] == target && path[|path| - 1] == d;
      assert GrantPath(st, revoker, path);
    }
  }

  lemma LatestOnChain(es: seq<Entry>, st: State, after: nat, d: DeviceId)
    requires GrantsOf(es, st)
    ensures (d in st.addedAt && st.addedAt[d] >= after) <==> exists k: nat :: 0 < k && after <= k && Standing(es, d, k)
  {
    hide Standing;
    if d in st.addedAt {
      assert d in st.addedBy;
      var k: nat :| 0 < k && Standing(es, d, k);
    }
  }
}
