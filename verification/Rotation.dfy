/** Revoke-and-rotate on top of the sigchain and the store: what a won batch leaves behind. */
module Rotation {
  import opened Prelude
  import opened Sigchain
  import opened Roster
  import opened RosterLaws
  import opened ColdStart
  import opened StoreModel
  import opened StoreRuns

  // ---- appending ----

  function AppendEntry(prev: Entry, op: Op, signer: DeviceId, ts: nat): Entry {
    var body := Signed(prev.body.seqNo + 1, LinkTo(prev), op, ts, signer);
    Entry(body, SigBy(signer, body))
  }

  function LastOr(es: seq<Entry>, e: Entry): Entry {
    if es == [] then e else es[|es| - 1]
  }

  /** `append_many`: one entry per op, each linked to the one before, the first to `prev`. */
  function AppendMany(prev: Entry, ops: seq<Op>, signer: DeviceId, ts: nat): (es: seq<Entry>)
    ensures |es| == |ops|
    ensures forall i :: 0 <= i < |es| ==> es[i].body.op == ops[i] && es[i].body.seqNo == prev.body.seqNo + 1 + i
  {
    if ops == [] then []
    else
      var init := AppendMany(prev, ops[..|ops| - 1], signer, ts);
      init + [AppendEntry(LastOr(init, prev), ops[|ops| - 1], signer, ts)]
  }

  // ---- the ops and their fold ----

  function RevokeOps(ds: seq<DeviceId>): seq<Op> {
    seq(|ds|, i requires 0 <= i < |ds| => RevokeDevice(ds[i]))
  }

  /** The ordered revoke-then-rotate ops. */
  function RotateOps(ds: seq<DeviceId>, commit: MkCommit): seq<Op> {
    RevokeOps(ds) + [Rotate(commit)]
  }

  /** `st` with the devices in `gone` evicted. */
  function Evict(st: State, gone: set<DeviceId>): State {
    st.(members := st.members - gone, addedBy := st.addedBy - gone,
        addedAt := st.addedAt - gone, enrolls := st.enrolls - gone)
  }

  /** The folded state after evicting `gone` and minting the next generation. */
  function AfterRotate(st: State, gone: set<DeviceId>, commit: MkCommit, tip: nat): State {
    Evict(st, gone).(generation := st.generation + 1,
                     mkCommits := st.mkCommits[st.generation + 1 := commit],
                     tipSeq := tip)
  }

  /** A chain extended by a run of ops. */
  function Extend(es: seq<Entry>, ops: seq<Op>, me: DeviceId, ts: nat): seq<Entry>
    requires es != []
  {
    es + AppendMany(es[|es| - 1], ops, me, ts)
  }

  lemma ExtendOne(es: seq<Entry>, ops: seq<Op>, me: DeviceId, ts: nat)
    requires es != [] && ops != []
    ensures
      var init := Extend(es, ops[..|ops| - 1], me, ts);
      Extend(es, ops, me, ts) == init + [AppendEntry(init[|init| - 1], ops[|ops| - 1], me, ts)]
  {
  }

  /** An honest append by a member is judged by its effect alone. */
  lemma FoldAppend(es: seq<Entry>, rfp: Link, op: Op, me: DeviceId, ts: nat)
    requires es != [] && Fold(es, rfp).Ok? && me in Fold(es, rfp).value.members
    ensures
      var e := AppendEntry(es[|es| - 1], op, me, ts);
      Fold(es + [e], rfp) == Apply(Fold(es, rfp).value, e)
  {
    var e := AppendEntry(es[|es| - 1], op, me, ts);
    FoldSeqs(es, rfp);
    assert (es + [e])[..|es|] == es;
  }

  /** Signed by a member who is not among them, the revocations fold to the eviction of exactly that set. */
  lemma {:induction false} RevokesFold(es: seq<Entry>, rfp: Link, ds: seq<DeviceId>, me: DeviceId, ts: nat)
    requires es != [] && Fold(es, rfp).Ok? && me in Fold(es, rfp).value.members && me !in ds
    ensures Fold(Extend(es, RevokeOps(ds), me, ts), rfp)
            == Ok(Evict(Fold(es, rfp).value, SetOf(ds)).(tipSeq := |es| + |ds| - 1))
  {
    hide Fold, AppendMany;
    var st := Fold(es, rfp).value;
    if ds == [] {
      FoldShape(es, rfp);
      assert es + [] == es;
      assert SetOf(ds) == {} && Evict(st, {}) == st;
    } else {
      var n := |ds| - 1;
      var ops := RevokeOps(ds);
      assert ops[..n] == RevokeOps(ds[..n]);
      RevokesFold(es, rfp, ds[..n], me, ts);
      ExtendOne(es, ops, me, ts);
      var init := Extend(es, ops[..n], me, ts);
      FoldAppend(init, rfp, ops[n], me, ts);
      FoldSeqs(init, rfp);
      EvictOne(st, ds);
    }
  }

  lemma EvictOne(st: State, ds: seq<DeviceId>)
    requires ds != []
    ensures
      var n := |ds| - 1;
      Evict(Evict(st, SetOf(ds[..n])), {ds[n]}) == Evict(st, SetOf(ds))
  {
    var n := |ds| - 1;
    assert ds == ds[..n] + [ds[n]];
    assert SetOf(ds) == SetOf(ds[..n]) + {ds[n]};
  }

  lemma {:induction false} FoldSeqs(es: seq<Entry>, rfp: Link)
    requires Fold(es, rfp).Ok?
    ensures forall i :: 0 <= i < |es| ==> es[i].body.seqNo == i
  {
    if |es| > 1 {
      FoldSeqs(es[..|es| - 1], rfp);
    }
  }

  /** The whole revoke-then-rotate run folds, evicting exactly `ds` and raising the generation by one. */
  lemma RotateFolds(es: seq<Entry>, rfp: Link, ds: seq<DeviceId>, commit: MkCommit, me: DeviceId, ts: nat)
    requires es != [] && Fold(es, rfp).Ok? && me in Fold(es, rfp).value.members && me !in ds
    requires Fold(es, rfp).value.generation < U32_MAX
    ensures Fold(Extend(es, RotateOps(ds, commit), me, ts), rfp)
            == Ok(AfterRotate(Fold(es, rfp).value, SetOf(ds), commit, |es| + |ds|))
  {
    hide Fold, AppendMany;
    var ops := RotateOps(ds, commit);
    assert ops[..|ds|] == RevokeOps(ds);
    RevokesFold(es, rfp, ds, me, ts);
    ExtendOne(es, ops, me, ts);
    var init := Extend(es, RevokeOps(ds), me, ts);
    FoldAppend(init, rfp, ops[|ds|], me, ts);
    FoldSeqs(init, rfp);
  }

  /** The devices named by the ops' revocations, in order. */
  function Revoked(ops: seq<Op>): seq<DeviceId> {
    if ops == [] then []
    else
      Revoked(ops[..|ops| - 1]) +
      if ops[|ops| - 1].RevokeDevice? then [ops[|ops| - 1].device] else []
  }

  lemma {:induction false} RevokedOfRevokes(ds: seq<DeviceId>)
    ensures Revoked(RevokeOps(ds)) == ds
  {
    if ds != [] {
      var n := |ds| - 1;
      RevokedOfRevokes(ds[..n]);
      assert RevokeOps(ds)[..n] == RevokeOps(ds[..n]);
      assert ds == ds[..n] + [ds[n]];
    }
  }

  lemma RevokedOfOps(ds: seq<DeviceId>, commit: MkCommit)
    ensures Revoked(RotateOps(ds, commit)) == ds
  {
    RevokedOfRevokes(ds);
    assert RotateOps(ds, commit)[..|ds|] == RevokeOps(ds);
  }

  /** `revoke_rotate_ops`: the target, its closure, then the rotation; refused only for oneself. */
  method RevokeRotateOps(st: State, target: DeviceId, after: nat, revoker: DeviceId, commit: MkCommit)
    returns (r: Result<seq<Op>, RosterError>)
    ensures r.Err? <==> target == revoker
    ensures r.Ok? ==> r.value == RotateOps(Revoked(r.value), commit)
    ensures r.Ok? ==> Revoked(r.value) != [] && Revoked(r.value)[0] == target
    ensures r.Ok? ==> forall d :: d in Revoked(r.value)[1..] <==> InClosure(st, target, after, revoker, d)
    ensures r.Ok? ==> revoker !in Revoked(r.value)
  {
    if target == revoker {
      return Err(SelfRevoke);
    }
    var closure := RevokeClosure(st, target, after, revoker);
    var ds: seq<DeviceId> := [target];
    var todo := closure;
    while todo != {}
      invariant ds != [] && ds[0] == target && todo <= closure
      invariant forall d :: d in ds[1..] <==> d in closure - todo
      decreases todo
    {
      var d :| d in todo;
      assert (ds + [d])[1..] == ds[1..] + [d];
      ds := ds + [d];
      todo := todo - {d};
    }
    var ops := RotateOps(ds, commit);
    RevokedOfOps(ds, commit);
    assert revoker !in closure;
    assert ds == [ds[0]] + ds[1..];
    return Ok(ops);
  }

  /**
   A member revoking a member: the ops fold on its chain, keep the revoker and raise the generation by
   one. Members afterwards are those of the chain but the target and whoever holds a grant at `after`
   or later that goes back to the target, both read off the chain's entries.
   */
  lemma RevocationTakesEffect(es: seq<Entry>, rfp: Link, target: DeviceId, after: nat, me: DeviceId,
                              ops: seq<Op>, commit: MkCommit, ts: nat)
    requires es != [] && Fold(es, rfp).Ok? && me in Fold(es, rfp).value.members && target != me
    requires Fold(es, rfp).value.generation < U32_MAX
    requires ops == RotateOps(Revoked(ops), commit) && Revoked(ops) != [] && Revoked(ops)[0] == target
    requires forall d :: d in Revoked(ops)[1..] <==> InClosure(Fold(es, rfp).value, target, after, me, d)
    ensures
      var st := Fold(es, rfp).value;
      var r := Fold(Extend(es, ops, me, ts), rfp);
      && r.Ok? && me in r.value.members && r.value.generation == st.generation + 1
      && forall d :: d in r.value.members <==>
           MemberOf(es, d) && d != target && !SweptBy(es, target, after, me, d)
  {
    hide Fold, InClosure, MemberOf, SweptBy;
    FoldState(es, rfp);
    forall d ensures InClosure(Fold(es, rfp).value, target, after, me, d) <==> SweptBy(es, target, after, me, d) {
      ClosureOnChain(es, rfp, target, after, me, d);
    }
    var ds := Revoked(ops);
    assert ds == [ds[0]] + ds[1..];
    MeNotInClosure(Fold(es, rfp).value, target, after, me);
    RotateFolds(es, rfp, ds, commit, me, ts);
  }

  lemma MeNotInClosure(st: State, target: DeviceId, after: nat, me: DeviceId)
    ensures !InClosure(st, target, after, me, me)
  {
  }
}
