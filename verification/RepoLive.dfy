/** The other half of the roster's safety: a batch built on the current state is taken and does its work. */
module RepoLive {
  import opened Prelude
  import opened Sigchain
  import opened StoreModel
  import opened Roster
  import opened Rotation
  import opened ColdStart
  import opened Repo

  lemma TipGenOfHealthy(s: Snap, rfp: Link)
    requires HealthySnap(s, rfp)
    ensures TipGen(s.t) == Some(Fold(s.es, rfp).value.generation) && |s.t.roster| == |s.es|
  {
    hide Fold, Slotted, Wrapped, Committed, GenOf, Secret;
    GenOfFold(s.es, rfp);
    assert SealedAt(s.t.roster[|s.es| - 1], s.es, s.keys, |s.es| - 1);
    assert s.es[..|s.es|] == s.es;
    RosterNonEmpty(s.t, s.es, s.keys);
  }

  /** A grant built by a member on the current chain, under the cap, is taken and its joiner is a member. */
  lemma CurrentGrantTaken(past: seq<Snap>, rfp: Link, c: Change)
    requires TraceOk(past, rfp) && c.GrantFrom? && Honest(past, rfp, c) && c.view == |past| - 1
    requires |past[|past| - 1].es| < 10_000
    ensures var (now, s') := (past[|past| - 1], After(past, rfp, c));
            && |s'.es| == |now.es| + 1 && s'.keys == now.keys && HealthySnap(s', rfp)
            && c.joiner.id in Fold(s'.es, rfp).value.members
  {
    var now := past[|past| - 1];
    TipGenOfHealthy(now, rfp);
    assert Taken(now.t, c.b);
    AfterGrant(past, rfp, c);
    var op := GrantOp(Fold(now.es, rfp).value, Secret(now.keys, |now.keys|), c.joiner);
    FoldAppend(now.es, rfp, op, c.me, c.ts);
    hide Fold, Healthy, Honest, Secret;
  }

  /** A rotation built on the current chain and head, under the cap, is taken: one more generation, the named gone. */
  lemma CurrentRotationTaken(past: seq<Snap>, rfp: Link, c: Change)
    requires TraceOk(past, rfp) && c.RotateFrom? && Honest(past, rfp, c) && c.view == |past| - 1
    requires var now := past[|past| - 1];
             && |now.es| + |c.b.entries| <= 10_000
             && (c.b.head.Some? ==> HeadTokenOf(now.t, c.b.head.value.refH) == c.b.head.value.expectedOld)
    ensures var (now, s') := (past[|past| - 1], After(past, rfp, c));
            && s'.keys == now.keys + [c.next] && HealthySnap(s', rfp)
            && forall d :: d in Fold(s'.es, rfp).value.members <==>
                 d in Fold(now.es, rfp).value.members && d !in c.b.revoke
  {
    hide Fold, Honest, Taken, Healthy, RotateOps, Extend, HeadTokenOf;
    RotationTaken(past, rfp, c);
    HonestMeans(past, rfp, c);
    AfterRotation(past, rfp, c);
    RotationMembers(past[|past| - 1], rfp, c);
  }

  lemma HonestMeans(past: seq<Snap>, rfp: Link, c: Change)
    requires TraceOk(past, rfp) && c.RotateFrom? && Honest(past, rfp, c) && c.view == |past| - 1
    ensures var now := past[|past| - 1];
            && HealthySnap(now, rfp) && c.me !in c.b.revoke
            && c.me in Fold(now.es, rfp).value.members && Fold(now.es, rfp).value.generation < U32_MAX
            && IsRotation(c.b, TipTokenOf(now.t), now.es[|now.es| - 1], Fold(now.es, rfp).value,
                          Secret(now.keys, |now.keys|), c.next, c.me, c.ts)
  {
    hide Fold, InClosure, IsRotation, TipTokenOf;
  }

  lemma RotationTaken(past: seq<Snap>, rfp: Link, c: Change)
    requires TraceOk(past, rfp) && c.RotateFrom? && Honest(past, rfp, c) && c.view == |past| - 1
    requires var now := past[|past| - 1];
             && |now.es| + |c.b.entries| <= 10_000
             && (c.b.head.Some? ==> HeadTokenOf(now.t, c.b.head.value.refH) == c.b.head.value.expectedOld)
    ensures Taken(past[|past| - 1].t, c.b)
  {
    var now := past[|past| - 1];
    HonestMeans(past, rfp, c);
    TipGenOfHealthy(now, rfp);
    hide Fold, Honest, IsRotation, BatchWins, TipGen, HeadTokenOf, TipTokenOf;
    RotationWins(now.t, c.b, now.es[|now.es| - 1], Fold(now.es, rfp).value, Secret(now.keys, |now.keys|), c.next,
                 c.me, c.ts);
  }

  lemma RotationWins(t: Tables, b: RosterBatch, last: Entry, st: State, secret: nat, next: nat, me: DeviceId, ts: nat)
    requires IsRotation(b, TipTokenOf(t), last, st, secret, next, me, ts) && TipGen(t) == Some(st.generation)
    requires b.head.Some? ==> HeadTokenOf(t, b.head.value.refH) == b.head.value.expectedOld
    ensures BatchWins(t, b)
  {
    hide BoxedRun, RewrapsAll, TipGen, TipTokenOf, HeadTokenOf;
  }

  lemma RotationMembers(now: Snap, rfp: Link, c: Change)
    requires HealthySnap(now, rfp) && c.RotateFrom? && c.me !in c.b.revoke
    requires c.me in Fold(now.es, rfp).value.members && Fold(now.es, rfp).value.generation < U32_MAX
    ensures var ops := RotateOps(c.b.revoke, MkCommit(MasterKey(|now.keys| + 1, c.next)));
            var r := Fold(Extend(now.es, ops, c.me, c.ts), rfp);
            r.Ok? && forall d :: d in r.value.members <==> d in Fold(now.es, rfp).value.members && d !in c.b.revoke
  {
    hide Fold;
    RotateFolds(now.es, rfp, c.b.revoke, MkCommit(MasterKey(|now.keys| + 1, c.next)), c.me, c.ts);
  }
}
