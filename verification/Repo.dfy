/** The repository over every run of honest genesis, grant and rotation batches. */
module Repo {
  import opened Prelude
  import opened Sigchain
  import opened Roster
  import opened ColdStart
  import opened StoreModel
  import opened StoreRuns
  import opened Rotation

  /** The generation after an entry run: one more than its rotations. */
  function GenOf(es: seq<Entry>): nat {
    if |es| <= 1 then 1
    else GenOf(es[..|es| - 1]) + if es[|es| - 1].body.op.Rotate? then 1 else 0
  }

  lemma {:induction false} GenOfFold(es: seq<Entry>, rfp: Link)
    requires Fold(es, rfp).Ok?
    ensures Fold(es, rfp).value.generation == GenOf(es)
  {
    if |es| > 1 {
      GenOfFold(es[..|es| - 1], rfp);
    }
  }

  // ---- what the tables of a healthy repository hold ----

  function Secret(keys: seq<nat>, g: nat): nat
    requires 1 <= g <= |keys|
  {
    keys[g - 1]
  }

  /** Entry `i` sits in a box of its own generation, sequence and plaintext. */
  ghost predicate SealedAt(b: SealedEntry, es: seq<Entry>, keys: seq<nat>, i: nat) {
    && i < |es| && b.Box? && b.seqNo == i && b.plain == Some(es[i])
    && b.gen == GenOf(es[..i + 1]) && 1 <= b.gen <= |keys| && b.key == RosterKey(Secret(keys, b.gen))
  }

  ghost predicate ChainSealed(roster: map<nat, SealedEntry>, es: seq<Entry>, keys: seq<nat>) {
    && Dense(roster) && |roster| == |es|
    && forall i :: 0 <= i < |es| ==> SealedAt(roster[i], es, keys, i)
  }

  ghost predicate WrappedAt(kh: map<nat, DataWrap>, rkh: map<nat, RosterWrap>, keys: seq<nat>, g: nat)
    requires 1 <= g < |keys|
  {
    && g in kh && kh[g] == DataWrap(Secret(keys, g + 1), g, Secret(keys, g))
    && g in rkh && rkh[g] == RosterWrap(RosterKey(Secret(keys, g + 1)), g, RosterKey(Secret(keys, g)))
  }

  /** Every passed generation is wrapped under the next, in both histories. */
  ghost predicate Wrapped(kh: map<nat, DataWrap>, rkh: map<nat, RosterWrap>, keys: seq<nat>) {
    forall g: nat :: 1 <= g < |keys| ==> WrappedAt(kh, rkh, keys, g)
  }

  ghost predicate Committed(st: State, keys: seq<nat>) {
    && st.generation == |keys| >= 1
    && forall g: nat :: 1 <= g <= |keys| ==>
         g in st.mkCommits && st.mkCommits[g] == MkCommit(MasterKey(g, Secret(keys, g)))
  }

  /** Every member holds a current keyslot, and nobody else holds one of any generation. */
  ghost predicate Slotted(slots: map<(DeviceId, nat), Slot>, st: State, keys: seq<nat>)
    requires keys != []
  {
    && (forall d: DeviceId :: d in st.members ==>
          && d in st.enrolls && st.enrolls[d].XWing? && (d, |keys|) in slots
          && slots[(d, |keys|)] == Slot(st.enrolls[d].key, |keys|, d, Secret(keys, |keys|)))
    && (forall d: DeviceId, g: nat :: (d, g) in slots ==> d in st.members)
  }

  ghost predicate Healthy(t: Tables, rfp: Link, es: seq<Entry>, keys: seq<nat>) {
    && es != [] && keys != [] && |es| <= MAX_TOTAL_SIGCHAIN
    && Fold(es, rfp).Ok?
    && ChainSealed(t.roster, es, keys) && Wrapped(t.keyhist, t.rosterKeyhist, keys)
    && Committed(Fold(es, rfp).value, keys)
    && Slotted(t.keyslots, Fold(es, rfp).value, keys)
    && Fold(es, rfp).value.minAlgo <= ALGO_XWING
  }

  // ---- a healthy repository cold-starts for every member ----

  lemma {:induction false} PeelsRoster(t: Tables, keys: seq<nat>, g: nat)
    requires Wrapped(t.keyhist, t.rosterKeyhist, keys) && 1 <= g <= |keys|
    ensures
      var r := PeelRoster(RosterKey(Secret(keys, g)), g, t.rosterKeyhist);
      && r.Some? && (forall k: nat :: k in r.value <==> 1 <= k <= g)
      && forall k: nat :: 1 <= k <= g ==> r.value[k] == RosterKey(Secret(keys, k))
    decreases g
  {
    if g > 1 {
      PeelsRoster(t, keys, g - 1);
      assert WrappedAt(t.keyhist, t.rosterKeyhist, keys, g - 1);
    }
  }

  lemma {:induction false} PeelsData(t: Tables, keys: seq<nat>, g: nat)
    requires Wrapped(t.keyhist, t.rosterKeyhist, keys) && 1 <= g <= |keys|
    ensures
      var r := PeelData(Secret(keys, g), g, t.keyhist);
      && r.Some? && (forall k: nat :: k in r.value <==> 1 <= k <= g)
      && forall k: nat :: 1 <= k <= g ==> r.value[k] == Secret(keys, k)
    decreases g
  {
    if g > 1 {
      PeelsData(t, keys, g - 1);
      assert WrappedAt(t.keyhist, t.rosterKeyhist, keys, g - 1);
    }
  }

  function ChainOf(t: Tables, n: nat): seq<SealedEntry>
    requires forall i :: 0 <= i < n ==> i in t.roster
  {
    seq(n, i requires 0 <= i < n => t.roster[i])
  }

  lemma {:induction false} OpensAll(t: Tables, es: seq<Entry>, keys: seq<nat>, rks: map<nat, RosterKey>, n: nat)
    requires ChainSealed(t.roster, es, keys) && n <= |es|
    requires forall k: nat :: 1 <= k <= |keys| ==> k in rks && rks[k] == RosterKey(Secret(keys, k))
    ensures OpenAll(rks, ChainOf(t, n)) == Ok(es[..n])
  {
    if n > 0 {
      OpensAll(t, es, keys, rks, n - 1);
      assert ChainOf(t, n)[..n - 1] == ChainOf(t, n - 1);
      assert SealedAt(t.roster[n - 1], es, keys, n - 1);
      assert es[..n] == es[..n - 1] + [es[n - 1]];
    }
  }

  /** What a device reads from the server. */
  function ViewOf(t: Tables, d: DeviceId, n: nat): View
    requires forall i :: 0 <= i < n ==> i in t.roster
  {
    View(ChainOf(t, n), map k | k in t.keyslots && k.0 == d :: k.1 := t.keyslots[k], t.rosterKeyhist)
  }

  lemma StartsCold(t: Tables, rfp: Link, es: seq<Entry>, keys: seq<nat>)
    requires Healthy(t, rfp, es, keys)
    ensures ColdStartFold(Secret(keys, |keys|), |keys|, rfp, t.rosterKeyhist, ChainOf(t, |es|)) == Fold(es, rfp)
    ensures FrameGen(t.roster[|es| - 1]) == Some(|keys|)
  {
    hide Fold, OpenAll, PeelRoster, PeelData, Wrapped, Slotted;
    var n, g := |es|, |keys|;
    PeelsRoster(t, keys, g);
    OpensAll(t, es, keys, PeelRoster(RosterKey(Secret(keys, g)), g, t.rosterKeyhist).value, n);
    assert es[..n] == es;
    assert SealedAt(t.roster[n - 1], es, keys, n - 1);
    GenOfFold(es, rfp);
  }

  lemma RingComplete(t: Tables, st: State, keys: seq<nat>)
    requires keys != [] && Wrapped(t.keyhist, t.rosterKeyhist, keys) && Committed(st, keys)
    ensures
      var ring := DataKeyring(Secret(keys, |keys|), |keys|, t.keyhist, st.mkCommits);
      && ring.Ok? && (forall g: nat :: g in ring.value <==> 1 <= g <= |keys|)
      && forall g: nat :: 1 <= g <= |keys| ==> ring.value[g] == Secret(keys, g)
  {
    hide PeelRoster, PeelData, Wrapped;
    PeelsData(t, keys, |keys|);
  }

  /** Every member's cold start succeeds with the current key, and both key histories reach generation 1. */
  lemma MembersColdStart(t: Tables, rfp: Link, es: seq<Entry>, keys: seq<nat>, dev: Device)
    requires Healthy(t, rfp, es, keys)
    requires dev.id in Fold(es, rfp).value.members && Fold(es, rfp).value.enrolls[dev.id] == XWing(dev.xwing)
    ensures
      var mk := MasterKey(|keys|, Secret(keys, |keys|));
      RepoFold(dev, ViewOf(t, dev.id, |es|), rfp, None)
        == Ok(Folded(mk, Fold(es, rfp).value, Anchor(|es| - 1, t.roster[|es| - 1])))
    ensures
      var ring := DataKeyring(Secret(keys, |keys|), |keys|, t.keyhist, Fold(es, rfp).value.mkCommits);
      && ring.Ok? && (forall g: nat :: g in ring.value <==> 1 <= g <= |keys|)
      && forall g: nat :: 1 <= g <= |keys| ==> ring.value[g] == Secret(keys, g)
  {
    hide Fold, ColdStartFold, DataKeyring, SealedAt;
    StartsCold(t, rfp, es, keys);
    RingComplete(t, Fold(es, rfp).value, keys);
    var v := ViewOf(t, dev.id, |es|);
    assert (dev.id, |keys|) in t.keyslots;
    assert |keys| in v.slots && v.slots[|keys|] == t.keyslots[(dev.id, |keys|)];
    forall k: nat | 1 <= k < |keys| ensures k in v.hist {
      assert WrappedAt(t.keyhist, t.rosterKeyhist, keys, k);
    }
  }

  // ---- the client's rotation batch ----

  datatype Revoke = Revoke(device: DeviceId, after: nat)

  datatype BuildError = TargetNotMember | RevokesItself | GenerationExhausted | NoEnrollKey

  /** Whether the rotation is at or before entry `i`. */
  ghost predicate Late(es: seq<Entry>, i: nat) {
    exists j :: 0 <= j <= i && j < |es| && es[j].body.op.Rotate?
  }

  ghost predicate BoxedAt(b: SealedEntry, e: Entry, gen: nat, secret: nat) {
    b.Box? && b.seqNo == e.body.seqNo && b.plain == Some(e) && b.gen == gen && b.key == RosterKey(secret)
  }

  /** The entries of a rotation: boxed at `g` before the Rotate, the Rotate and anything after at `g + 1`. */
  ghost predicate BoxedRun(bs: seq<SealedEntry>, es: seq<Entry>, g: nat, secret: nat, next: nat) {
    && |bs| == |es|
    && forall i :: 0 <= i < |es| ==>
         BoxedAt(bs[i], es[i], if Late(es, i) then g + 1 else g, if Late(es, i) then next else secret)
  }

  /** A keyslot of the next generation for each remaining member, and for nobody else. */
  ghost predicate RewrapsAll(ws: seq<KeyslotWrite>, st: State, gone: set<DeviceId>, next: nat) {
    && (forall i :: 0 <= i < |ws| ==>
          var d := ws[i].device;
          && d in st.members - gone && d in st.enrolls && st.enrolls[d].XWing?
          && ws[i].gen == st.generation + 1
          && ws[i].slot == Slot(st.enrolls[d].key, st.generation + 1, d, next))
    && (forall d: DeviceId :: d in st.members && d !in gone ==> Writes(ws, d, st.generation + 1))
  }

  ghost predicate IsRotation(b: RosterBatch, tip: TipToken, last: Entry, st: State, secret: nat, next: nat,
                             me: DeviceId, ts: nat) {
    var g := st.generation;
    var ops := RotateOps(b.revoke, MkCommit(MasterKey(g + 1, next)));
    && b.expectedTip == tip
    && BoxedRun(b.entries, AppendMany(last, ops, me, ts), g, secret, next)
    && RewrapsAll(b.keyslots, st, SetOf(b.revoke), next)
    && b.keyhist == Some((g, DataWrap(next, g, secret)))
    && b.rosterKeyhist == Some((g, RosterWrap(RosterKey(next), g, RosterKey(secret))))
  }

  /** The devices a batch names for removal match the revocation asked for, if any. */
  ghost predicate RevokesRight(ds: seq<DeviceId>, st: State, revoke: Option<Revoke>, me: DeviceId) {
    && me !in ds
    && match revoke
       case None => ds == []
       case Some(r) =>
         ds != [] && ds[0] == r.device && forall d :: d in ds[1..] <==> InClosure(st, r.device, r.after, me, d)
  }

  /** The sealing loop of `rotate_repo_remote`: the running generation moves up at the Rotate. */
  method SealRun(es: seq<Entry>, g: nat, secret: nat, next: nat, salts: seq<nat>) returns (bs: seq<SealedEntry>)
    requires |salts| == |es|
    ensures BoxedRun(bs, es, g, secret, next)
  {
    bs := [];
    var late := false;
    for i := 0 to |es|
      invariant |bs| == i
      invariant late <==> i > 0 && Late(es, i - 1)
      invariant forall k :: 0 <= k < i ==>
        BoxedAt(bs[k], es[k], if Late(es, k) then g + 1 else g, if Late(es, k) then next else secret)
    {
      if es[i].body.op.Rotate? {
        late := true;
      }
      LateStep(es, i);
      var key := if late then RosterKey(next) else RosterKey(secret);
      bs := bs + [Box(key, if late then g + 1 else g, es[i].body.seqNo, salts[i], Some(es[i]))];
    }
  }

  lemma LateStep(es: seq<Entry>, i: nat)
    requires i < |es|
    ensures Late(es, i) <==> es[i].body.op.Rotate? || (i > 0 && Late(es, i - 1))
  {
  }

  method RewrapSlots(st: State, gone: set<DeviceId>, next: nat) returns (r: Result<seq<KeyslotWrite>, BuildError>)
    ensures r.Ok? ==> RewrapsAll(r.value, st, gone, next)
    ensures r.Err? ==> exists d :: d in st.members - gone && !(d in st.enrolls && st.enrolls[d].XWing?)
  {
    var ws: seq<KeyslotWrite> := [];
    var todo := st.members - gone;
    while todo != {}
      invariant todo <= st.members - gone
      invariant forall i :: 0 <= i < |ws| ==>
        var d := ws[i].device;
        && d in st.members - gone && d in st.enrolls && st.enrolls[d].XWing?
        && ws[i].gen == st.generation + 1
        && ws[i].slot == Slot(st.enrolls[d].key, st.generation + 1, d, next)
      invariant forall d: DeviceId :: d in st.members && d !in gone && d !in todo ==> Writes(ws, d, st.generation + 1)
      decreases todo
    {
      var d :| d in todo;
      if d !in st.enrolls || !st.enrolls[d].XWing? {
        return Err(NoEnrollKey);
      }
      var w := KeyslotWrite(d, st.generation + 1, Slot(st.enrolls[d].key, st.generation + 1, d, next));
      WritesAppend(ws, w);
      ws := ws + [w];
      todo := todo - {d};
    }
    return Ok(ws);
  }

  lemma WritesAppend(ws: seq<KeyslotWrite>, w: KeyslotWrite)
    ensures Writes(ws + [w], w.device, w.gen)
    ensures forall d: DeviceId, g: nat :: Writes(ws, d, g) ==> Writes(ws + [w], d, g)
  {
    assert (ws + [w])[|ws|] == w;
    forall d: DeviceId, g: nat | Writes(ws, d, g) ensures Writes(ws + [w], d, g) {
      var i :| 0 <= i < |ws| && ws[i].device == d && ws[i].gen == g;
      assert (ws + [w])[i] == ws[i];
    }
  }

  /** The ops of a rotation: alone, or behind a revocation of a member other than oneself. */
  method RotationOps(st: State, revoke: Option<Revoke>, me: DeviceId, commit: MkCommit)
    returns (r: Result<seq<Op>, BuildError>)
    ensures r.Ok? ==> r.value == RotateOps(Revoked(r.value), commit) && RevokesRight(Revoked(r.value), st, revoke, me)
    ensures r.Ok? && revoke.Some? ==> revoke.value.device in st.members
  {
    hide InClosure, Revoked;
    if revoke.None? {
      RevokedOfOps([], commit);
      assert [Rotate(commit)] == RotateOps([], commit);
      return Ok([Rotate(commit)]);
    }
    if revoke.value.device !in st.members {
      return Err(TargetNotMember);
    }
    var rr := RevokeRotateOps(st, revoke.value.device, revoke.value.after, me, commit);
    if rr.Err? {
      return Err(RevokesItself);
    }
    return Ok(rr.value);
  }

  /** The batch `rotate_repo_remote` sends from one fold of the chain. */
  method BuildRotation(tip: TipToken, last: Entry, st: State, secret: nat, next: nat, me: DeviceId,
                       revoke: Option<Revoke>, ts: nat, salt: nat, head: Option<HeadSwap>)
    returns (r: Result<RosterBatch, BuildError>)
    ensures r.Ok? ==> IsRotation(r.value, tip, last, st, secret, next, me, ts)
    ensures r.Ok? ==> RevokesRight(r.value.revoke, st, revoke, me) && r.value.head == head
    ensures r.Ok? ==> st.generation < U32_MAX
    ensures r.Ok? && revoke.Some? ==> revoke.value.device in st.members
  {
    hide AppendMany, BoxedRun, RewrapsAll, InClosure, Revoked, RevokesRight, RotateOps;
    var g := st.generation;
    if g >= U32_MAX {
      return Err(GenerationExhausted);
    }
    var commit := MkCommit(MasterKey(g + 1, next));
    var ops :- RotationOps(st, revoke, me, commit);
    var revoked := Revoked(ops);
    var es := AppendMany(last, ops, me, ts);
    var sealed := SealRun(es, g, secret, next, seq(|es|, i => salt + i));
    var slots := RewrapSlots(st, SetOf(revoked), next);
    if slots.Err? {
      return Err(slots.error);
    }
    hide SetOf;
    return Ok(RosterBatch(tip, sealed, slots.value, Some((g, DataWrap(next, g, secret))),
                          Some((g, RosterWrap(RosterKey(next), g, RosterKey(secret)))), revoked, head));
  }

  // ---- a won rotation keeps the repository healthy ----

  lemma {:induction false} GenOfExtend(es: seq<Entry>, ops: seq<Op>, me: DeviceId, ts: nat, k: nat)
    requires es != [] && k <= |ops| && forall i :: 0 <= i < k ==> !ops[i].Rotate?
    ensures GenOf(Extend(es, ops, me, ts)[..|es| + k]) == GenOf(es)
  {
    var all := Extend(es, ops, me, ts);
    if k == 0 {
      assert all[..|es|] == es;
    } else {
      GenOfExtend(es, ops, me, ts, k - 1);
      assert all[..|es| + k][..|es| + k - 1] == all[..|es| + k - 1];
      assert all[|es| + k - 1].body.op == ops[k - 1];
    }
  }

  lemma RotationSeals(t: Tables, es: seq<Entry>, keys: seq<nat>, b: RosterBatch, ds: seq<DeviceId>, next: nat,
                      me: DeviceId, ts: nat)
    requires es != [] && keys != [] && ChainSealed(t.roster, es, keys) && GenOf(es) == |keys|
    requires forall i :: 0 <= i < |es| ==> es[i].body.seqNo == i
    requires
      var ops := RotateOps(ds, MkCommit(MasterKey(|keys| + 1, next)));
      BoxedRun(b.entries, AppendMany(es[|es| - 1], ops, me, ts), |keys|, Secret(keys, |keys|), next)
    ensures
      var ops := RotateOps(ds, MkCommit(MasterKey(|keys| + 1, next)));
      ChainSealed(Appended(t.roster, b.entries), Extend(es, ops, me, ts), keys + [next])
  {
    var ops := RotateOps(ds, MkCommit(MasterKey(|keys| + 1, next)));
    var all := Extend(es, ops, me, ts);
    assert |b.entries| == |ops| == |ds| + 1 && |all| == |es| + |ops|;
    hide AppendMany, BoxedRun, ChainSealed, SealedAt, RotateOps;
    forall k | 0 <= k < |b.entries| ensures SealedAt(b.entries[k], all, keys + [next], |es| + k) {
      RotationSealsAt(es, keys, b, ds, next, me, ts, k);
    }
    ChainGrows(t, es, keys, b.entries, all, keys + [next]);
  }

  /** Entries sealed at their own positions extend a sealed chain. */
  lemma ChainGrows(t: Tables, es: seq<Entry>, keys: seq<nat>, bs: seq<SealedEntry>, all: seq<Entry>, keys': seq<nat>)
    requires ChainSealed(t.roster, es, keys) && es <= all && keys <= keys' && |all| == |es| + |bs|
    requires forall k :: 0 <= k < |bs| ==> SealedAt(bs[k], all, keys', |es| + k)
    ensures ChainSealed(Appended(t.roster, bs), all, keys')
  {
    hide Appended, SealedAt;
    AppendedDense(t.roster, bs);
    forall i | 0 <= i < |all| ensures SealedAt(Appended(t.roster, bs)[i], all, keys', i) {
      if i < |es| {
        SealedLonger(t.roster[i], es, keys, all, keys', i);
      } else {
        assert Appended(t.roster, bs)[|t.roster| + (i - |es|)] == bs[i - |es|];
        assert SealedAt(bs[i - |es|], all, keys', |es| + (i - |es|));
      }
    }
  }

  lemma SealedLonger(b: SealedEntry, es: seq<Entry>, keys: seq<nat>, all: seq<Entry>, keys': seq<nat>, i: nat)
    requires SealedAt(b, es, keys, i) && es <= all && keys <= keys'
    ensures SealedAt(b, all, keys', i)
  {
    assert all[..i + 1] == es[..i + 1];
  }

  lemma RotationSealsAt(es: seq<Entry>, keys: seq<nat>, b: RosterBatch, ds: seq<DeviceId>, next: nat, me: DeviceId,
                        ts: nat, k: nat)
    requires es != [] && keys != [] && GenOf(es) == |keys| && k <= |ds|
    requires forall i :: 0 <= i < |es| ==> es[i].body.seqNo == i
    requires
      var ops := RotateOps(ds, MkCommit(MasterKey(|keys| + 1, next)));
      BoxedRun(b.entries, AppendMany(es[|es| - 1], ops, me, ts), |keys|, Secret(keys, |keys|), next)
    ensures
      var ops := RotateOps(ds, MkCommit(MasterKey(|keys| + 1, next)));
      SealedAt(b.entries[k], Extend(es, ops, me, ts), keys + [next], |es| + k)
  {
    hide AppendMany, GenOf, RotateOps, Late;
    var ops := RotateOps(ds, MkCommit(MasterKey(|keys| + 1, next)));
    OpsShape(ds, MkCommit(MasterKey(|keys| + 1, next)));
    var run := AppendMany(es[|es| - 1], ops, me, ts);
    var all := Extend(es, ops, me, ts);
    assert all[|es| + k] == run[k];
    LateOfOps(ds, MkCommit(MasterKey(|keys| + 1, next)), run, k);
    assert BoxedAt(b.entries[k], run[k], if k == |ds| then |keys| + 1 else |keys|,
                   if k == |ds| then next else Secret(keys, |keys|));
    if k < |ds| {
      GenOfExtend(es, ops, me, ts, k + 1);
    } else {
      GenOfExtend(es, ops, me, ts, k);
      GenOfRotate(all[..|es| + k + 1]);
      assert all[..|es| + k + 1][..|es| + k] == all[..|es| + k];
    }
  }

  lemma OpsShape(ds: seq<DeviceId>, commit: MkCommit)
    ensures |RotateOps(ds, commit)| == |ds| + 1
    ensures forall i :: 0 <= i < |ds| ==> !RotateOps(ds, commit)[i].Rotate?
  {
  }

  lemma LateOfOps(ds: seq<DeviceId>, commit: MkCommit, run: seq<Entry>, k: nat)
    requires |run| == |ds| + 1 && k <= |ds|
    requires forall i :: 0 <= i < |run| ==> run[i].body.op == RotateOps(ds, commit)[i]
    ensures Late(run, k) <==> k == |ds|
    ensures k == |ds| ==> run[k].body.op.Rotate?
  {
    assert RotateOps(ds, commit)[|ds|] == Rotate(commit);
    assert forall i :: 0 <= i < |ds| ==> run[i].body.op == RevokeOps(ds)[i];
    if k == |ds| {
      assert run[k].body.op.Rotate?;
    }
  }

  lemma GenOfRotate(es: seq<Entry>)
    requires |es| > 1 && es[|es| - 1].body.op.Rotate?
    ensures GenOf(es) == GenOf(es[..|es| - 1]) + 1
  {
  }

  lemma RotationSlots(t: Tables, st: State, keys: seq<nat>, b: RosterBatch, next: nat, commit: MkCommit, tip: nat)
    requires keys != [] && st.generation == |keys| && |t.roster| > 0
    requires Slotted(t.keyslots, st, keys) && BatchWins(t, b) && RewrapsAll(b.keyslots, st, SetOf(b.revoke), next)
    ensures Slotted(ApplyBatch(t, b).keyslots, AfterRotate(st, SetOf(b.revoke), commit, tip), keys + [next])
  {
    hide ApplyBatch, BatchWins, Writes;
    var st' := AfterRotate(st, SetOf(b.revoke), commit, tip);
    var slots := ApplyBatch(t, b).keyslots;
    forall d: DeviceId, g: nat | (d, g) in slots ensures d in st'.members {
      RevokeClearsExactly(t, b, d, g);
      if Writes(b.keyslots, d, g) {
        WrittenIs(b.keyslots, d, g);
      }
    }
    forall d: DeviceId | d in st'.members
      ensures d in st'.enrolls && st'.enrolls[d].XWing? && (d, |keys| + 1) in slots
      ensures slots[(d, |keys| + 1)] == Slot(st'.enrolls[d].key, |keys| + 1, d, next)
    {
      assert Writes(b.keyslots, d, |keys| + 1);
      WrittenLands(t, b, d, |keys| + 1);
    }
  }

  lemma WrittenIs(ws: seq<KeyslotWrite>, d: DeviceId, g: nat)
    requires Writes(ws, d, g)
    ensures exists i :: 0 <= i < |ws| && ws[i].device == d && ws[i].gen == g
  {
  }

  lemma WrittenLands(t: Tables, b: RosterBatch, d: DeviceId, g: nat)
    requires BatchWins(t, b) && Writes(b.keyslots, d, g)
    ensures (d, g) in ApplyBatch(t, b).keyslots
    ensures exists i :: 0 <= i < |b.keyslots| && b.keyslots[i].device == d && b.keyslots[i].gen == g
                        && ApplyBatch(t, b).keyslots[(d, g)] == b.keyslots[i].slot
  {
    WriteSlotsKeys(SlotsKept(t, b), b.keyslots, d, g);
  }

  lemma RotationWraps(t: Tables, keys: seq<nat>, next: nat, kh: map<nat, DataWrap>, rkh: map<nat, RosterWrap>)
    requires keys != [] && Wrapped(t.keyhist, t.rosterKeyhist, keys)
    requires kh == t.keyhist[|keys| := DataWrap(next, |keys|, Secret(keys, |keys|))]
    requires rkh == t.rosterKeyhist[|keys| := RosterWrap(RosterKey(next), |keys|, RosterKey(Secret(keys, |keys|)))]
    ensures Wrapped(kh, rkh, keys + [next])
  {
    forall g: nat | 1 <= g <= |keys| ensures WrappedAt(kh, rkh, keys + [next], g) {
      if g < |keys| {
        assert WrappedAt(t.keyhist, t.rosterKeyhist, keys, g);
      }
    }
  }

  /** A won rotation batch leaves a healthy repository: one more generation, exactly the revoked gone. */
  lemma RotationKeeps(t: Tables, rfp: Link, es: seq<Entry>, keys: seq<nat>, b: RosterBatch, next: nat, me: DeviceId,
                      ts: nat)
    requires Healthy(t, rfp, es, keys) && BatchWins(t, b)
    requires IsRotation(b, TipTokenOf(t), es[|es| - 1], Fold(es, rfp).value, Secret(keys, |keys|), next, me, ts)
    requires me in Fold(es, rfp).value.members && me !in b.revoke
    requires Fold(es, rfp).value.generation < U32_MAX && |es| + |b.entries| <= MAX_TOTAL_SIGCHAIN
    ensures
      var commit := MkCommit(MasterKey(|keys| + 1, next));
      var all := Extend(es, RotateOps(b.revoke, commit), me, ts);
      && Healthy(ApplyBatch(t, b), rfp, all, keys + [next])
      && Fold(all, rfp) == Ok(AfterRotate(Fold(es, rfp).value, SetOf(b.revoke), commit, |es| + |b.revoke|))
  {
    hide Fold, ChainSealed, Slotted, Wrapped, ApplyBatch, AppendMany, RewrapsAll, BoxedRun, RotateOps, BatchWins,
         Committed, AfterRotate, Secret;
    var st := Fold(es, rfp).value;
    CommittedGen(st, keys);
    RotationCommits(st, keys, SetOf(b.revoke), next, |es| + |b.revoke|);
    var commit := MkCommit(MasterKey(|keys| + 1, next));
    var t' := ApplyBatch(t, b);
    WonTables(t, b);
    RotateFolds(es, rfp, b.revoke, commit, me, ts);
    FoldSeqs(es, rfp);
    GenOfFold(es, rfp);
    OpsShape(b.revoke, commit);
    RotationSeals(t, es, keys, b, b.revoke, next, me, ts);
    RosterNonEmpty(t, es, keys);
    RotationSlots(t, st, keys, b, next, commit, |es| + |b.revoke|);
    RotationWraps(t, keys, next, t'.keyhist, t'.rosterKeyhist);
    BoxedLen(b.entries, AppendMany(es[|es| - 1], RotateOps(b.revoke, commit), me, ts), |keys|, Secret(keys, |keys|),
             next);
  }

  lemma CommittedGen(st: State, keys: seq<nat>)
    requires Committed(st, keys)
    ensures st.generation == |keys|
  {
  }

  lemma RotationCommits(st: State, keys: seq<nat>, gone: set<DeviceId>, next: nat, tip: nat)
    requires Committed(st, keys)
    ensures
      var st' := AfterRotate(st, gone, MkCommit(MasterKey(|keys| + 1, next)), tip);
      Committed(st', keys + [next]) && st'.minAlgo == st.minAlgo
  {
  }

  lemma BoxedLen(bs: seq<SealedEntry>, es: seq<Entry>, g: nat, secret: nat, next: nat)
    requires BoxedRun(bs, es, g, secret, next)
    ensures |bs| == |es|
  {
  }

  lemma WonTables(t: Tables, b: RosterBatch)
    requires BatchWins(t, b)
    ensures
      var t' := ApplyBatch(t, b);
      && t'.roster == Appended(t.roster, b.entries)
      && t'.keyhist == (if b.keyhist.Some? then t.keyhist[b.keyhist.value.0 := b.keyhist.value.1] else t.keyhist)
      && t'.rosterKeyhist == (if b.rosterKeyhist.Some?
           then t.rosterKeyhist[b.rosterKeyhist.value.0 := b.rosterKeyhist.value.1] else t.rosterKeyhist)
  {
  }

  lemma RosterNonEmpty(t: Tables, es: seq<Entry>, keys: seq<nat>)
    requires es != [] && ChainSealed(t.roster, es, keys)
    ensures |t.roster| == |es| > 0
  {
  }

  // ---- genesis and grants ----

  lemma WriteOne(slots: map<(DeviceId, nat), Slot>, w: KeyslotWrite)
    ensures WriteSlots(slots, [w]) == slots[(w.device, w.gen) := w.slot]
  {
    assert [w][..0] == [];
  }

  /** The genesis batch: the self-signed first entry and the founder's own keyslot. */
  ghost predicate IsGenesis(b: RosterBatch, g: Entry, founder: Device, secret: nat) {
    && g.body == Signed(0, NoLink, Genesis(Canonical(founder.id), MkCommit(MasterKey(1, secret)), XWing(founder.xwing)),
                        g.body.ts, founder.id)
    && g.sig == SigBy(founder.id, g.body)
    && b.expectedTip == NoTip && |b.entries| == 1 && BoxedAt(b.entries[0], g, 1, secret)
    && b.keyslots == [KeyslotWrite(founder.id, 1, Slot(founder.xwing, 1, founder.id, secret))]
    && b.keyhist == None && b.rosterKeyhist == None && b.revoke == [] && b.head == None
  }

  /** What `init_repo_remote` sends, and the first entry whose hash is the repository's fingerprint. */
  method BuildGenesis(founder: Device, secret: nat, ts: nat, salt: nat) returns (b: RosterBatch, g: Entry)
    ensures IsGenesis(b, g, founder, secret)
  {
    var op := Genesis(Canonical(founder.id), MkCommit(MasterKey(1, secret)), XWing(founder.xwing));
    var body := Signed(0, NoLink, op, ts, founder.id);
    g := Entry(body, SigBy(founder.id, body));
    b := RosterBatch(NoTip, [Box(RosterKey(secret), 1, 0, salt, Some(g))],
                     [KeyslotWrite(founder.id, 1, Slot(founder.xwing, 1, founder.id, secret))], None, None, [], None);
  }

  /** Won on an empty roster, genesis founds a healthy repository, whatever was squatted before. */
  lemma GenesisFounds(t: Tables, b: RosterBatch, g: Entry, founder: Device, secret: nat)
    requires t.roster == map[] && BatchWins(t, b) && IsGenesis(b, g, founder, secret)
    ensures Healthy(ApplyBatch(t, b), LinkTo(g), [g], [secret])
  {
    var t' := ApplyBatch(t, b);
    AppendedDense(t.roster, b.entries);
    assert t'.roster[|t.roster| + 0] == b.entries[0];
    assert [g][..1] == [g];
    assert SealedAt(t'.roster[0], [g], [secret], 0);
    assert ChainSealed(t'.roster, [g], [secret]);
    WriteOne(SlotsKept(t, b), b.keyslots[0]);
    assert t'.keyslots == map[(founder.id, 1) := Slot(founder.xwing, 1, founder.id, secret)];
    assert Slotted(t'.keyslots, Fold([g], LinkTo(g)).value, [secret]);
  }

  /** The grant batch: one AddDevice at the current generation and the joiner's keyslot. */
  ghost predicate IsGrant(b: RosterBatch, tip: TipToken, last: Entry, st: State, secret: nat, joiner: Device,
                          me: DeviceId, ts: nat) {
    && b.expectedTip == tip && |b.entries| == 1
    && BoxedAt(b.entries[0], AppendEntry(last, GrantOp(st, secret, joiner), me, ts), st.generation, secret)
    && b.keyslots == [KeyslotWrite(joiner.id, st.generation, Slot(joiner.xwing, st.generation, joiner.id, secret))]
    && b.keyhist == None && b.rosterKeyhist == None && b.revoke == [] && b.head == None
  }

  function GrantOp(st: State, secret: nat, joiner: Device): Op {
    AddDevice(Canonical(joiner.id), MkCommit(MasterKey(st.generation, secret)), XWing(joiner.xwing))
  }

  /** What one round of `grant_device_remote` sends, against the roster it just folded. */
  method BuildGrant(tip: TipToken, last: Entry, st: State, secret: nat, joiner: Device, me: DeviceId, ts: nat,
                    salt: nat)
    returns (b: RosterBatch)
    ensures IsGrant(b, tip, last, st, secret, joiner, me, ts)
  {
    var g := st.generation;
    var entry := AppendEntry(last, GrantOp(st, secret, joiner), me, ts);
    b := RosterBatch(tip, [Box(RosterKey(secret), g, entry.body.seqNo, salt, Some(entry))],
                     [KeyslotWrite(joiner.id, g, Slot(joiner.xwing, g, joiner.id, secret))], None, None, [], None);
  }

  lemma GrantSlots(t: Tables, st: State, keys: seq<nat>, b: RosterBatch, joiner: Device, st': State)
    requires keys != [] && |t.roster| > 0 && Slotted(t.keyslots, st, keys) && BatchWins(t, b)
    requires b.revoke == []
    requires b.keyslots ==
            [KeyslotWrite(joiner.id, |keys|, Slot(joiner.xwing, |keys|, joiner.id, Secret(keys, |keys|)))]
    requires st'.members == st.members + {joiner.id} && st'.enrolls == st.enrolls[joiner.id := XWing(joiner.xwing)]
    ensures Slotted(ApplyBatch(t, b).keyslots, st', keys)
  {
    var slots := ApplyBatch(t, b).keyslots;
    assert SlotsKept(t, b) == t.keyslots;
    WriteOne(t.keyslots, b.keyslots[0]);
    assert slots == t.keyslots[(joiner.id, |keys|) := b.keyslots[0].slot];
  }

  /** A won grant keeps the repository healthy, with the joiner a member. */
  lemma GrantKeeps(t: Tables, rfp: Link, es: seq<Entry>, keys: seq<nat>, b: RosterBatch, joiner: Device, me: DeviceId,
                   ts: nat)
    requires Healthy(t, rfp, es, keys) && BatchWins(t, b)
    requires IsGrant(b, TipTokenOf(t), es[|es| - 1], Fold(es, rfp).value, Secret(keys, |keys|), joiner, me, ts)
    requires me in Fold(es, rfp).value.members && |es| < MAX_TOTAL_SIGCHAIN
    ensures
      var e := AppendEntry(es[|es| - 1], GrantOp(Fold(es, rfp).value, Secret(keys, |keys|), joiner), me, ts);
      Healthy(ApplyBatch(t, b), rfp, es + [e], keys)
  {
    hide Fold, ChainSealed, Slotted, Wrapped, ApplyBatch, BatchWins, GenOf;
    var st := Fold(es, rfp).value;
    var op := GrantOp(st, Secret(keys, |keys|), joiner);
    var e := AppendEntry(es[|es| - 1], op, me, ts);
    WonTables(t, b);
    FoldAppend(es, rfp, op, me, ts);
    FoldSeqs(es, rfp);
    GenOfFold(es, rfp);
    GenOfFold(es + [e], rfp);
    assert (es + [e])[..|es| + 1] == es + [e];
    assert SealedAt(b.entries[0], es + [e], keys, |es| + 0);
    ChainGrows(t, es, keys, b.entries, es + [e], keys);
    RosterNonEmpty(t, es, keys);
    GrantSlots(t, st, keys, b, joiner, Fold(es + [e], rfp).value);
  }

  // ---- every run ----

  /** What a client saw when it built its batch: the tables, and what its fold of them opened. */
  datatype Snap = Snap(t: Tables, es: seq<Entry>, keys: seq<nat>)

  datatype Change =
    | GrantFrom(view: nat, b: RosterBatch, joiner: Device, me: DeviceId, ts: nat)
    | RotateFrom(view: nat, b: RosterBatch, revoke: Option<Revoke>, next: nat, me: DeviceId, ts: nat)
    | OtherOp(op: StoreOp)

  ghost predicate HealthySnap(s: Snap, rfp: Link) {
    Healthy(s.t, rfp, s.es, s.keys)
  }

  /** A batch built by a member from some state the repository was in, however long ago. */
  ghost predicate Honest(past: seq<Snap>, rfp: Link, c: Change) {
    match c
    case OtherOp(op) => !op.OpBatch?
    case GrantFrom(view, b, joiner, me, ts) =>
      && view < |past| && HealthySnap(past[view], rfp)
      && var s := past[view];
         var st := Fold(s.es, rfp).value;
         && me in st.members
         && IsGrant(b, TipTokenOf(s.t), s.es[|s.es| - 1], st, Secret(s.keys, |s.keys|), joiner, me, ts)
    case RotateFrom(view, b, revoke, next, me, ts) =>
      && view < |past| && HealthySnap(past[view], rfp)
      && var s := past[view];
         var st := Fold(s.es, rfp).value;
         && me in st.members && st.generation < U32_MAX
         && RevokesRight(b.revoke, st, revoke, me)
         && IsRotation(b, TipTokenOf(s.t), s.es[|s.es| - 1], st, Secret(s.keys, |s.keys|), next, me, ts)
  }

  /** The server takes a batch when every CAS holds and the chain stays under its cap. */
  predicate Taken(t: Tables, b: RosterBatch) {
    BatchWins(t, b) && |t.roster| + |b.entries| <= MAX_TOTAL_SIGCHAIN
  }

  /** The state after one change of a run whose states so far are `past`. */
  ghost function After(past: seq<Snap>, rfp: Link, c: Change): Snap
    requires past != []
  {
    var now := past[|past| - 1];
    if !Honest(past, rfp, c) then now
    else
      match c
      case OtherOp(op) => now.(t := Do(now.t, op))
      case GrantFrom(view, b, joiner, me, ts) =>
        if !Taken(now.t, b) then now
        else
          var s := past[view];
          var op := GrantOp(Fold(s.es, rfp).value, Secret(s.keys, |s.keys|), joiner);
          Snap(ApplyBatch(now.t, b), s.es + [AppendEntry(s.es[|s.es| - 1], op, me, ts)], s.keys)
      case RotateFrom(view, b, _, next, me, ts) =>
        if !Taken(now.t, b) then now
        else
          var s := past[view];
          var ops := RotateOps(b.revoke, MkCommit(MasterKey(|s.keys| + 1, next)));
          Snap(ApplyBatch(now.t, b), Extend(s.es, ops, me, ts), s.keys + [next])
  }

  ghost function Trace(start: Snap, rfp: Link, cs: seq<Change>): (past: seq<Snap>)
    ensures |past| == |cs| + 1
  {
    if cs == [] then [start]
    else
      var past := Trace(start, rfp, cs[..|cs| - 1]);
      past + [After(past, rfp, cs[|cs| - 1])]
  }

  /** Every state of the run is healthy, and each is a prefix of the latest. */
  ghost predicate TraceOk(past: seq<Snap>, rfp: Link) {
    && past != []
    && forall i :: 0 <= i < |past| ==>
         && HealthySnap(past[i], rfp)
         && past[i].es <= past[|past| - 1].es && past[i].keys <= past[|past| - 1].keys
  }

  lemma TipOfHealthy(s: Snap, rfp: Link)
    requires HealthySnap(s, rfp)
    ensures TipTokenOf(s.t).Tip? && TipTokenOf(s.t).entry.Box? && TipTokenOf(s.t).entry.seqNo == |s.es| - 1
    ensures |s.keys| == GenOf(s.es)
  {
    hide Fold;
    GenOfFold(s.es, rfp);
    assert SealedAt(s.t.roster[|s.es| - 1], s.es, s.keys, |s.es| - 1);
  }

  /** A batch that wins was built from the current chain: the tip token pins the whole of it. */
  lemma WinnerIsCurrent(past: seq<Snap>, rfp: Link, view: nat)
    requires TraceOk(past, rfp) && view < |past|
    requires TipTokenOf(past[view].t) == TipTokenOf(past[|past| - 1].t)
    ensures past[view].es == past[|past| - 1].es && past[view].keys == past[|past| - 1].keys
  {
    TipOfHealthy(past[view], rfp);
    TipOfHealthy(past[|past| - 1], rfp);
  }

  lemma OtherKeeps(s: Snap, rfp: Link, op: StoreOp)
    requires HealthySnap(s, rfp) && !op.OpBatch?
    ensures HealthySnap(s.(t := Do(s.t, op)), rfp)
  {
    hide Fold, ChainSealed, Wrapped, Slotted;
  }

  lemma AfterGrant(past: seq<Snap>, rfp: Link, c: Change)
    requires TraceOk(past, rfp) && c.GrantFrom? && Honest(past, rfp, c) && Taken(past[|past| - 1].t, c.b)
    ensures
      var s', now := After(past, rfp, c), past[|past| - 1];
      HealthySnap(s', rfp) && now.es <= s'.es && now.keys <= s'.keys
  {
    hide Fold, ApplyBatch, ChainSealed, Wrapped, Slotted, Committed, BatchWins, TipTokenOf;
    var now := past[|past| - 1];
    WinnerTip(now.t, c.b);
    WinnerIsCurrent(past, rfp, c.view);
    RosterNonEmpty(now.t, now.es, now.keys);
    GrantKeeps(now.t, rfp, now.es, now.keys, c.b, c.joiner, c.me, c.ts);
  }

  lemma AfterRotation(past: seq<Snap>, rfp: Link, c: Change)
    requires TraceOk(past, rfp) && c.RotateFrom? && Honest(past, rfp, c) && Taken(past[|past| - 1].t, c.b)
    ensures
      var s', now := After(past, rfp, c), past[|past| - 1];
      HealthySnap(s', rfp) && now.es <= s'.es && now.keys <= s'.keys
  {
    hide Fold, ApplyBatch, IsRotation, ChainSealed, Wrapped, Slotted, Committed, AppendMany, RotateOps, BatchWins,
         InClosure, TipTokenOf;
    var s, now := past[c.view], past[|past| - 1];
    WinnerTip(now.t, c.b);
    RotationTip(c.b, TipTokenOf(s.t), s.es[|s.es| - 1], Fold(s.es, rfp).value,
                Secret(s.keys, |s.keys|), c.next, c.me, c.ts);
    WinnerIsCurrent(past, rfp, c.view);
    RosterNonEmpty(now.t, now.es, now.keys);
    RotationKeeps(now.t, rfp, now.es, now.keys, c.b, c.next, c.me, c.ts);
  }

  lemma WinnerTip(t: Tables, b: RosterBatch)
    requires BatchWins(t, b)
    ensures TipTokenOf(t) == b.expectedTip
  {
  }

  lemma RotationTip(b: RosterBatch, tip: TipToken, last: Entry, st: State, secret: nat, next: nat, me: DeviceId,
                    ts: nat)
    requires IsRotation(b, tip, last, st, secret, next, me, ts)
    ensures b.expectedTip == tip
  {
  }

  lemma AfterKeeps(past: seq<Snap>, rfp: Link, c: Change)
    requires TraceOk(past, rfp)
    ensures
      var s', now := After(past, rfp, c), past[|past| - 1];
      HealthySnap(s', rfp) && now.es <= s'.es && now.keys <= s'.keys
  {
    hide HealthySnap, Honest, Taken;
    if Honest(past, rfp, c) {
      match c
      case OtherOp(op) =>
        OtherIsNoBatch(past, rfp, c);
        OtherKeeps(past[|past| - 1], rfp, op);
      case GrantFrom(_, b, _, _, _) =>
        if Taken(past[|past| - 1].t, b) { AfterGrant(past, rfp, c); }
      case RotateFrom(_, b, _, _, _, _) =>
        if Taken(past[|past| - 1].t, b) { AfterRotation(past, rfp, c); }
    }
  }

  lemma OtherIsNoBatch(past: seq<Snap>, rfp: Link, c: Change)
    requires c.OtherOp? && Honest(past, rfp, c)
    ensures !c.op.OpBatch?
  {
  }

  /**
   Over every run of grants, rotations and other store operations, each batch built from any
   state the repository was ever in, every state is healthy.
   */
  lemma {:induction false} EveryRunHealthy(start: Snap, rfp: Link, cs: seq<Change>)
    requires HealthySnap(start, rfp)
    ensures TraceOk(Trace(start, rfp, cs), rfp)
  {
    hide HealthySnap, After;
    if cs != [] {
      var past := Trace(start, rfp, cs[..|cs| - 1]);
      EveryRunHealthy(start, rfp, cs[..|cs| - 1]);
      AfterKeeps(past, rfp, cs[|cs| - 1]);
    }
  }

  /** In every reachable state no device outside the current roster holds a keyslot of any generation. */
  lemma RevokedHoldNothing(start: Snap, rfp: Link, cs: seq<Change>, d: DeviceId, g: nat)
    requires HealthySnap(start, rfp)
    ensures
      var now := Trace(start, rfp, cs)[|cs|];
      Fold(now.es, rfp).Ok? && (d !in Fold(now.es, rfp).value.members ==> (d, g) !in now.t.keyslots)
  {
    hide Fold, ChainSealed, Wrapped;
    EveryRunHealthy(start, rfp, cs);
    assert HealthySnap(Trace(start, rfp, cs)[|cs|], rfp);
  }
}
