/** What every run of the server's store operations keeps. */
module StoreRuns {
  import opened Prelude
  import opened Objects
  import opened Sigchain
  import opened StoreModel

  /** The operations the request handler issues against the store. */
  datatype StoreOp =
    | OpStage(p: PushId, id: Id, blob: ObjBlob, now: nat)
    | OpCas(refH: RefH, expectedOld: HeadToken, newBlob: HeadBlob, p: PushId)
    | OpBatch(b: RosterBatch)
    | OpPrune(dead: set<Id>, refs: map<RefH, HeadBlob>, rosterLen: nat)
    | OpReclaim(now: nat, ttl: nat)

  function Do(t: Tables, op: StoreOp): Tables {
    match op
    case OpStage(p, id, blob, now) => Stage(t, p, id, blob, now)
    case OpCas(refH, expectedOld, newBlob, p) => CasRef(t, refH, expectedOld, newBlob, p)
    case OpBatch(b) => ApplyBatch(t, b)
    case OpPrune(dead, refs, rosterLen) => Prune(t, dead, t.refs == refs && |t.roster| == rosterLen)
    case OpReclaim(now, ttl) => Reclaim(t, now, ttl)
  }

  function After(t: Tables, ops: seq<StoreOp>): Tables {
    if ops == [] then t else Do(After(t, ops[..|ops| - 1]), ops[|ops| - 1])
  }

  lemma {:induction false} AfterSplit(t: Tables, ops: seq<StoreOp>, k: nat)
    requires k <= |ops|
    ensures After(t, ops) == After(After(t, ops[..k]), ops[k..])
  {
    hide Do;
    if k == |ops| {
      assert ops[..k] == ops;
    } else {
      var n := |ops| - 1;
      AfterSplit(t, ops[..n], k);
      assert ops[..n][..k] == ops[..k];
      assert ops[k..][..n - k] == ops[..n][k..];
      assert ops[k..][n - k] == ops[n];
    }
  }

  // ---- the roster only grows ----

  ghost predicate Dense(roster: map<nat, SealedEntry>) {
    forall i: nat :: i in roster <==> i < |roster|
  }

  ghost predicate Extends(small: map<nat, SealedEntry>, large: map<nat, SealedEntry>) {
    forall i :: i in small ==> i in large && large[i] == small[i]
  }

  lemma InsertDense(r: map<nat, SealedEntry>, e: SealedEntry)
    requires Dense(r)
    ensures Dense(r[|r| := e]) && |r[|r| := e]| == |r| + 1 && Extends(r, r[|r| := e])
  {
    var n := |r|;
    var r' := r[n := e];
    assert n !in r;
    InsertCount(r, n, e);
    forall i: nat ensures i in r' <==> i < |r'| {
      assert i in r <==> i < n;
    }
  }

  lemma InsertCount(r: map<nat, SealedEntry>, n: nat, e: SealedEntry)
    requires n !in r
    ensures |r[n := e]| == |r| + 1
  {
    assert r[n := e].Keys == r.Keys + {n};
    assert |r[n := e]| == |r[n := e].Keys| && |r| == |r.Keys|;
  }

  lemma {:induction false} AppendedDense(roster: map<nat, SealedEntry>, entries: seq<SealedEntry>)
    requires Dense(roster)
    ensures Dense(Appended(roster, entries)) && |Appended(roster, entries)| == |roster| + |entries|
    ensures Extends(roster, Appended(roster, entries))
    ensures forall i :: 0 <= i < |entries| ==> Appended(roster, entries)[|roster| + i] == entries[i]
  {
    if entries != [] {
      hide Dense, Extends;
      var n := |entries| - 1;
      var init := Appended(roster, entries[..n]);
      AppendedDense(roster, entries[..n]);
      InsertDense(init, entries[n]);
      assert Appended(roster, entries) == init[|init| := entries[n]];
      ExtendsOn(roster, init, Appended(roster, entries));
      KeysBelow(init);
    } else {
      hide Dense;
    }
  }

  lemma ExtendsOn(a: map<nat, SealedEntry>, b: map<nat, SealedEntry>, c: map<nat, SealedEntry>)
    requires Extends(a, b) && Extends(b, c)
    ensures Extends(a, c)
  {
  }

  lemma KeysBelow(r: map<nat, SealedEntry>)
    requires Dense(r)
    ensures |r| !in r && forall i: nat :: i < |r| ==> i in r
  {
  }

  lemma StepKeepsRoster(t: Tables, op: StoreOp)
    requires Dense(t.roster)
    ensures Dense(Do(t, op).roster) && Extends(t.roster, Do(t, op).roster)
  {
    if op.OpBatch? {
      AppendedDense(t.roster, op.b.entries);
    }
  }

  /** Over every run the chain stays densely numbered and no stored entry ever changes. */
  lemma {:induction false} RosterAppendOnly(t: Tables, ops: seq<StoreOp>)
    requires Dense(t.roster)
    ensures Dense(After(t, ops).roster) && Extends(t.roster, After(t, ops).roster)
  {
    if ops != [] {
      RosterAppendOnly(t, ops[..|ops| - 1]);
      StepKeepsRoster(After(t, ops[..|ops| - 1]), ops[|ops| - 1]);
    }
  }

  // ---- heads move only under their token ----

  /** The swap of `refH` that `op` performs on `t`, if it wins: the token it presented and the new blob. */
  function HeadMove(t: Tables, op: StoreOp, refH: RefH): Option<(HeadToken, HeadBlob)> {
    match op
    case OpCas(r, expected, blob, _) =>
      if r == refH && HeadTokenOf(t, r) == expected then Some((expected, blob)) else None
    case OpBatch(b) =>
      if b.head.Some? && b.head.value.refH == refH && BatchWins(t, b)
      then Some((b.head.value.expectedOld, b.head.value.newBlob)) else None
    case _ => None
  }

  /** Every winning swap of `refH` in a run from an empty store, oldest first. */
  function Moves(ops: seq<StoreOp>, refH: RefH): seq<(HeadToken, HeadBlob)> {
    if ops == [] then []
    else
      var init := ops[..|ops| - 1];
      match HeadMove(After(EMPTY, init), ops[|ops| - 1], refH)
      case Some(m) => Moves(init, refH) + [m]
      case None => Moves(init, refH)
  }

  function Latest(moves: seq<(HeadToken, HeadBlob)>): HeadToken {
    if moves == [] then NoHead else HeadOf(moves[|moves| - 1].1)
  }

  lemma HeadStep(t: Tables, op: StoreOp, refH: RefH)
    ensures HeadTokenOf(Do(t, op), refH) ==
            match HeadMove(t, op, refH) case Some(m) => HeadOf(m.1) case None => HeadTokenOf(t, refH)
    ensures HeadMove(t, op, refH).Some? ==> HeadMove(t, op, refH).value.0 == HeadTokenOf(t, refH)
  {
  }

  /** The winning swaps of a ref form one chain: each presented exactly the head the previous one left. */
  lemma {:induction false} HeadsFormAChain(ops: seq<StoreOp>, refH: RefH)
    ensures HeadTokenOf(After(EMPTY, ops), refH) == Latest(Moves(ops, refH))
    ensures forall k :: 0 <= k < |Moves(ops, refH)| ==>
              Moves(ops, refH)[k].0 == Latest(Moves(ops, refH)[..k])
  {
    hide Do, HeadMove, HeadTokenOf;
    if ops == [] {
      assert HeadTokenOf(EMPTY, refH) == NoHead by { HeadAbsent(refH); }
    } else {
      var init := ops[..|ops| - 1];
      var t := After(EMPTY, init);
      var ms := Moves(init, refH);
      HeadsFormAChain(init, refH);
      HeadStep(t, ops[|ops| - 1], refH);
      if HeadMove(t, ops[|ops| - 1], refH).Some? {
        var all := ms + [HeadMove(t, ops[|ops| - 1], refH).value];
        forall k | 0 <= k < |all| ensures all[k].0 == Latest(all[..k]) {
          assert all[..k] == ms[..k];
          assert ms[..|ms|] == ms;
        }
      }
    }
  }

  lemma HeadAbsent(refH: RefH)
    ensures HeadTokenOf(EMPTY, refH) == NoHead
  {
  }

  // ---- staged blobs are unreadable until their push wins ----

  ghost predicate StagedAt(ops: seq<StoreOp>, i: nat, p: PushId, id: Id, blob: ObjBlob) {
    i < |ops| && ops[i].OpStage? && ops[i].p == p && ops[i].id == id && ops[i].blob == blob
  }

  /** `ops[j]` is a `cas-head` promoting `p` whose token matched. */
  ghost predicate WonAt(ops: seq<StoreOp>, j: nat, p: PushId) {
    && j < |ops| && ops[j].OpCas? && ops[j].p == p
    && HeadTokenOf(After(EMPTY, ops[..j]), ops[j].refH) == ops[j].expectedOld
  }

  /** A staged blob was staged by this step or already staged before it. */
  lemma StagingStep(t: Tables, op: StoreOp, p: PushId, id: Id)
    requires (p, id) in Do(t, op).staging
    ensures (op.OpStage? && op.p == p && op.id == id && op.blob == Do(t, op).staging[(p, id)])
            || ((p, id) in t.staging && t.staging[(p, id)] == Do(t, op).staging[(p, id)])
  {
  }

  /** A readable blob was readable before, or this step is a winning swap promoting it from staging. */
  lemma ObjectStep(t: Tables, op: StoreOp, id: Id)
    requires id in Do(t, op).objects
    ensures (id in t.objects && t.objects[id] == Do(t, op).objects[id])
            || (op.OpCas? && HeadTokenOf(t, op.refH) == op.expectedOld
                && (op.p, id) in t.staging && t.staging[(op.p, id)] == Do(t, op).objects[id])
  {
    hide Do, Promoted, HeadTokenOf;
    ObjectsAfter(t, op);
    if op.OpCas? {
      PromotedFrom(t, op.p, id);
    }
  }

  /** The one table a step's effect on objects depends on. */
  lemma ObjectsAfter(t: Tables, op: StoreOp)
    ensures op.OpCas? ==>
              Do(t, op).objects == if HeadTokenOf(t, op.refH) == op.expectedOld then Promoted(t, op.p) else t.objects
    ensures op.OpPrune? ==> Do(t, op).objects == t.objects || Do(t, op).objects == t.objects - op.dead
    ensures !op.OpCas? && !op.OpPrune? ==> Do(t, op).objects == t.objects
  {
    hide Appended, WriteSlots, SlotsKept, Batched, BatchWins, Promoted, HeadTokenOf, Idle;
    if op.OpBatch? {
      BatchKeepsObjects(t, op.b);
    } else if op.OpReclaim? {
      ReclaimKeepsObjects(t, op.now, op.ttl);
    }
  }

  lemma ReclaimKeepsObjects(t: Tables, now: nat, ttl: nat)
    ensures Reclaim(t, now, ttl).objects == t.objects
  {
    hide Idle;
  }

  lemma PromotedFrom(t: Tables, p: PushId, id: Id)
    ensures id in Promoted(t, p) && id !in t.objects ==>
            (p, id) in t.staging && t.staging[(p, id)] == Promoted(t, p)[id]
    ensures id in t.objects ==> id in Promoted(t, p) && Promoted(t, p)[id] == t.objects[id]
  {
  }

  lemma BatchKeepsObjects(t: Tables, b: RosterBatch)
    ensures ApplyBatch(t, b).objects == t.objects
  {
    hide Appended, WriteSlots, SlotsKept, BatchWins;
  }

  lemma {:induction false} StagingProvenance(ops: seq<StoreOp>, p: PushId, id: Id) returns (i: nat)
    requires (p, id) in After(EMPTY, ops).staging
    ensures StagedAt(ops, i, p, id, After(EMPTY, ops).staging[(p, id)])
  {
    hide Do;
    var n := |ops| - 1;
    var t := After(EMPTY, ops[..n]);
    StagingStep(t, ops[n], p, id);
    if (p, id) in t.staging && t.staging[(p, id)] == After(EMPTY, ops).staging[(p, id)] {
      i := StagingProvenance(ops[..n], p, id);
    } else {
      i := n;
    }
  }

  /** Every readable object was staged by a push and became readable when that push won its swap. */
  lemma {:induction false} DurableProvenance(ops: seq<StoreOp>, id: Id) returns (p: PushId, i: nat, j: nat)
    requires id in After(EMPTY, ops).objects
    ensures i < j && StagedAt(ops, i, p, id, After(EMPTY, ops).objects[id]) && WonAt(ops, j, p)
  {
    hide Do, HeadTokenOf;
    var n := |ops| - 1;
    var t := After(EMPTY, ops[..n]);
    ObjectStep(t, ops[n], id);
    if id in t.objects && t.objects[id] == After(EMPTY, ops).objects[id] {
      p, i, j := DurableProvenance(ops[..n], id);
      assert ops[..n][..j] == ops[..j];
    } else {
      p, j := ops[n].p, n;
      i := StagingProvenance(ops[..n], p, id);
    }
  }

  // ---- keyslots ----

  ghost predicate Writes(ws: seq<KeyslotWrite>, d: DeviceId, gen: nat) {
    exists i :: 0 <= i < |ws| && ws[i].device == d && ws[i].gen == gen
  }

  lemma {:induction false} WriteSlotsKeys(slots: map<(DeviceId, nat), Slot>, ws: seq<KeyslotWrite>, d: DeviceId,
                                          gen: nat)
    ensures (d, gen) in WriteSlots(slots, ws) <==> Writes(ws, d, gen) || (d, gen) in slots
    ensures !Writes(ws, d, gen) && (d, gen) in slots ==> WriteSlots(slots, ws)[(d, gen)] == slots[(d, gen)]
    ensures Writes(ws, d, gen) ==> exists i :: 0 <= i < |ws| && ws[i].device == d && ws[i].gen == gen
                                               && WriteSlots(slots, ws)[(d, gen)] == ws[i].slot
  {
    if ws != [] {
      var n := |ws| - 1;
      WriteSlotsKeys(slots, ws[..n], d, gen);
      assert Writes(ws[..n], d, gen) ==> Writes(ws, d, gen);
      if ws[n].device == d && ws[n].gen == gen {
        assert Writes(ws, d, gen);
      } else if Writes(ws[..n], d, gen) {
        var i :| 0 <= i < n && ws[..n][i].device == d && ws[..n][i].gen == gen
                 && WriteSlots(slots, ws[..n])[(d, gen)] == ws[..n][i].slot;
        assert ws[i].device == d && ws[i].gen == gen && WriteSlots(slots, ws)[(d, gen)] == ws[i].slot;
      } else if Writes(ws, d, gen) {
        assert false;
      }
    }
  }

  /**
   A winning batch past genesis deletes exactly the revoked devices' keyslots, except those it
   writes itself, and leaves every other device's slots alone; genesis keeps only its own.
   */
  lemma RevokeClearsExactly(t: Tables, b: RosterBatch, d: DeviceId, gen: nat)
    requires BatchWins(t, b)
    ensures (d, gen) in ApplyBatch(t, b).keyslots <==>
              Writes(b.keyslots, d, gen) || (|t.roster| > 0 && d !in b.revoke && (d, gen) in t.keyslots)
    ensures !Writes(b.keyslots, d, gen) && (d, gen) in ApplyBatch(t, b).keyslots ==>
              ApplyBatch(t, b).keyslots[(d, gen)] == t.keyslots[(d, gen)]
  {
    WriteSlotsKeys(SlotsKept(t, b), b.keyslots, d, gen);
  }

  // ---- key-history wraps are fixed once passed ----

  /** The generation of what `op` appends never falls below the tip's. */
  ghost predicate GensUp(t: Tables, op: StoreOp) {
    op.OpBatch? && BatchWins(t, op.b) && op.b.entries != [] ==>
      var last := FrameGen(op.b.entries[|op.b.entries| - 1]);
      last.Some? && (TipGen(t).Some? ==> TipGen(t).value <= last.value)
  }

  ghost predicate RunGensUp(t: Tables, ops: seq<StoreOp>) {
    forall i :: 0 <= i < |ops| ==> GensUp(After(t, ops[..i]), ops[i])
  }

  ghost predicate Passed(t: Tables, g: nat) {
    TipGen(t).Some? && g < TipGen(t).value
  }

  lemma StepKeepsWraps(t: Tables, op: StoreOp, g: nat)
    requires Dense(t.roster) && GensUp(t, op) && Passed(t, g)
    ensures Passed(Do(t, op), g)
    ensures g in t.keyhist ==> g in Do(t, op).keyhist && Do(t, op).keyhist[g] == t.keyhist[g]
    ensures g in t.rosterKeyhist ==>
              g in Do(t, op).rosterKeyhist && Do(t, op).rosterKeyhist[g] == t.rosterKeyhist[g]
  {
    if op.OpBatch? {
      BatchKeepsWraps(t, op.b, g);
    } else {
      hide Appended, WriteSlots;
    }
  }

  lemma BatchKeepsWraps(t: Tables, b: RosterBatch, g: nat)
    requires Dense(t.roster) && GensUp(t, OpBatch(b)) && Passed(t, g)
    ensures Passed(ApplyBatch(t, b), g)
    ensures g in t.keyhist ==> g in ApplyBatch(t, b).keyhist && ApplyBatch(t, b).keyhist[g] == t.keyhist[g]
    ensures g in t.rosterKeyhist ==>
              g in ApplyBatch(t, b).rosterKeyhist && ApplyBatch(t, b).rosterKeyhist[g] == t.rosterKeyhist[g]
  {
    if BatchWins(t, b) {
      hide BatchWins;
      BatchTip(t, b);
      WrapsKept(t, b, g);
    }
  }

  /** After a winning batch the tip is its last entry, or the old tip if it appends none. */
  lemma BatchTip(t: Tables, b: RosterBatch)
    requires Dense(t.roster) && BatchWins(t, b)
    ensures b.entries == [] ==> TipGen(ApplyBatch(t, b)) == TipGen(t)
    ensures b.entries != [] ==> TipGen(ApplyBatch(t, b)) == FrameGen(b.entries[|b.entries| - 1])
  {
    hide WriteSlots, SlotsKept, BatchWins, Dense;
    var (es, after) := (b.entries, ApplyBatch(t, b));
    AppendedDense(t.roster, es);
    assert after.roster == Appended(t.roster, es);
    if es != [] {
      hide Appended;
      assert after.roster[|t.roster| + (|es| - 1)] == es[|es| - 1];
    }
  }

  lemma WrapsKept(t: Tables, b: RosterBatch, g: nat)
    requires BatchWins(t, b) && Passed(t, g)
    ensures g in t.keyhist ==> g in ApplyBatch(t, b).keyhist && ApplyBatch(t, b).keyhist[g] == t.keyhist[g]
    ensures g in t.rosterKeyhist ==>
              g in ApplyBatch(t, b).rosterKeyhist && ApplyBatch(t, b).rosterKeyhist[g] == t.rosterKeyhist[g]
  {
    hide Appended, WriteSlots, SlotsKept;
  }

  /** Once the tip has passed generation `g`, the stored wraps of `g` never change again. */
  lemma {:induction false} WrapsFixed(t: Tables, ops: seq<StoreOp>, g: nat)
    requires Dense(t.roster) && RunGensUp(t, ops) && Passed(t, g)
    ensures Passed(After(t, ops), g)
    ensures g in t.keyhist ==> g in After(t, ops).keyhist && After(t, ops).keyhist[g] == t.keyhist[g]
    ensures g in t.rosterKeyhist ==>
              g in After(t, ops).rosterKeyhist && After(t, ops).rosterKeyhist[g] == t.rosterKeyhist[g]
  {
    if ops != [] {
      hide Do, RunGensUp, GensUp, Passed, Dense;
      var n := |ops| - 1;
      GensUpSplit(t, ops);
      WrapsFixed(t, ops[..n], g);
      RosterAppendOnly(t, ops[..n]);
      StepKeepsWraps(After(t, ops[..n]), ops[n], g);
    }
  }

  lemma GensUpSplit(t: Tables, ops: seq<StoreOp>)
    requires ops != [] && RunGensUp(t, ops)
    ensures RunGensUp(t, ops[..|ops| - 1]) && GensUp(After(t, ops[..|ops| - 1]), ops[|ops| - 1])
  {
    hide Do, GensUp;
    var n := |ops| - 1;
    forall i | 0 <= i < n ensures GensUp(After(t, ops[..n][..i]), ops[..n][i]) {
      assert ops[..n][..i] == ops[..i];
    }
  }
}
