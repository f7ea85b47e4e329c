/**
 The server's transactional store. `Tables` is the value of the database between transactions;
 each operation is a function from tables to tables, and class `Store` performs it step by step.
 */
module StoreModel {
  import opened Prelude
  import opened Objects
  import opened Sigchain

  type PushId = nat
  type RefH = nat

  datatype KeyslotWrite = KeyslotWrite(device: DeviceId, gen: nat, slot: Slot)

  datatype HeadSwap = HeadSwap(refH: RefH, expectedOld: HeadToken, newBlob: HeadBlob)

  /**
   A request to append entries together with slot, wrap, revocation and head changes; `BatchWins`
   decides on all of it.
   */
  datatype RosterBatch = RosterBatch(
    expectedTip: TipToken,
    entries: seq<SealedEntry>,
    keyslots: seq<KeyslotWrite>,
    keyhist: Option<(nat, DataWrap)>,
    rosterKeyhist: Option<(nat, RosterWrap)>,
    revoke: seq<DeviceId>,
    head: Option<HeadSwap>)

  datatype CasOutcome = CasOutcome(swapped: bool, promotedBytes: nat)

  datatype Tables = Tables(
    objects: map<Id, ObjBlob>,
    staging: map<(PushId, Id), ObjBlob>,
    meta: map<PushId, nat>,
    keyslots: map<(DeviceId, nat), Slot>,
    refs: map<RefH, HeadBlob>,
    roster: map<nat, SealedEntry>,
    rosterKeyhist: map<nat, RosterWrap>,
    keyhist: map<nat, DataWrap>)

  const EMPTY := Tables(map[], map[], map[], map[], map[], map[], map[], map[])

  // ---- heads and staging ----

  function HeadTokenOf(t: Tables, refH: RefH): HeadToken {
    if refH in t.refs then HeadOf(t.refs[refH]) else NoHead
  }

  /** The ids staged under one push. */
  function Staged(t: Tables, p: PushId): set<Id> {
    set k | k in t.staging && k.0 == p :: k.1
  }

  /** The staged ids a promote would newly make durable. */
  function Fresh(t: Tables, p: PushId): set<Id> {
    set k | k in t.staging && k.0 == p && k.1 !in t.objects :: k.1
  }

  function StagedLen(t: Tables, p: PushId): Id -> nat {
    id => if (p, id) in t.staging then t.staging[(p, id)].len else 0
  }

  /** The bytes a promote of `p` would add. */
  ghost function FreshBytes(t: Tables, p: PushId): nat {
    Sum(Fresh(t, p), StagedLen(t, p))
  }

  /** All staging keys of every push in `ps` removed, with their activity clocks. */
  function DropPushes(t: Tables, ps: set<PushId>): Tables {
    t.(staging := map k | k in t.staging && k.0 !in ps :: t.staging[k],
       meta := t.meta - ps)
  }

  function Promoted(t: Tables, p: PushId): map<Id, ObjBlob> {
    map id | id in t.objects.Keys + Fresh(t, p) ::
      if id in t.objects then t.objects[id] else t.staging[(p, id)]
  }

  /** The tables after a `cas-head` whose token matched. */
  function Swapped(t: Tables, refH: RefH, newBlob: HeadBlob, p: PushId): Tables {
    DropPushes(t, {p}).(objects := Promoted(t, p), refs := t.refs[refH := newBlob])
  }

  function CasRef(t: Tables, refH: RefH, expectedOld: HeadToken, newBlob: HeadBlob, p: PushId): Tables {
    if HeadTokenOf(t, refH) == expectedOld then Swapped(t, refH, newBlob, p) else t
  }

  function Stage(t: Tables, p: PushId, id: Id, blob: ObjBlob, now: nat): Tables {
    t.(staging := t.staging[(p, id) := blob], meta := t.meta[p := now])
  }

  /** The pushes `reclaim_staging` drops at `now`. */
  function Idle(t: Tables, now: nat, ttl: nat): set<PushId> {
    set p | p in t.meta && t.meta[p] <= SatSub(now, ttl)
  }

  function Reclaim(t: Tables, now: nat, ttl: nat): Tables {
    DropPushes(t, Idle(t, now, ttl))
  }

  /** A prune whose claim was accepted inside its own transaction. */
  function Prune(t: Tables, dead: set<Id>, accepted: bool): Tables {
    if accepted then t.(objects := t.objects - dead) else t
  }

  // ---- roster batches ----

  function TipTokenOf(t: Tables): TipToken {
    if |t.roster| > 0 && |t.roster| - 1 in t.roster then Tip(t.roster[|t.roster| - 1]) else NoTip
  }

  function TipGen(t: Tables): Option<nat> {
    if |t.roster| > 0 && |t.roster| - 1 in t.roster then FrameGen(t.roster[|t.roster| - 1]) else None
  }

  /** A wrap slot is writable while empty, or while the tip is still at its generation. */
  predicate WrapFree(t: Tables, present: bool, g: nat) {
    !present || TipGen(t) == Some(g)
  }

  predicate BatchWins(t: Tables, b: RosterBatch) {
    && TipTokenOf(t) == b.expectedTip
    && (b.head.Some? ==> HeadTokenOf(t, b.head.value.refH) == b.head.value.expectedOld)
    && (b.keyhist.Some? ==> WrapFree(t, b.keyhist.value.0 in t.keyhist, b.keyhist.value.0))
    && (b.rosterKeyhist.Some? ==>
          WrapFree(t, b.rosterKeyhist.value.0 in t.rosterKeyhist, b.rosterKeyhist.value.0))
  }

  /** Entries land at the current length and up. */
  function Appended(roster: map<nat, SealedEntry>, entries: seq<SealedEntry>): map<nat, SealedEntry> {
    if entries == [] then roster
    else
      Appended(roster, entries[..|entries| - 1])[|roster| + |entries| - 1 := entries[|entries| - 1]]
  }

  /** Later writes of one batch win. */
  function WriteSlots(slots: map<(DeviceId, nat), Slot>, ws: seq<KeyslotWrite>): map<(DeviceId, nat), Slot> {
    if ws == [] then slots
    else
      var w := ws[|ws| - 1];
      WriteSlots(slots, ws[..|ws| - 1])[(w.device, w.gen) := w.slot]
  }

  /** The slots surviving a batch's deletions; genesis clears everything squatted before it. */
  function SlotsKept(t: Tables, b: RosterBatch): map<(DeviceId, nat), Slot> {
    if |t.roster| == 0 then map[]
    else map k | k in t.keyslots && k.0 !in b.revoke :: t.keyslots[k]
  }

  function Batched(t: Tables, b: RosterBatch): Tables {
    t.(roster := Appended(t.roster, b.entries),
       keyslots := WriteSlots(SlotsKept(t, b), b.keyslots),
       keyhist := if b.keyhist.Some? then t.keyhist[b.keyhist.value.0 := b.keyhist.value.1] else t.keyhist,
       rosterKeyhist := if b.rosterKeyhist.Some?
                        then t.rosterKeyhist[b.rosterKeyhist.value.0 := b.rosterKeyhist.value.1]
                        else t.rosterKeyhist,
       refs := if b.head.Some? then t.refs[b.head.value.refH := b.head.value.newBlob] else t.refs)
  }

  function ApplyBatch(t: Tables, b: RosterBatch): Tables {
    if BatchWins(t, b) then Batched(t, b) else t
  }

  // ---- the step-by-step store ----

  class Store {
    var t: Tables

    constructor ()
      ensures t == EMPTY
    {
      t := EMPTY;
    }

    /** Stage a blob, also when it is already durable, and refresh the push's clock. */
    method StageBlob(p: PushId, id: Id, blob: ObjBlob, now: nat)
      modifies this
      ensures t == Stage(old(t), p, id, blob, now)
    {
      var staging := t.staging[(p, id) := blob];
      var meta := t.meta[p := now];
      t := t.(staging := staging, meta := meta);
    }

    /** Sums the lengths that `Fresh` selects, so a promote at this point would add exactly that. */
    method StagedBytes(p: PushId) returns (total: nat)
      ensures total == FreshBytes(t, p)
    {
      total := 0;
      var todo := Staged(t, p);
      ghost var done: set<Id> := {};
      while todo != {}
        invariant todo !! done && todo + done == Staged(t, p)
        invariant total == Sum(Fresh(t, p) * done, StagedLen(t, p))
        decreases todo
      {
        var id :| id in todo;
        FreshStep(t, p, done, id);
        if id !in t.objects {
          total := total + t.staging[(p, id)].len;
        }
        done := done + {id};
        todo := todo - {id};
      }
      assert Fresh(t, p) * done == Fresh(t, p);
    }

    /** `cas_ref` as one step; a wrong token leaves the tables alone and reports no bytes. */
    method CasHead(refH: RefH, expectedOld: HeadToken, newBlob: HeadBlob, p: PushId) returns (o: CasOutcome)
      modifies this
      ensures t == CasRef(old(t), refH, expectedOld, newBlob, p)
      ensures o.swapped == (HeadTokenOf(old(t), refH) == expectedOld)
      ensures o.promotedBytes == if o.swapped then FreshBytes(old(t), p) else 0
    {
      if HeadTokenOf(t, refH) != expectedOld {
        return CasOutcome(false, 0);
      }
      var objects, bytes := PromoteObjects(p);
      var staging := map k | k in t.staging && k.0 != p :: t.staging[k];
      assert staging == DropPushes(t, {p}).staging;
      t := t.(objects := objects, staging := staging, meta := t.meta - {p}, refs := t.refs[refH := newBlob]);
      o := CasOutcome(true, bytes);
    }

    /** The promote loop: first write wins, and only new bytes are charged. */
    method PromoteObjects(p: PushId) returns (objects: map<Id, ObjBlob>, bytes: nat)
      ensures objects == Promoted(t, p)
      ensures bytes == FreshBytes(t, p)
    {
      hide Sum, StagedLen, Fresh, Staged;
      objects := t.objects;
      bytes := 0;
      var todo := Staged(t, p);
      ghost var done: set<Id> := {};
      StagedKeys(t, p);
      NoneDone(t, p);
      while todo != {}
        invariant todo !! done && todo + done == Staged(t, p)
        invariant objects.Keys == t.objects.Keys + done
        invariant forall id :: id in t.objects ==> objects[id] == t.objects[id]
        invariant forall id :: id in done && id !in t.objects ==>
                (p, id) in t.staging && objects[id] == t.staging[(p, id)]
        invariant bytes == Sum(Fresh(t, p) * done, StagedLen(t, p))
        decreases todo
      {
        var id :| id in todo;
        FreshStep(t, p, done, id);
        if id !in objects {
          objects := objects[id := t.staging[(p, id)]];
          bytes := bytes + t.staging[(p, id)].len;
        }
        done := done + {id};
        todo := todo - {id};
      }
      assert done == Staged(t, p);
      PromotedIs(t, p, objects);
    }

    /** `reclaim_staging`: one idle push after the other; objects and refs do not change. */
    method ReclaimStaging(now: nat, ttl: nat) returns (reclaimed: nat)
      modifies this
      ensures t == Reclaim(old(t), now, ttl)
      ensures reclaimed == |Idle(old(t), now, ttl)|
    {
      hide DropPushes;
      DropNone(t);
      var cutoff := SatSub(now, ttl);
      var idle := set p | p in t.meta && t.meta[p] <= cutoff;
      var todo, gone: set<PushId> := idle, {};
      reclaimed := 0;
      while todo != {}
        invariant todo !! gone && todo + gone == idle
        invariant t == DropPushes(old(t), gone)
        invariant reclaimed == |gone|
        decreases todo
      {
        var p :| p in todo;
        DropOne(old(t), gone, p);
        t := t.(staging := map k | k in t.staging && k.0 != p :: t.staging[k], meta := t.meta - {p});
        gone := gone + {p};
        todo := todo - {p};
        reclaimed := reclaimed + 1;
      }
      assert gone == idle;
    }

    /** Delete `dead` only if the caller's claim about heads and roster still describes the store. */
    method PruneIf(dead: seq<Id>, refs: map<RefH, HeadBlob>, rosterLen: nat) returns (matched: bool)
      modifies this
      ensures matched == (old(t).refs == refs && |old(t).roster| == rosterLen)
      ensures t == Prune(old(t), (set id | id in dead), matched)
      ensures forall id :: id in t.objects <==> id in old(t).objects && !(matched && id in dead)
    {
      matched := t.refs == refs && |t.roster| == rosterLen;
      if matched {
        var objects := RemoveIds(t.objects, dead);
        t := t.(objects := objects);
      }
    }

    /** One sigchain operation in one transaction; `Some(first seq)` when every CAS held. */
    method ApplyRosterBatch(b: RosterBatch) returns (first: Option<nat>)
      modifies this
      ensures t == ApplyBatch(old(t), b)
      ensures first == if BatchWins(old(t), b) then Some(|old(t).roster|) else None
    {
      if !BatchWins(t, b) {
        return None;
      }
      var count := |t.roster|;
      var slots := t.keyslots;
      if count == 0 {
        slots := map[];
      }
      var roster := AppendEntries(b.entries);
      slots := ClearRevoked(slots, b.revoke);
      assert slots == SlotsKept(t, b);
      slots := InsertSlots(slots, b.keyslots);
      var keyhist, rkh, refs := t.keyhist, t.rosterKeyhist, t.refs;
      if b.keyhist.Some? {
        keyhist := keyhist[b.keyhist.value.0 := b.keyhist.value.1];
      }
      if b.rosterKeyhist.Some? {
        rkh := rkh[b.rosterKeyhist.value.0 := b.rosterKeyhist.value.1];
      }
      if b.head.Some? {
        refs := refs[b.head.value.refH := b.head.value.newBlob];
      }
      t := t.(roster := roster, keyslots := slots, keyhist := keyhist, rosterKeyhist := rkh, refs := refs);
      first := Some(count);
    }

    method AppendEntries(entries: seq<SealedEntry>) returns (roster: map<nat, SealedEntry>)
      ensures roster == Appended(t.roster, entries)
    {
      roster := t.roster;
      for i := 0 to |entries|
        invariant roster == Appended(t.roster, entries[..i])
      {
        roster := roster[|t.roster| + i := entries[i]];
        assert entries[..i + 1][..i] == entries[..i];
      }
      assert entries[..|entries|] == entries;
    }
  }

  lemma StagedKeys(t: Tables, p: PushId)
    ensures forall id :: id in Staged(t, p) ==> (p, id) in t.staging
  {
  }

  lemma NoneDone(t: Tables, p: PushId)
    ensures Sum(Fresh(t, p) * {}, StagedLen(t, p)) == 0
  {
  }

  lemma PromotedIs(t: Tables, p: PushId, objects: map<Id, ObjBlob>)
    requires objects.Keys == t.objects.Keys + Staged(t, p)
    requires forall id :: id in t.objects ==> objects[id] == t.objects[id]
    requires forall id :: id in Staged(t, p) && id !in t.objects ==>
            (p, id) in t.staging && objects[id] == t.staging[(p, id)]
    ensures objects == Promoted(t, p) && Fresh(t, p) * Staged(t, p) == Fresh(t, p)
  {
    assert t.objects.Keys + Staged(t, p) == t.objects.Keys + Fresh(t, p);
  }

  lemma DropNone(t: Tables)
    ensures DropPushes(t, {}) == t
  {
    assert DropPushes(t, {}).staging == t.staging && t.meta - {} == t.meta;
  }

  lemma DropOne(t: Tables, gone: set<PushId>, p: PushId)
    ensures var s := DropPushes(t, gone);
            s.(staging := map k | k in s.staging && k.0 != p :: s.staging[k], meta := s.meta - {p}) ==
              DropPushes(t, gone + {p})
  {
    var s := DropPushes(t, gone);
    assert (map k | k in s.staging && k.0 != p :: s.staging[k]) == DropPushes(t, gone + {p}).staging;
    assert s.meta - {p} == t.meta - (gone + {p});
  }

  /** One more staged id adds its length exactly when it was not durable. */
  lemma FreshStep(t: Tables, p: PushId, done: set<Id>, id: Id)
    requires id in Staged(t, p) && id !in done
    ensures Sum(Fresh(t, p) * (done + {id}), StagedLen(t, p)) ==
            Sum(Fresh(t, p) * done, StagedLen(t, p)) + if id in t.objects then 0 else t.staging[(p, id)].len
  {
    assert (p, id) in t.staging;
    if id in t.objects {
      assert Fresh(t, p) * (done + {id}) == Fresh(t, p) * done;
    } else {
      assert id in Fresh(t, p);
      SumTakes(Fresh(t, p) * (done + {id}), StagedLen(t, p), id);
      assert Fresh(t, p) * (done + {id}) - {id} == Fresh(t, p) * done;
    }
  }

  method RemoveIds(start: map<Id, ObjBlob>, dead: seq<Id>) returns (objects: map<Id, ObjBlob>)
    ensures objects == start - (set id | id in dead)
  {
    objects := start;
    for i := 0 to |dead|
      invariant objects.Keys == start.Keys - (set id | id in dead[..i])
      invariant forall id :: id in objects ==> objects[id] == start[id]
    {
      objects := objects - {dead[i]};
    }
  }

  method ClearRevoked(start: map<(DeviceId, nat), Slot>, revoke: seq<DeviceId>)
    returns (slots: map<(DeviceId, nat), Slot>)
    ensures slots == map k | k in start && k.0 !in revoke :: start[k]
  {
    slots := start;
    for i := 0 to |revoke|
      invariant slots == map k | k in start && k.0 !in revoke[..i] :: start[k]
    {
      var gone := set k | k in slots && k.0 == revoke[i];
      slots := slots - gone;
      assert revoke[..i + 1] == revoke[..i] + [revoke[i]];
    }
    assert revoke[..|revoke|] == revoke;
  }

  method InsertSlots(start: map<(DeviceId, nat), Slot>, ws: seq<KeyslotWrite>)
    returns (slots: map<(DeviceId, nat), Slot>)
    ensures slots == WriteSlots(start, ws)
  {
    slots := start;
    for i := 0 to |ws|
      invariant slots == WriteSlots(start, ws[..i])
    {
      slots := slots[(ws[i].device, ws[i].gen) := ws[i].slot];
      assert ws[..i + 1][..i] == ws[..i];
    }
    assert ws[..|ws|] == ws;
  }
}
