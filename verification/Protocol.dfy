/**
 Pushes, swaps, prunes, staging reclaim and roster batches, issued by any number of clients in any
 order against one store. Two assumptions are explicit: clients run this code, and each step of a
 push comes within the staging TTL of the push's previous one.
 */
module Protocol {
  import opened Prelude
  import opened Objects
  import opened Sigchain
  import opened StoreModel
  import Push
  import Fetch
  import Retention

  /** An in-flight push: what it read, what it stages in which order, and how far it got. */
  datatype InFlight = InFlight(refH: RefH, seen: Option<HeadBlob>, target: CommitId,
                               want: seq<(Id, bool)>, next: nat, last: nat)

  /** A retention pass: the head and roster length it read and the chunks it found dead. */
  datatype Claim = Claim(refH: RefH, blob: HeadBlob, rosterLen: nat, dead: set<ChunkId>)

  datatype System = System(t: Tables, clock: nat, ttl: nat, pushes: map<PushId, InFlight>, claims: map<nat, Claim>)

  datatype Action =
    | Tick(dt: nat)
    | Begin(p: PushId, refH: RefH, target: CommitId, want: seq<(Id, bool)>)
    | StageNext(p: PushId, held: bool, len: nat)
    | Swap(p: PushId, blob: HeadBlob)
    | Abandon(p: PushId)
    | ReclaimIdle
    | StartPrune(k: nat, refH: RefH, local: set<Id>, order: seq<CommitId>, keep: nat, dead: set<ChunkId>,
                 rosterLen: nat)
    | FirePrune(k: nat, batch: set<Id>)
    | Batch(b: RosterBatch)

  function Seen(t: Tables, refH: RefH): Option<HeadBlob> {
    if refH in t.refs then Some(t.refs[refH]) else None
  }

  function CommitOf(h: Option<HeadBlob>): Option<CommitId> {
    if h.Some? then Some(h.value.commit) else None
  }

  function TokenOf(h: Option<HeadBlob>): HeadToken {
    if h.Some? then HeadOf(h.value) else NoHead
  }

  function Marked(want: seq<(Id, bool)>, required: bool): set<Id> {
    set w | w in want && w.1 == required :: w.0
  }

  /** What `push_objects` plans, in whatever order it lists it. */
  ghost predicate Planned(want: seq<(Id, bool)>, target: CommitId, remote: Option<CommitId>) {
    Marked(want, true) == Push.Required(target, remote) && Marked(want, false) == Push.Optional(target, remote)
  }

  /** The push has staged nothing yet, or its last stage is younger than the TTL. */
  predicate Timely(s: System, p: PushId)
    requires p in s.pushes
  {
    s.pushes[p].next == 0 || s.clock < s.pushes[p].last + s.ttl
  }

  function LocalTrees(objs: set<Id>): set<TreeId> {
    set x | x in objs && x.TreeObj? :: x.tree
  }

  /** A revoke-time head swap re-signs the commit its token names. */
  predicate Resigns(b: RosterBatch) {
    b.head.Some? ==>
      b.head.value.expectedOld.HeadOf? && b.head.value.newBlob.commit == b.head.value.expectedOld.blob.commit
  }

  ghost predicate Enabled(s: System, a: Action) {
    match a
    case Tick(_) => true
    case Begin(p, refH, target, want) =>
      && p !in s.pushes && p !in s.t.meta && Staged(s.t, p) == {}
      && Planned(want, target, CommitOf(Seen(s.t, refH)))
    case StageNext(p, _, _) => p in s.pushes && s.pushes[p].next < |s.pushes[p].want| && Timely(s, p)
    case Swap(p, blob) =>
      && p in s.pushes && s.pushes[p].next == |s.pushes[p].want| && Timely(s, p)
      && blob.commit == s.pushes[p].target
    case Abandon(p) => true
    case ReclaimIdle => true
    case StartPrune(k, refH, local, order, keep, dead, _) =>
      && refH in s.t.refs && k !in s.claims
      && Fetch.TreesClosed(local) && TreeObj(s.t.refs[refH].commit.root) in local
      && forall c :: c in dead <==> Retention.IsDead(LocalTrees(local), s.t.refs[refH].commit, order, keep, c)
    case FirePrune(k, batch) =>
      k in s.claims && forall id :: id in batch ==> id.ChunkObj? && id.chunk in s.claims[k].dead
    case Batch(b) => Resigns(b)
  }

  /** A required object missing locally aborts the push; an optional one is skipped. */
  function StageStep(s: System, p: PushId, held: bool, len: nat): System
    requires p in s.pushes && s.pushes[p].next < |s.pushes[p].want|
  {
    var x := s.pushes[p];
    var (id, required) := x.want[x.next];
    if held then
      s.(t := Stage(s.t, p, id, ObjBlob(Some(id), len), s.clock),
         pushes := s.pushes[p := x.(next := x.next + 1, last := s.clock)])
    else if required then s.(pushes := s.pushes - {p})
    else s.(pushes := s.pushes[p := x.(next := x.next + 1)])
  }

  ghost function Next(s: System, a: Action): System {
    if !Enabled(s, a) then s
    else
      match a
      case Tick(dt) => s.(clock := s.clock + dt)
      case Begin(p, refH, target, want) =>
        s.(pushes := s.pushes[p := InFlight(refH, Seen(s.t, refH), target, want, 0, s.clock)])
      case StageNext(p, held, len) => StageStep(s, p, held, len)
      case Swap(p, blob) =>
        s.(t := CasRef(s.t, s.pushes[p].refH, TokenOf(s.pushes[p].seen), blob, p), pushes := s.pushes - {p})
      case Abandon(p) => s.(pushes := s.pushes - {p})
      case ReclaimIdle => s.(t := Reclaim(s.t, s.clock, s.ttl))
      case StartPrune(k, refH, _, _, _, dead, rosterLen) =>
        s.(claims := s.claims[k := Claim(refH, s.t.refs[refH], rosterLen, dead)])
      case FirePrune(k, batch) =>
        var c := s.claims[k];
        s.(t := Prune(s.t, batch, s.t.refs == map[c.refH := c.blob] && |s.t.roster| == c.rosterLen))
      case Batch(b) => s.(t := ApplyBatch(s.t, b))
  }

  ghost function Run(s: System, actions: seq<Action>): System {
    if actions == [] then s else Next(Run(s, actions[..|actions| - 1]), actions[|actions| - 1])
  }

  ghost predicate Init(s: System) {
    s.t == EMPTY && s.clock > 0 && s.pushes == map[] && s.claims == map[]
  }

  // ---- the invariant ----

  /** Every head's whole history and content is durable. */
  ghost predicate HeadsDurable(t: Tables) {
    forall r :: r in t.refs ==> Needed(t.refs[r].commit) <= t.objects.Keys
  }

  /** Every stored or staged blob verifies against the id it is filed under. */
  ghost predicate Genuine(t: Tables) {
    && (forall id :: id in t.objects ==> t.objects[id].opens == Some(id))
    && (forall k :: k in t.staging ==> t.staging[k].opens == Some(k.1))
  }

  /** What a push staged so far is still staged, unless its TTL has already run out. */
  ghost predicate PushIntact(s: System, p: PushId)
    requires p in s.pushes
  {
    var x := s.pushes[p];
    && x.next <= |x.want| && 0 < x.last <= s.clock
    && (x.next == 0 ==> p !in s.t.meta)
    && (x.next > 0 && s.clock < x.last + s.ttl ==>
          && (p in s.t.meta ==> s.t.meta[p] == x.last)
          && forall i :: 0 <= i < x.next && x.want[i].1 ==> (p, x.want[i].0) in s.t.staging)
  }

  ghost predicate PushCovered(s: System, p: PushId)
    requires p in s.pushes
  {
    var x := s.pushes[p];
    Needed(x.target) <= (if x.seen.Some? then Needed(x.seen.value.commit) else {}) + Marked(x.want, true)
  }

  ghost predicate ClaimSafe(c: Claim) {
    forall d :: d in c.dead ==> ChunkObj(d) !in Needed(c.blob.commit)
  }

  /** A staged key always has its push's clock. */
  ghost predicate Clocked(t: Tables) {
    forall k :: k in t.staging ==> k.0 in t.meta
  }

  ghost predicate Inv(s: System) {
    && s.clock > 0
    && HeadsDurable(s.t) && Genuine(s.t) && Clocked(s.t)
    && (forall p :: p in s.pushes ==> PushIntact(s, p) && PushCovered(s, p))
    && (forall k :: k in s.claims ==> ClaimSafe(s.claims[k]))
  }

  // ---- every step keeps it ----

  lemma BeginKeeps(s: System, p: PushId, refH: RefH, target: CommitId, want: seq<(Id, bool)>)
    requires Inv(s) && Enabled(s, Begin(p, refH, target, want))
    ensures Inv(Next(s, Begin(p, refH, target, want)))
  {
    hide Needed, Push.Required, Push.Optional;
    var s' := Next(s, Begin(p, refH, target, want));
    Push.PlanCovers(target, CommitOf(Seen(s.t, refH)));
    forall q | q in s'.pushes ensures PushIntact(s', q) && PushCovered(s', q) {
      if q != p {
        assert PushIntact(s, q) && PushCovered(s, q);
      }
    }
  }

  lemma StageKeeps(s: System, p: PushId, held: bool, len: nat)
    requires Inv(s) && Enabled(s, StageNext(p, held, len))
    ensures Inv(StageStep(s, p, held, len))
  {
    hide Needed;
    var s' := StageStep(s, p, held, len);
    assert PushIntact(s, p) && PushCovered(s, p);
    forall q | q in s'.pushes ensures PushIntact(s', q) && PushCovered(s', q) {
      assert PushIntact(s, q) && PushCovered(s, q);
    }
  }

  /** At a winning swap everything the new head needs is durable or staged under the push. */
  lemma SwapCovers(s: System, p: PushId)
    requires Inv(s) && p in s.pushes && s.pushes[p].next == |s.pushes[p].want| && Timely(s, p)
    requires HeadTokenOf(s.t, s.pushes[p].refH) == TokenOf(s.pushes[p].seen)
    ensures Needed(s.pushes[p].target) <= Promoted(s.t, p).Keys
  {
    hide Needed;
    var x := s.pushes[p];
    assert PushIntact(s, p) && PushCovered(s, p);
    forall id | id in Needed(x.target) ensures id in Promoted(s.t, p) {
      if id in Marked(x.want, true) {
        var w :| w in x.want && w.1 && w.0 == id;
        var i :| 0 <= i < |x.want| && x.want[i] == w;
        assert (p, id) in s.t.staging;
        assert id in s.t.objects || id in Fresh(s.t, p);
      } else {
        assert x.seen.Some? && s.t.refs[x.refH] == x.seen.value;
      }
    }
  }

  lemma PromotedFacts(t: Tables, p: PushId)
    ensures t.objects.Keys <= Promoted(t, p).Keys
    ensures forall id :: id in Promoted(t, p) ==>
              (id in t.objects && Promoted(t, p)[id] == t.objects[id])
              || ((p, id) in t.staging && Promoted(t, p)[id] == t.staging[(p, id)])
  {
    assert forall id :: id in Fresh(t, p) ==> (p, id) in t.staging;
  }

  lemma SwapTables(t: Tables, refH: RefH, blob: HeadBlob, p: PushId)
    requires HeadsDurable(t) && Genuine(t) && Clocked(t) && Needed(blob.commit) <= Promoted(t, p).Keys
    ensures HeadsDurable(Swapped(t, refH, blob, p))
    ensures Genuine(Swapped(t, refH, blob, p)) && Clocked(Swapped(t, refH, blob, p))
  {
    hide Needed, Promoted;
    PromotedFacts(t, p);
    var t' := Swapped(t, refH, blob, p);
    forall r | r in t'.refs ensures Needed(t'.refs[r].commit) <= t'.objects.Keys {
      if r != refH {
        assert Needed(t.refs[r].commit) <= t.objects.Keys;
      }
    }
    forall id | id in t'.objects ensures t'.objects[id].opens == Some(id) {
      assert (p, id).1 == id;
    }
  }

  lemma SwapFrame(s: System, s': System, p: PushId, q: PushId)
    requires q in s.pushes && PushIntact(s, q) && PushCovered(s, q) && q != p
    requires s'.pushes == s.pushes - {p} && s'.clock == s.clock && s'.ttl == s.ttl
    requires forall k :: k in s.t.staging && k.0 != p ==> k in s'.t.staging
    requires (q in s.t.meta <==> q in s'.t.meta) && (q in s.t.meta ==> s'.t.meta[q] == s.t.meta[q])
    ensures PushIntact(s', q) && PushCovered(s', q)
  {
    hide Needed;
  }

  lemma SwapKeeps(s: System, p: PushId, blob: HeadBlob)
    requires Inv(s) && Enabled(s, Swap(p, blob))
    ensures Inv(Next(s, Swap(p, blob)))
  {
    hide Needed, PushIntact, PushCovered, Genuine, Clocked, HeadsDurable, Promoted;
    var x := s.pushes[p];
    var s' := Next(s, Swap(p, blob));
    if HeadTokenOf(s.t, x.refH) == TokenOf(x.seen) {
      SwapCovers(s, p);
      SwapTables(s.t, x.refH, blob, p);
    }
    forall q | q in s'.pushes ensures PushIntact(s', q) && PushCovered(s', q) {
      SwapFrame(s, s', p, q);
    }
  }

  lemma ReclaimKeeps(s: System)
    requires Inv(s)
    ensures Inv(s.(t := Reclaim(s.t, s.clock, s.ttl)))
  {
    hide Needed;
    var s' := s.(t := Reclaim(s.t, s.clock, s.ttl));
    forall q | q in s'.pushes ensures PushIntact(s', q) && PushCovered(s', q) {
      assert PushIntact(s, q) && PushCovered(s, q);
    }
  }

  lemma StartPruneKeeps(s: System, a: Action)
    requires Inv(s) && a.StartPrune? && Enabled(s, a)
    ensures Inv(Next(s, a))
  {
    hide Needed, TreeClosure, Retention.IsDead, PushIntact, PushCovered;
    var s' := Next(s, a);
    var head := s.t.refs[a.refH].commit;
    Fetch.StoredTrees(a.local, head.root);
    forall d | d in a.dead ensures ChunkObj(d) !in Needed(head) {
      Retention.DeadAvoidsHead(LocalTrees(a.local), head, a.order, a.keep, d);
    }
    forall q | q in s'.pushes ensures PushIntact(s', q) && PushCovered(s', q) {
      PushFrame(s, s', q);
    }
  }

  lemma PushFrame(s: System, s': System, q: PushId)
    requires q in s.pushes && PushIntact(s, q) && PushCovered(s, q)
    requires s'.pushes == s.pushes && s'.clock == s.clock && s'.ttl == s.ttl
    requires s'.t.staging == s.t.staging && s'.t.meta == s.t.meta
    ensures PushIntact(s', q) && PushCovered(s', q)
  {
  }

  /** A prune fires only against the one head its dead set was computed from. */
  lemma PruneSpares(t: Tables, c: Claim, batch: set<Id>)
    requires HeadsDurable(t) && ClaimSafe(c) && forall id :: id in batch ==> id.ChunkObj? && id.chunk in c.dead
    ensures HeadsDurable(Prune(t, batch, t.refs == map[c.refH := c.blob] && |t.roster| == c.rosterLen))
  {
    hide Needed;
    if t.refs == map[c.refH := c.blob] {
      forall x | x in Needed(c.blob.commit) ensures x !in batch { }
    }
  }

  lemma FirePruneKeeps(s: System, k: nat, batch: set<Id>)
    requires Inv(s) && k in s.claims && forall id :: id in batch ==> id.ChunkObj? && id.chunk in s.claims[k].dead
    ensures var c := s.claims[k];
            Inv(s.(t := Prune(s.t, batch, s.t.refs == map[c.refH := c.blob] && |s.t.roster| == c.rosterLen)))
  {
    hide Needed, PushIntact, PushCovered, ClaimSafe, HeadsDurable;
    var c := s.claims[k];
    var s' := s.(t := Prune(s.t, batch, s.t.refs == map[c.refH := c.blob] && |s.t.roster| == c.rosterLen));
    PruneSpares(s.t, c, batch);
    forall q | q in s'.pushes ensures PushIntact(s', q) && PushCovered(s', q) {
      PushFrame(s, s', q);
    }
  }

  lemma BatchKeeps(s: System, b: RosterBatch)
    requires Inv(s) && Resigns(b)
    ensures Inv(s.(t := ApplyBatch(s.t, b)))
  {
    hide Needed, PushIntact, PushCovered, Appended, WriteSlots, SlotsKept;
    var s' := s.(t := ApplyBatch(s.t, b));
    forall q | q in s'.pushes ensures PushIntact(s', q) && PushCovered(s', q) {
      PushFrame(s, s', q);
    }
  }

  lemma TickKeeps(s: System, dt: nat)
    requires Inv(s)
    ensures Inv(s.(clock := s.clock + dt))
  {
    hide Needed;
    var s' := s.(clock := s.clock + dt);
    forall q | q in s'.pushes ensures PushIntact(s', q) && PushCovered(s', q) {
      assert PushIntact(s, q) && PushCovered(s, q);
    }
  }

  lemma AbandonKeeps(s: System, p: PushId)
    requires Inv(s)
    ensures Inv(s.(pushes := s.pushes - {p}))
  {
    hide Needed;
    var s' := s.(pushes := s.pushes - {p});
    forall q | q in s'.pushes ensures PushIntact(s', q) && PushCovered(s', q) {
      assert PushIntact(s, q) && PushCovered(s, q);
    }
  }

  lemma StepKeeps(s: System, a: Action)
    requires Inv(s)
    ensures Inv(Next(s, a))
  {
    hide Inv;
    if Enabled(s, a) {
      match a
      case Tick(dt) => TickKeeps(s, dt);
      case Begin(p, refH, target, want) => BeginKeeps(s, p, refH, target, want);
      case StageNext(p, held, len) => StageKeeps(s, p, held, len);
      case Swap(p, blob) => SwapKeeps(s, p, blob);
      case Abandon(p) => AbandonKeeps(s, p);
      case ReclaimIdle => ReclaimKeeps(s);
      case StartPrune(_, _, _, _, _, _, _) => StartPruneKeeps(s, a);
      case FirePrune(k, batch) => FirePruneKeeps(s, k, batch);
      case Batch(b) => BatchKeeps(s, b);
    }
  }

  lemma {:induction false} RunKeeps(s: System, actions: seq<Action>)
    requires Inv(s)
    ensures Inv(Run(s, actions))
  {
    hide Inv, Next;
    if actions != [] {
      RunKeeps(s, actions[..|actions| - 1]);
      StepKeeps(Run(s, actions[..|actions| - 1]), actions[|actions| - 1]);
    }
  }

  /**
   In every interleaving of pushes, won or lost swaps, reclaims, prunes and roster batches, every
   ref's current head has its whole commit history and full tree-and-chunk content durable, and
   every durable blob verifies against its id.
   */
  lemma NoDataLoss(s: System, actions: seq<Action>)
    requires Init(s)
    ensures HeadsDurable(Run(s, actions).t)
    ensures Genuine(Run(s, actions).t)
  {
    assert Inv(s);
    RunKeeps(s, actions);
  }

  // ---- why a push must not be reclaimed in flight ----

  /** `reclaim_staging` drops a push exactly when its last stage is a whole TTL old, or at time zero. */
  lemma IdleExactly(t: Tables, now: nat, ttl: nat, p: PushId)
    ensures p in Idle(t, now, ttl) <==> p in t.meta && (t.meta[p] == 0 || t.meta[p] + ttl <= now)
  {
  }

  /** A push reclaimed between its last stage and its swap leaves a head whose content is gone. */
  lemma ReclaimedPushLosesData(t: Tables, p: PushId, refH: RefH, blob: HeadBlob, want: seq<Id>, start: nat, ttl: nat,
                               now: nat)
    requires t == EMPTY && want != [] && start + ttl <= now
    ensures var staged := StageAll(t, p, want, start);
            var after := CasRef(Reclaim(staged, now, ttl), refH, NoHead, blob, p);
            refH in after.refs && !HeadsDurable(after)
  {
    StagedMeta(t, p, want, start);
    var staged := StageAll(t, p, want, start);
    var left := Reclaim(staged, now, ttl);
    assert p in Idle(staged, now, ttl);
    assert Fresh(left, p) == {};
    assert left.objects == map[] && left.refs == map[];
    hide StageAll, Reclaim;
    EmptySwapLoses(left, refH, blob, p);
  }

  lemma EmptySwapLoses(t: Tables, refH: RefH, blob: HeadBlob, p: PushId)
    requires t.objects == map[] && t.refs == map[] && Fresh(t, p) == {}
    ensures var after := CasRef(t, refH, NoHead, blob, p); refH in after.refs && !HeadsDurable(after)
  {
    var after := CasRef(t, refH, NoHead, blob, p);
    assert after.objects == map[];
    HistoryRoot(blob.commit);
    hide Needed;
    assert after.refs[refH] == blob;
  }

  lemma HistoryRoot(c: CommitId)
    ensures CommitObj(c) in Needed(c)
  {
  }

  function StageAll(t: Tables, p: PushId, want: seq<Id>, now: nat): Tables {
    if want == [] then t
    else Stage(StageAll(t, p, want[..|want| - 1], now), p, want[|want| - 1], ObjBlob(Some(want[|want| - 1]), 1), now)
  }

  lemma {:induction false} StagedMeta(t: Tables, p: PushId, want: seq<Id>, now: nat)
    ensures var s := StageAll(t, p, want, now);
            s.objects == t.objects && s.refs == t.refs && (want != [] ==> p in s.meta && s.meta[p] == now)
  {
    if want != [] {
      StagedMeta(t, p, want[..|want| - 1], now);
    }
  }
}
