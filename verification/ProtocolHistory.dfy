/**
 What a run of the protocol keeps of older commits. A push stages their trees and chunks when it holds
 them, and a prune may delete chunks, so the content of a head's history is durable up to exactly the
 ids that some push skipped or some prune deleted.
 */
module ProtocolHistory {
  import opened Prelude
  import opened Objects
  import opened Sigchain
  import opened StoreModel
  import opened Protocol
  import Push

  // ---- what a run gives up ----

  /** The optional id that this step of push `p` goes past without staging it. */
  ghost function Skips(s: System, a: Action, p: PushId): set<Id> {
    if Enabled(s, a) && a.StageNext? && a.p == p && !a.held && !s.pushes[p].want[s.pushes[p].next].1
    then {s.pushes[p].want[s.pushes[p].next].0} else {}
  }

  ghost function SkippedBy(s: System, actions: seq<Action>, p: PushId): set<Id> {
    if actions == [] then {}
    else
      var init := actions[..|actions| - 1];
      SkippedBy(s, init, p) + Skips(Run(s, init), actions[|actions| - 1], p)
  }

  /** The ids this step deletes. */
  ghost function Deletes(s: System, a: Action): set<Id> {
    if Enabled(s, a) && a.FirePrune? && s.t.refs == map[s.claims[a.k].refH := s.claims[a.k].blob]
    then a.batch else {}
  }

  /** Everything some push skipped or some prune deleted. */
  ghost function GivenUp(s: System, actions: seq<Action>): set<Id> {
    if actions == [] then {}
    else
      var init, a := actions[..|actions| - 1], actions[|actions| - 1];
      GivenUp(s, init) + Deletes(Run(s, init), a) + if a.StageNext? then Skips(Run(s, init), a, a.p) else {}
  }

  // ---- what a push holds ----

  /** The plan is still the one made at the start, and what it went past is staged or was skipped. */
  ghost predicate PushHolds(s: System, p: PushId, skipped: set<Id>)
    requires p in s.pushes
  {
    var x := s.pushes[p];
    && Planned(x.want, x.target, CommitOf(x.seen)) && x.next <= |x.want|
    && (x.next > 0 && s.clock < x.last + s.ttl ==>
          forall i :: 0 <= i < x.next ==> (p, x.want[i].0) in s.t.staging || x.want[i].0 in skipped)
  }

  lemma HoldsFrame(s: System, s': System, p: PushId, skipped: set<Id>)
    requires p in s.pushes && p in s'.pushes && s'.pushes[p] == s.pushes[p] && PushHolds(s, p, skipped)
    requires s.clock <= s'.clock && s'.ttl == s.ttl
    requires forall id :: (p, id) in s.t.staging ==> (p, id) in s'.t.staging
    ensures PushHolds(s', p, skipped)
  {
    hide Planned;
  }

  lemma ReclaimHolds(s: System, p: PushId, skipped: set<Id>)
    requires Inv(s) && p in s.pushes && PushHolds(s, p, skipped)
    ensures PushHolds(s.(t := Reclaim(s.t, s.clock, s.ttl)), p, skipped)
  {
    hide Planned, Needed;
    assert PushIntact(s, p);
    var s' := s.(t := Reclaim(s.t, s.clock, s.ttl));
    var x := s.pushes[p];
    if x.next > 0 && s.clock < x.last + s.ttl {
      assert p !in Idle(s.t, s.clock, s.ttl);
    }
  }

  lemma StageHolds(s: System, p: PushId, q: PushId, held: bool, len: nat, skipped: set<Id>)
    requires Inv(s) && Enabled(s, StageNext(q, held, len)) && p in s.pushes && PushHolds(s, p, skipped)
    requires p in StageStep(s, q, held, len).pushes
    ensures PushHolds(StageStep(s, q, held, len), p, skipped + Skips(s, StageNext(q, held, len), p))
  {
    hide Planned, Needed;
    assert PushIntact(s, p);
    var s' := StageStep(s, q, held, len);
    if p != q {
      HoldsFrame(s, s', p, skipped);
    }
  }

  lemma HoldsStep(s: System, a: Action, p: PushId, skipped: set<Id>)
    requires Inv(s) && p in Next(s, a).pushes && (p in s.pushes ==> PushHolds(s, p, skipped))
    ensures PushHolds(Next(s, a), p, skipped + Skips(s, a, p))
  {
    hide Inv, PushHolds, StageStep, Planned, Resigns, Timely;
    if Enabled(s, a) {
      match a {
        case Begin(q, refH, target, want) =>
          if q == p { BeginHolds(s, p, refH, target, want); } else { HoldsFrame(s, Next(s, a), p, skipped); }
        case StageNext(q, held, len) =>
          StagePushes(s, q, held, len, p);
          StageHolds(s, p, q, held, len, skipped);
        case ReclaimIdle => ReclaimHolds(s, p, skipped);
        case Batch(b) => BatchStaging(s.t, b); HoldsFrame(s, Next(s, a), p, skipped);
        case _ => HoldsFrame(s, Next(s, a), p, skipped);
      }
      assert Skips(s, a, p) != {} ==> a.StageNext?;
      assert skipped + {} == skipped;
    } else {
      assert skipped + {} == skipped;
    }
  }

  lemma StagePushes(s: System, q: PushId, held: bool, len: nat, p: PushId)
    requires q in s.pushes && s.pushes[q].next < |s.pushes[q].want| && p in StageStep(s, q, held, len).pushes
    ensures p in s.pushes
  {
  }

  lemma BatchStaging(t: Tables, b: RosterBatch)
    ensures ApplyBatch(t, b).staging == t.staging && ApplyBatch(t, b).objects == t.objects
    ensures Resigns(b) ==> forall r :: r in ApplyBatch(t, b).refs ==>
              r in t.refs && ApplyBatch(t, b).refs[r].commit == t.refs[r].commit
  {
    hide Appended, WriteSlots, SlotsKept;
  }

  lemma BeginHolds(s: System, p: PushId, refH: RefH, target: CommitId, want: seq<(Id, bool)>)
    requires Enabled(s, Begin(p, refH, target, want))
    ensures forall skipped :: PushHolds(Next(s, Begin(p, refH, target, want)), p, skipped)
  {
    hide Planned;
  }

  /** In every run each push has staged, or skipped, what it has gone past. */
  lemma {:induction false} RunHolds(s: System, actions: seq<Action>, p: PushId)
    requires Init(s) && p in Run(s, actions).pushes
    ensures PushHolds(Run(s, actions), p, SkippedBy(s, actions, p))
  {
    hide Inv, PushHolds, Next, Skips;
    if actions != [] {
      var init, a := actions[..|actions| - 1], actions[|actions| - 1];
      NoDataLossInv(s, init);
      if p in Run(s, init).pushes { RunHolds(s, init, p); }
      HoldsStep(Run(s, init), a, p, SkippedBy(s, init, p));
    }
  }

  lemma NoDataLossInv(s: System, actions: seq<Action>)
    requires Init(s)
    ensures Inv(Run(s, actions))
  {
    assert Inv(s);
    RunKeeps(s, actions);
  }

  // ---- what a won push makes durable ----

  lemma HeldPromoted(s: System, p: PushId, skipped: set<Id>, id: Id)
    requires p in s.pushes && PushHolds(s, p, skipped) && Timely(s, p) && s.pushes[p].next == |s.pushes[p].want|
    requires id in Marked(s.pushes[p].want, true) + Marked(s.pushes[p].want, false)
    ensures id in Promoted(s.t, p) || id in skipped
  {
    hide Planned;
    var x := s.pushes[p];
    var w :| w in x.want && w.0 == id;
    var i :| 0 <= i < |x.want| && x.want[i] == w;
    if (p, id) in s.t.staging { assert id in s.t.objects || id in Fresh(s.t, p); }
  }

  /**
   A push that wins leaves the whole content of every commit it adds durable, up to the ids it
   skipped itself: with every stage held, all of it.
   */
  lemma WonPushKeepsHistory(s: System, actions: seq<Action>, p: PushId, blob: HeadBlob, c: CommitId)
    requires Init(s) && Enabled(Run(s, actions), Swap(p, blob))
    requires var now := Run(s, actions); var x := now.pushes[p];
             HeadTokenOf(now.t, x.refH) == TokenOf(x.seen) && c in History(x.target) - Push.HistoryOf(CommitOf(x.seen))
    ensures TreeClosure(c.root) <= Next(Run(s, actions), Swap(p, blob)).t.objects.Keys + SkippedBy(s, actions, p)
  {
    hide TreeClosure, History, PushHolds, Inv, Run, Needed, Promoted, SkippedBy, Timely, Marked;
    var (now, skipped) := (Run(s, actions), SkippedBy(s, actions, p));
    var x := now.pushes[p];
    NoDataLossInv(s, actions);
    RunHolds(s, actions, p);
    PlanOf(now, p, skipped);
    Push.PlanCoversNew(x.target, CommitOf(x.seen), c);
    KnownDurable(now, p);
    hide Push.Required, Push.Optional, Push.Known;
    forall id | id in TreeClosure(c.root) ensures id in Promoted(now.t, p) || id in skipped {
      if id in Marked(x.want, true) + Marked(x.want, false) { HeldPromoted(now, p, skipped, id); }
    }
  }

  lemma PlanOf(s: System, p: PushId, skipped: set<Id>)
    requires p in s.pushes && PushHolds(s, p, skipped)
    ensures var x := s.pushes[p];
            && Marked(x.want, true) == Push.Required(x.target, CommitOf(x.seen))
            && Marked(x.want, false) == Push.Optional(x.target, CommitOf(x.seen))
  {
  }

  /** What the plan took for known is durable when the swap wins. */
  lemma KnownDurable(s: System, p: PushId)
    requires Inv(s) && p in s.pushes && HeadTokenOf(s.t, s.pushes[p].refH) == TokenOf(s.pushes[p].seen)
    ensures Push.Known(CommitOf(s.pushes[p].seen)) <= Promoted(s.t, p).Keys
  {
    var x := s.pushes[p];
    if x.seen.Some? {
      assert s.t.refs[x.refH] == x.seen.value;
      assert Needed(x.seen.value.commit) <= s.t.objects.Keys;
    }
    hide TreeClosure, History;
  }

  // ---- the history of every head ----

  ghost predicate HistoriesKept(t: Tables, lost: set<Id>) {
    forall r :: r in t.refs ==> Push.HistoryContent(t.refs[r].commit) <= t.objects.Keys + lost
  }

  lemma SwapKeepsHistories(s: System, p: PushId, blob: HeadBlob, lost: set<Id>)
    requires Inv(s) && Enabled(s, Swap(p, blob)) && HistoriesKept(s.t, lost) && PushHolds(s, p, lost)
    ensures HistoriesKept(Next(s, Swap(p, blob)).t, lost)
  {
    hide Push.HistoryContent, PushHolds, Inv, Needed, Promoted, Timely, Marked, Push.Required, Push.Optional;
    var (x, s') := (s.pushes[p], Next(s, Swap(p, blob)));
    if HeadTokenOf(s.t, x.refH) == TokenOf(x.seen) {
      PromotedFacts(s.t, p);
      PlanOf(s, p, lost);
      Push.PlanCoversHistory(x.target, CommitOf(x.seen));
      forall id | id in Push.HistoryContent(x.target) ensures id in Promoted(s.t, p) || id in lost {
        if id in Marked(x.want, true) + Marked(x.want, false) {
          HeldPromoted(s, p, lost, id);
        } else {
          assert x.seen.Some? && s.t.refs[x.refH] == x.seen.value;
        }
      }
      forall r | r in s'.t.refs ensures Push.HistoryContent(s'.t.refs[r].commit) <= s'.t.objects.Keys + lost {
        if r != x.refH { assert Push.HistoryContent(s.t.refs[r].commit) <= s.t.objects.Keys + lost; }
      }
    }
  }

  lemma HistoriesStep(s: System, a: Action, lost: set<Id>)
    requires Inv(s) && HistoriesKept(s.t, lost)
    requires a.Swap? && Enabled(s, a) ==> PushHolds(s, a.p, lost)
    ensures HistoriesKept(Next(s, a).t, lost + Deletes(s, a))
  {
    hide Inv, PushHolds, Push.HistoryContent, Planned, Timely, Swapped;
    if Enabled(s, a) {
      match a {
        case Swap(p, blob) => SwapKeepsHistories(s, p, blob, lost);
        case Batch(b) => BatchStaging(s.t, b);
        case _ =>
      }
    }
  }

  lemma MoreLost(s: System, p: PushId, small: set<Id>, large: set<Id>)
    requires p in s.pushes && PushHolds(s, p, small) && small <= large
    ensures PushHolds(s, p, large)
  {
    hide Planned;
  }

  lemma {:induction false} SkippedGivenUp(s: System, actions: seq<Action>, p: PushId)
    ensures SkippedBy(s, actions, p) <= GivenUp(s, actions)
  {
    if actions != [] { SkippedGivenUp(s, actions[..|actions| - 1], p); }
  }

  lemma {:induction false} RunKeepsHistories(s: System, actions: seq<Action>)
    requires Init(s)
    ensures HistoriesKept(Run(s, actions).t, GivenUp(s, actions))
  {
    hide Inv, PushHolds, Next, Skips, Deletes, Push.HistoryContent;
    if actions != [] {
      var init, a := actions[..|actions| - 1], actions[|actions| - 1];
      var (now, lost) := (Run(s, init), GivenUp(s, init));
      NoDataLossInv(s, init);
      RunKeepsHistories(s, init);
      if a.Swap? && Enabled(now, a) {
        RunHolds(s, init, a.p);
        SkippedGivenUp(s, init, a.p);
        MoreLost(now, a.p, SkippedBy(s, init, a.p), lost);
      }
      HistoriesStep(now, a, lost);
    }
  }

  /**
   In every reachable state, each tree and chunk of each commit in a head's history is durable, or
   some push went past it without holding it, or some prune deleted it.
   */
  lemma HistoryStays(s: System, actions: seq<Action>, r: RefH, c: CommitId, id: Id)
    requires Init(s) && r in Run(s, actions).t.refs
    requires c in History(Run(s, actions).t.refs[r].commit) && id in TreeClosure(c.root)
    ensures id in Run(s, actions).t.objects || id in GivenUp(s, actions)
  {
    hide Run, GivenUp;
    RunKeepsHistories(s, actions);
    assert id in Push.HistoryContent(Run(s, actions).t.refs[r].commit);
  }

  /** Prunes delete chunks only: a tree is given up only by a push that did not hold it. */
  lemma {:induction false} TreesOnlySkipped(s: System, actions: seq<Action>, t: TreeId)
    requires TreeObj(t) in GivenUp(s, actions)
    ensures exists p :: TreeObj(t) in SkippedBy(s, actions, p)
  {
    hide Run, Next;
    var init, a := actions[..|actions| - 1], actions[|actions| - 1];
    if TreeObj(t) in GivenUp(s, init) {
      TreesOnlySkipped(s, init, t);
      var p :| TreeObj(t) in SkippedBy(s, init, p);
      assert TreeObj(t) in SkippedBy(s, actions, p);
    } else {
      assert TreeObj(t) !in Deletes(Run(s, init), a);
      assert TreeObj(t) in SkippedBy(s, actions, a.p);
    }
  }

  // ---- an undisturbed push lands ----

  lemma RunAppend(s: System, actions: seq<Action>, a: Action)
    ensures Run(s, actions + [a]) == Next(Run(s, actions), a)
  {
    assert (actions + [a])[..|actions|] == actions;
  }

  /** The stages of a push, each finding its object held or not. */
  function Stages(p: PushId, held: seq<bool>): seq<Action> {
    if held == [] then [] else Stages(p, held[..|held| - 1]) + [StageNext(p, held[|held| - 1], 1)]
  }

  /** A push by itself: begin, go through the plan, swap. */
  function WholePush(p: PushId, refH: RefH, target: CommitId, want: seq<(Id, bool)>, held: seq<bool>, blob: HeadBlob)
    : seq<Action>
  {
    [Begin(p, refH, target, want)] + Stages(p, held) + [Swap(p, blob)]
  }

  function HeadSeen(s: System, refH: RefH): Option<HeadBlob> {
    if refH in s.t.refs then Some(s.t.refs[refH]) else None
  }

  /** Once the stages in `held` have run, with every required object among them held. */
  ghost predicate Underway(s: System, now: System, p: PushId, refH: RefH, target: CommitId, want: seq<(Id, bool)>,
                           held: seq<bool>)
  {
    && |held| <= |want| && now.clock == s.clock && now.ttl == s.ttl && now.t.refs == s.t.refs
    && p in now.pushes && now.pushes[p] == InFlight(refH, HeadSeen(s, refH), target, want, |held|, s.clock)
    && forall i :: 0 <= i < |held| && held[i] ==> (p, want[i].0) in now.t.staging
  }

  lemma BegunUnderway(s: System, p: PushId, refH: RefH, target: CommitId, want: seq<(Id, bool)>)
    requires Enabled(s, Begin(p, refH, target, want))
    ensures Underway(s, Next(s, Begin(p, refH, target, want)), p, refH, target, want, [])
  {
    hide Planned;
  }

  lemma StageUnderway(s: System, now: System, p: PushId, refH: RefH, target: CommitId, want: seq<(Id, bool)>,
                      held: seq<bool>, h: bool)
    requires Underway(s, now, p, refH, target, want, held) && |held| < |want| && s.ttl > 0
    requires want[|held|].1 ==> h
    ensures Underway(s, Next(now, StageNext(p, h, 1)), p, refH, target, want, held + [h])
  {
    assert Enabled(now, StageNext(p, h, 1));
    var next := StageStep(now, p, h, 1);
    forall i | 0 <= i < |held + [h]| && (held + [h])[i] ensures (p, want[i].0) in next.t.staging {
      if i < |held| { assert (p, want[i].0) in now.t.staging; }
    }
  }

  lemma {:induction false} StagesRun(s: System, p: PushId, refH: RefH, target: CommitId, want: seq<(Id, bool)>,
                                     held: seq<bool>)
    requires Enabled(s, Begin(p, refH, target, want)) && |held| <= |want| && s.ttl > 0
    requires forall i :: 0 <= i < |held| && want[i].1 ==> held[i]
    ensures Underway(s, Run(s, [Begin(p, refH, target, want)] + Stages(p, held)), p, refH, target, want, held)
    decreases |held|
  {
    hide Enabled, Underway, Next, Run;
    var start := [Begin(p, refH, target, want)];
    if held == [] {
      NoStages(s, p, start);
      BegunUnderway(s, p, refH, target, want);
    } else {
      var n := |held| - 1;
      StagesRun(s, p, refH, target, want, held[..n]);
      assert start + Stages(p, held) == (start + Stages(p, held[..n])) + [StageNext(p, held[n], 1)];
      var now := Run(s, start + Stages(p, held[..n]));
      RunAppend(s, start + Stages(p, held[..n]), StageNext(p, held[n], 1));
      StageUnderway(s, now, p, refH, target, want, held[..n], held[n]);
      assert held == held[..n] + [held[n]];
    }
  }

  lemma NoStages(s: System, p: PushId, start: seq<Action>)
    requires |start| == 1
    ensures Run(s, start + Stages(p, [])) == Next(s, start[0])
  {
    assert start + Stages(p, []) == [] + start && start == [start[0]];
    RunAppend(s, [], start[0]);
    hide Next;
  }

  /**
   With nobody in between, a push that holds everything required wins: its target becomes the head,
   and what it held of the plan is durable.
   */
  lemma PushLands(s: System, p: PushId, refH: RefH, target: CommitId, want: seq<(Id, bool)>, held: seq<bool>,
                  blob: HeadBlob)
    requires Enabled(s, Begin(p, refH, target, want)) && blob.commit == target && s.ttl > 0
    requires |held| == |want| && forall i :: 0 <= i < |held| && want[i].1 ==> held[i]
    ensures var now := Run(s, WholePush(p, refH, target, want, held, blob));
            && now.t.refs == s.t.refs[refH := blob] && p !in now.pushes
            && forall i :: 0 <= i < |held| && held[i] ==> want[i].0 in now.t.objects
  {
    hide Planned, Stages;
    StagesRun(s, p, refH, target, want, held);
    var acts := [Begin(p, refH, target, want)] + Stages(p, held);
    RunAppend(s, acts, Swap(p, blob));
    hide Run;
    var mid := Run(s, acts);
    forall i | 0 <= i < |held| && held[i] ensures want[i].0 in Promoted(mid.t, p) {
      assert (p, want[i].0) in mid.t.staging;
      assert want[i].0 in mid.t.objects || want[i].0 in Fresh(mid.t, p);
    }
  }

  /** Missing a required object ends the push and changes nothing on the server. */
  lemma MissingEnds(s: System, p: PushId, len: nat)
    requires Enabled(s, StageNext(p, false, len)) && s.pushes[p].want[s.pushes[p].next].1
    ensures var now := Next(s, StageNext(p, false, len)); now.t == s.t && now.pushes == s.pushes - {p}
  {
  }

  /** A push plans to send nothing that the head it saw already needs. */
  lemma PushSendsNew(s: System, p: PushId, refH: RefH, target: CommitId, want: seq<(Id, bool)>, w: (Id, bool))
    requires Enabled(s, Begin(p, refH, target, want)) && refH in s.t.refs && w in want
    ensures w.0 !in Needed(s.t.refs[refH].commit)
  {
    hide Needed, Push.Required, Push.Optional;
    var remote := CommitOf(Seen(s.t, refH));
    assert w.0 in (if w.1 then Marked(want, true) else Marked(want, false));
    Push.PlanSendsNew(target, remote, w.0);
  }
}
