/**
 The hourly roster budget over whole runs of the server, with any number of requests of a key in
 flight: a request records its entries, works on the store without the lock, and may then give the
 entries back, while others come and go in between.
 */
module Budgets {
  import opened Prelude
  import opened Limits
  import opened Server

  /** A roster batch records its entries, a lost one gives them back, or any other call is served. */
  datatype Act = Begin(d: Device, n: nat) | GiveBack(d: Device, req: nat) | Other(op: Op)

  /** The server, and for each key the recorded entries that stand, by request. */
  datatype World = World(s: State, standing: map<Device, seq<Stamp>>, next: nat)

  const FRESH: World := World(START, map[], 0)

  function StandingOf(w: World, d: Device): seq<Stamp> {
    if d in w.standing then w.standing[d] else []
  }

  function LogOf(w: World, d: Device): Log {
    Log(WindowOf(w.s.calls, d), StandingOf(w, d), w.next)
  }

  function Advance(c: Config, w: World, a: Act, now: nat): World {
    match a
    case Begin(d, n) =>
      var (s, answer) := Server.Do(c, w.s, RecordCall(d, n), now);
      if answer == Granted(true)
      then World(s, w.standing[d := StandingOf(w, d) + Stamps(now, n, w.next)], w.next + 1)
      else w.(s := s)
    case GiveBack(d, req) =>
      var all := StandingOf(w, d);
      World(Server.Do(c, w.s, RefundCall(d, Size(all, req)), now).0, w.standing[d := Without(all, req)], w.next)
    case Other(op) => w.(s := Server.Do(c, w.s, op, now).0)
  }

  datatype Moment = Moment(a: Act, now: nat)

  function Acts(c: Config, w: World, run: seq<Moment>): World
    decreases |run|
  {
    if run == [] then w else Acts(c, Advance(c, w, run[0].a, run[0].now), run[1..])
  }

  /** A request gives back in order, and only such requests touch the counters. */
  ghost predicate Fits(w: World, a: Act, now: nat) {
    match a
    case Begin(_, _) => true
    case GiveBack(d, req) => InOrder(LogOf(w, d), req, now)
    case Other(op) => !op.RecordCall? && !op.RefundCall?
  }

  ghost predicate OrderedTraffic(c: Config, w: World, run: seq<Moment>, from: nat)
    decreases |run|
  {
    run == [] ||
    (from <= run[0].now < U64_MAX && Fits(w, run[0].a, run[0].now) &&
     OrderedTraffic(c, Advance(c, w, run[0].a, run[0].now), run[1..], run[0].now))
  }

  ghost predicate WorldOk(w: World, now: nat) {
    CallsOk(w.s.calls) && forall d :: LogOk(LogOf(w, d), now)
  }

  // ---- each key's counter takes its own steps ----

  lemma Untouched(l: Log, next: nat, before: nat, now: nat)
    requires LogOk(l, before) && before <= now && l.next <= next
    ensures LogOk(l.(next := next), now)
  {
    LaterAgrees(l, before, now);
    hide Tidy, Spaced, Pruned;
  }

  lemma BeginSteps(c: Config, w: World, d: Device, n: nat, now: nat)
    requires CallsOk(w.s.calls)
    ensures LogOf(Advance(c, w, Begin(d, n), now), d) == Step(LogOf(w, d), Enter(now, n))
  {
    hide Pruned, Stamps, Repeat;
  }

  lemma GiveBackSteps(c: Config, w: World, d: Device, req: nat, now: nat)
    ensures LogOf(Advance(c, w, GiveBack(d, req), now), d) == Step(LogOf(w, d), Leave(now, req))
  {
    hide Size, Without;
  }

  lemma SweepSteps(c: Config, w: World, d: Device, now: nat)
    requires CallsOk(w.s.calls)
    ensures LogOf(Advance(c, w, Other(SweepIdle), now), d) == Step(LogOf(w, d), Look(now))
  {
    if d in w.s.calls {
      hide Pruned;
    }
  }

  lemma BeginKeeps(c: Config, w: World, before: nat, d: Device, n: nat, now: nat)
    requires WorldOk(w, before) && before <= now < U64_MAX
    ensures WorldOk(Advance(c, w, Begin(d, n), now), now)
  {
    hide LogOk, Pruned, Step;
    var w' := Advance(c, w, Begin(d, n), now);
    forall e ensures LogOk(LogOf(w', e), now) {
      if e == d {
        BeginSteps(c, w, d, n, now);
        StepKeeps(LogOf(w, d), before, Enter(now, n));
      } else {
        Untouched(LogOf(w, e), w'.next, before, now);
      }
    }
  }

  lemma GiveBackKeeps(c: Config, w: World, before: nat, d: Device, req: nat, now: nat)
    requires WorldOk(w, before) && before <= now < U64_MAX && InOrder(LogOf(w, d), req, now)
    ensures WorldOk(Advance(c, w, GiveBack(d, req), now), now)
  {
    hide LogOk, Pruned, Step, Size, Without;
    var w' := Advance(c, w, GiveBack(d, req), now);
    forall e ensures LogOk(LogOf(w', e), now) {
      if e == d {
        GiveBackSteps(c, w, d, req, now);
        StepKeeps(LogOf(w, d), before, Leave(now, req));
      } else {
        Untouched(LogOf(w, e), w'.next, before, now);
      }
    }
  }

  lemma OtherKeeps(c: Config, w: World, before: nat, op: Op, now: nat)
    requires WorldOk(w, before) && before <= now < U64_MAX && !op.RecordCall? && !op.RefundCall?
    ensures WorldOk(Advance(c, w, Other(op), now), now)
  {
    hide LogOk, Pruned, Step, TakeFrom, AddQuota, PairPut, PairTake;
    var w' := Advance(c, w, Other(op), now);
    forall e ensures LogOk(LogOf(w', e), now) {
      if op.SweepIdle? {
        SweepSteps(c, w, e, now);
        StepKeeps(LogOf(w, e), before, Look(now));
      } else {
        Untouched(LogOf(w, e), w'.next, before, now);
      }
    }
  }

  lemma {:induction false} ActsKeep(c: Config, w: World, run: seq<Moment>, from: nat) returns (now: nat)
    requires WorldOk(w, from) && OrderedTraffic(c, w, run, from)
    ensures WorldOk(Acts(c, w, run), now)
    decreases |run|
  {
    hide WorldOk, Advance;
    if run == [] {
      now := from;
    } else {
      var t := run[0].now;
      match run[0].a {
        case Begin(d, n) => BeginKeeps(c, w, from, d, n, t);
        case GiveBack(d, req) => GiveBackKeeps(c, w, from, d, req, t);
        case Other(op) => OtherKeeps(c, w, from, op, t);
      }
      now := ActsKeep(c, Advance(c, w, run[0].a, t), run[1..], t);
    }
  }

  /**
   Over any run of the server on a clock that runs forward, with refunds in order, no hour holds more
   standing roster entries of a key than its budget.
   */
  lemma BudgetHolds(c: Config, run: seq<Moment>, d: Device, i: nat, j: nat)
    requires OrderedTraffic(c, FRESH, run, 0)
    requires
      var all := StandingOf(Acts(c, FRESH, run), d);
      i <= j < |all| && all[j].at < all[i].at + HOUR_SECS
    ensures j - i + 1 <= MAX_SIGCHAIN_ENTRIES_PER_HOUR
  {
    assert forall e :: LogOf(FRESH, e) == Log(Window(HOUR_SECS, MAX_SIGCHAIN_ENTRIES_PER_HOUR, []), [], 0);
    assert WorldOk(FRESH, 0);
    var now := ActsKeep(c, FRESH, run, 0);
    hide Acts;
    var l := LogOf(Acts(c, FRESH, run), d);
    assert LogOk(l, now);
    SpacedBound(HOUR_SECS, MAX_SIGCHAIN_ENTRIES_PER_HOUR, Times(l.all), i, j);
  }

  // ---- a refund out of order ----

  /** Two requests overlap, the older one loses its race, and an hour later a full batch follows. */
  function LateRun(d: Device): seq<Moment> {
    [Moment(Begin(d, 1), 0), Moment(Begin(d, 1), 1800), Moment(GiveBack(d, 0), 1800), Moment(Begin(d, 60), 3600)]
  }

  lemma ActsNext(c: Config, w: World, run: seq<Moment>)
    requires run != []
    ensures Acts(c, w, run) == Acts(c, Advance(c, w, run[0].a, run[0].now), run[1..])
    ensures run[1..] == [] ==> Acts(c, w, run) == Advance(c, w, run[0].a, run[0].now)
  {
  }

  lemma TwoInFlight(c: Config, d: Device) returns (w: World)
    ensures w == Advance(c, Advance(c, FRESH, Begin(d, 1), 0), Begin(d, 1), 1800) && CallsOk(w.s.calls)
    ensures LogOf(w, d) == Log(Window(HOUR_SECS, 60, [0, 1800]), [Stamp(0, 0), Stamp(1800, 1)], 2)
  {
    var w1 := Advance(c, FRESH, Begin(d, 1), 0);
    assert Stamps(0, 1, 0) == [Stamp(0, 0)] && Repeat(0, 1) == [0];
    assert LogOf(w1, d) == Log(Window(HOUR_SECS, 60, [0]), [Stamp(0, 0)], 1);
    w := Advance(c, w1, Begin(d, 1), 1800);
    assert Stamps(1800, 1, 1) == [Stamp(1800, 1)] && Repeat(1800, 1) == [1800];
  }

  lemma LateRefund(c: Config, w: World, d: Device)
    requires LogOf(w, d) == Log(Window(HOUR_SECS, 60, [0, 1800]), [Stamp(0, 0), Stamp(1800, 1)], 2)
    ensures var after := Advance(c, w, GiveBack(d, 0), 1800);
            && LogOf(after, d) == Log(Window(HOUR_SECS, 60, [0]), [Stamp(1800, 1)], 2)
            && (CallsOk(w.s.calls) ==> CallsOk(after.s.calls))
  {
    GiveBackSteps(c, w, d, 0, 1800);
    var all := [Stamp(0, 0), Stamp(1800, 1)];
    assert all[..1] == [Stamp(0, 0)] && all[..1][..0] == [];
    assert Size(all, 0) == 1 && Without(all, 0) == [Stamp(1800, 1)];
    assert [0, 1800][..1] == [0];
  }

  lemma FullBatch(c: Config, w: World, d: Device)
    requires LogOf(w, d) == Log(Window(HOUR_SECS, 60, [0]), [Stamp(1800, 1)], 2) && CallsOk(w.s.calls)
    ensures StandingOf(Advance(c, w, Begin(d, 60), 3600), d) == [Stamp(1800, 1)] + Stamps(3600, 60, 2)
  {
    assert Pruned(HOUR_SECS, [0], 3600) == [];
    BeginSteps(c, w, d, 60, 3600);
    hide Advance, Pruned, Stamps, Repeat;
  }

  lemma LateRunEnds(c: Config, d: Device) returns (w: World)
    ensures LogOf(w, d) == Log(Window(HOUR_SECS, 60, [0]), [Stamp(1800, 1)], 2) && CallsOk(w.s.calls)
    ensures Acts(c, FRESH, LateRun(d)) == Advance(c, w, Begin(d, 60), 3600)
  {
    var w2 := TwoInFlight(c, d);
    w := Advance(c, w2, GiveBack(d, 0), 1800);
    LateRefund(c, w2, d);
    hide Advance, Acts, CallsOk, LogOf;
    FourActs(c, FRESH, LateRun(d));
  }

  lemma FourActs(c: Config, w: World, run: seq<Moment>)
    requires |run| == 4
    ensures var w2 := Advance(c, Advance(c, w, run[0].a, run[0].now), run[1].a, run[1].now);
            Acts(c, w, run) == Advance(c, Advance(c, w2, run[2].a, run[2].now), run[3].a, run[3].now)
  {
    hide Advance, Acts;
    var w1 := Advance(c, w, run[0].a, run[0].now);
    var w2 := Advance(c, w1, run[1].a, run[1].now);
    ActsNext(c, w, run);
    ActsNext(c, w1, run[1..]);
    ActsNext(c, w2, run[1..][1..]);
    ActsNext(c, Advance(c, w2, run[2].a, run[2].now), run[1..][1..][1..]);
  }

  /** The older one's refund takes off the newer one's entry, and then 61 entries stand within one hour. */
  lemma LateRefundOverruns(c: Config, d: Device)
    ensures var all := StandingOf(Acts(c, FRESH, LateRun(d)), d);
            && |all| == 61 && all[60].at < all[0].at + HOUR_SECS
            && |all| > MAX_SIGCHAIN_ENTRIES_PER_HOUR
  {
    hide Advance, Acts, LogOf, StandingOf;
    var w := LateRunEnds(c, d);
    FullBatch(c, w, d);
  }
}
