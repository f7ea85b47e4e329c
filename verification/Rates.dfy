/** The server's byte rates over whole runs: every answer is that of one bucket per key, full since time zero. */
module Rates {
  import opened Prelude
  import opened Limits
  import opened Server

  /** The write or the read side. */
  datatype Side = Writes | Reads

  function BucketsOf(s: State, side: Side): Buckets {
    if side.Writes? then s.writes else s.gets
  }

  function RateOf(c: Config, side: Side): nat {
    if side.Writes? then c.writeRate else c.readRate
  }

  function TakeOp(side: Side, d: Device, n: nat): Op {
    if side.Writes? then TakeWrite(d, n) else TakeRead(d, n)
  }

  /** What one key asked for on one side. */
  function AsksOf(run: seq<Timed>, side: Side, d: Device): seq<Ask> {
    if run == [] then []
    else
      var (rest, x) := (AsksOf(run[..|run| - 1], side, d), run[|run| - 1]);
      if side.Writes? && x.op.TakeWrite? && x.op.d == d then rest + [Ask(x.op.n, x.now)]
      else if side.Reads? && x.op.TakeRead? && x.op.d == d then rest + [Ask(x.op.n, x.now)]
      else rest
  }

  /** A bucket nobody has used yet. */
  function Unused(c: Config, side: Side): Bucket {
    Bucket(1024 * 1024 * 1024, RateOf(c, side), 1024 * 1024 * 1024, 0)
  }

  lemma UnusedStaysFull(c: Config, side: Side, t: nat)
    ensures Refill(Unused(c, side), t) == Bucket(1024 * 1024 * 1024, RateOf(c, side), 1024 * 1024 * 1024, t)
    ensures BucketOk(Unused(c, side))
  {
    RefillExact(Unused(c, side), t);
    AccruedSplit(RateOf(c, side), 0, 0, t);
    hide Refill;
  }

  /** Two buckets that look alike now are one bucket from here on. */
  lemma SameTake(a: Bucket, b: Bucket, n: nat, now: nat)
    requires Refill(a, now) == Refill(b, now)
    ensures Take(a, n, now) == Take(b, n, now)
  {
    hide Refill;
  }

  ghost predicate Follows(c: Config, side: Side, s: State, asks: seq<Ask>, d: Device, from: nat) {
    forall t :: from <= t ==>
      BucketAt(BucketsOf(s, side), d, t, RateOf(c, side)) == Refill(Serve(Unused(c, side), asks).0, t)
  }

  lemma FollowsStart(c: Config, side: Side, d: Device)
    ensures Follows(c, side, START, [], d, 0)
  {
    forall t | 0 <= t
      ensures BucketAt(map[], d, t, RateOf(c, side)) == Refill(Serve(Unused(c, side), []).0, t)
    {
      UnusedStaysFull(c, side, t);
    }
  }

  lemma FollowsTake(c: Config, side: Side, s: State, asks: seq<Ask>, d: Device, from: nat, n: nat, now: nat)
    requires Follows(c, side, s, asks, d, from) && from <= now
    ensures Follows(c, side, Do(c, s, TakeOp(side, d, n), now).0, asks + [Ask(n, now)], d, now)
    ensures Do(c, s, TakeOp(side, d, n), now).1 == Granted(Take(Serve(Unused(c, side), asks).0, n, now).1)
  {
    var m := BucketsOf(s, side);
    assert BucketAt(m, d, now, RateOf(c, side)) == Refill(Serve(Unused(c, side), asks).0, now);
    SameTake(BucketOf(m, d, now, RateOf(c, side)), Serve(Unused(c, side), asks).0, n, now);
    assert (asks + [Ask(n, now)])[..|asks|] == asks;
    hide Refill, Take;
  }

  lemma FollowsOther(c: Config, side: Side, s: State, asks: seq<Ask>, d: Device, from: nat, op: Op, now: nat)
    requires Follows(c, side, s, asks, d, from) && from <= now && StateOk(c, s, now)
    requires !Mine(op, side, d)
    ensures Follows(c, side, Do(c, s, op, now).0, asks, d, now)
  {
    hide Refill, Take, Serve, AddQuota, PairPut, PairTake;
    if op.SweepIdle? {
      SweepSameBuckets(BucketsOf(s, side), RateOf(c, side), now);
      hide SweepBuckets, SweepCalls, Live;
    }
  }

  /** The op is this key's ask on this side. */
  predicate Mine(op: Op, side: Side, d: Device) {
    (side.Writes? && op.TakeWrite? && op.d == d) || (side.Reads? && op.TakeRead? && op.d == d)
  }

  lemma AsksLast(run: seq<Timed>, side: Side, d: Device)
    requires run != []
    ensures var (init, x) := (run[..|run| - 1], run[|run| - 1]);
            AsksOf(run, side, d) ==
            if Mine(x.op, side, d) then AsksOf(init, side, d) + [Ask(x.op.n, x.now)] else AsksOf(init, side, d)
    ensures var op := run[|run| - 1].op; Mine(op, side, d) ==> op == TakeOp(side, d, op.n)
  {
  }

  lemma {:induction false} RunFollows(c: Config, side: Side, run: seq<Timed>, d: Device)
    requires Forward(run, 0)
    ensures Follows(c, side, After(c, START, run), AsksOf(run, side, d), d, LastTime(run, 0))
    ensures StateOk(c, After(c, START, run), LastTime(run, 0))
    decreases |run|
  {
    hide Follows, StateOk, Do;
    StartOk(c);
    RunOk(c, START, run, 0);
    if run == [] {
      FollowsStart(c, side, d);
    } else {
      var init, x := run[..|run| - 1], run[|run| - 1];
      ForwardLast(run, 0);
      AfterLast(c, START, run);
      AsksLast(run, side, d);
      RunFollows(c, side, init, d);
      var s := After(c, START, init);
      hide After, AsksOf, Forward;
      if Mine(x.op, side, d) {
        FollowsTake(c, side, s, AsksOf(init, side, d), d, LastTime(init, 0), x.op.n, x.now);
      } else {
        OkLater(c, s, LastTime(init, 0), x.now);
        FollowsOther(c, side, s, AsksOf(init, side, d), d, LastTime(init, 0), x.op, x.now);
      }
    }
  }

  lemma {:induction false} AsksForward(run: seq<Timed>, side: Side, d: Device)
    requires Forward(run, 0)
    ensures ClockRuns(AsksOf(run, side, d), 0)
    ensures AsksOf(run, side, d) != [] ==> AsksOf(run, side, d)[|AsksOf(run, side, d)| - 1].now <= LastTime(run, 0)
    decreases |run|
  {
    if run != [] {
      var init, x := run[..|run| - 1], run[|run| - 1];
      assert run == init + [x];
      ForwardLast(run, 0);
      AsksForward(init, side, d);
      hide Forward;
    }
  }

  /**
   After any run of the server on a forward clock, sweeps included, an ask of a key is granted if and
   only if every stretch of that key's grants, this one included, stays within the burst of 1 GiB plus
   the rate times the elapsed time.
   */
  lemma RateExact(c: Config, side: Side, run: seq<Timed>, d: Device, n: nat, now: nat)
    requires Forward(run, 0) && LastTime(run, 0) <= now
    ensures Do(c, After(c, START, run), TakeOp(side, d, n), now).1 ==
            Granted(Affordable(Unused(c, side), AsksOf(run, side, d), now, n))
  {
    hide Follows, StateOk, Do, After, Affordable, Serve, Take, Forward;
    RunFollows(c, side, run, d);
    FollowsTake(c, side, After(c, START, run), AsksOf(run, side, d), d, LastTime(run, 0), n, now);
    AsksForward(run, side, d);
    UnusedStaysFull(c, side, 0);
    GrantExact(Unused(c, side), AsksOf(run, side, d), Ask(n, now));
  }
}
