/**
 What the request handlers remember between calls: buckets, windows, quotas and pairing mail. Sweeping
 forgets idle entries; `SweepInvisible` shows that no later answer can tell.
 */
module Server {
  import opened Prelude
  import opened Limits

  const PAIR_TTL_SECS: nat := 600
  const MAX_PAIR_SLOTS: nat := 256
  const WRITE_BURST_BYTES: nat := 1024 * 1024 * 1024
  const HOUR_SECS: nat := 3600
  const MAX_SIGCHAIN_ENTRIES_PER_HOUR: nat := 60

  datatype Device = Device(n: nat)
  datatype Slot = Slot(n: nat)
  datatype Mail = Mail(blob: nat, expiry: nat)
  datatype Quota = Quota(limit: nat, used: nat)
  datatype Config = Config(writeRate: nat, readRate: nat, cap: nat)

  type Buckets = map<Device, Bucket>
  type Calls = map<Device, Window>
  type Mailbox = map<Slot, Mail>

  datatype State = State(writes: Buckets, gets: Buckets, calls: Calls, quotas: map<Device, Quota>, pairing: Mailbox)

  // ---- operations on the parts ----

  function BucketOf(m: Buckets, d: Device, now: nat, rate: nat): Bucket {
    if d in m then m[d] else NewBucket(WRITE_BURST_BYTES, rate, now)
  }

  function TakeFrom(m: Buckets, d: Device, n: nat, now: nat, rate: nat): (Buckets, bool) {
    var (b, ok) := Take(BucketOf(m, d, now, rate), n, now);
    (m[d := b], ok)
  }

  function WindowOf(m: Calls, d: Device): Window {
    if d in m then m[d] else Window(HOUR_SECS, MAX_SIGCHAIN_ENTRIES_PER_HOUR, [])
  }

  function RecordIn(m: Calls, d: Device, n: nat, now: nat): (Calls, bool) {
    var (w, ok) := Record(WindowOf(m, d), now, n);
    (m[d := w], ok)
  }

  function RefundIn(m: Calls, d: Device, n: nat): Calls {
    if d in m then m[d := Refund(m[d], n)] else m
  }

  function TryAdd(q: Quota, n: nat): (Quota, bool) {
    if q.used + n <= U64_MAX && q.used + n <= q.limit then (q.(used := q.used + n), true) else (q, false)
  }

  function AddQuota(m: map<Device, Quota>, d: Device, n: nat, cap: nat): (map<Device, Quota>, bool) {
    if cap == 0 then (m, true)
    else
      var (q, ok) := TryAdd(if d in m then m[d] else Quota(cap, 0), n);
      (m[d := q], ok)
  }

  function ReleaseQuota(m: map<Device, Quota>, d: Device, n: nat): map<Device, Quota> {
    if d in m then m[d := m[d].(used := SatSub(m[d].used, n))] else m
  }

  function Live(m: Mailbox, now: nat): Mailbox {
    map s | s in m && m[s].expiry > now :: m[s]
  }

  function PairPut(m: Mailbox, s: Slot, blob: nat, now: nat): (Mailbox, bool) {
    var live := Live(m, now);
    if |live| >= MAX_PAIR_SLOTS && s !in live then (live, false)
    else (live[s := Mail(blob, now + PAIR_TTL_SECS)], true)
  }

  function PairTake(m: Mailbox, s: Slot, now: nat): (Mailbox, Option<nat>) {
    var live := Live(m, now);
    if s in live then (map x | x in live && x != s :: live[x], Some(live[s].blob)) else (live, None)
  }

  /** Full buckets are forgotten, the others refilled. */
  function SweepBuckets(m: Buckets, now: nat): Buckets {
    map d | d in m && Refill(m[d], now).tokens != m[d].capacity :: Refill(m[d], now)
  }

  /** Empty windows are forgotten, the others pruned. */
  function SweepCalls(m: Calls, now: nat): Calls {
    map d | d in m && Pruned(m[d].window, m[d].events, now) != [] ::
      m[d].(events := Pruned(m[d].window, m[d].events, now))
  }

  function Sweep(s: State, now: nat): State {
    s.(writes := SweepBuckets(s.writes, now), gets := SweepBuckets(s.gets, now),
       calls := SweepCalls(s.calls, now), pairing := Live(s.pairing, now))
  }

  // ---- a run of calls ----

  datatype Op =
    | TakeWrite(d: Device, n: nat)
    | TakeRead(d: Device, n: nat)
    | RecordCall(d: Device, n: nat)
    | RefundCall(d: Device, n: nat)
    | Charge(d: Device, n: nat)
    | Release(d: Device, n: nat)
    | Post(slot: Slot, blob: nat)
    | Fetch(slot: Slot)
    | SweepIdle

  datatype Answer = Granted(ok: bool) | Message(blob: Option<nat>) | Done

  function Do(c: Config, s: State, op: Op, now: nat): (State, Answer) {
    match op
    case TakeWrite(d, n) => var (m, ok) := TakeFrom(s.writes, d, n, now, c.writeRate); (s.(writes := m), Granted(ok))
    case TakeRead(d, n) => var (m, ok) := TakeFrom(s.gets, d, n, now, c.readRate); (s.(gets := m), Granted(ok))
    case RecordCall(d, n) => var (m, ok) := RecordIn(s.calls, d, n, now); (s.(calls := m), Granted(ok))
    case RefundCall(d, n) => (s.(calls := RefundIn(s.calls, d, n)), Done)
    case Charge(d, n) => var (m, ok) := AddQuota(s.quotas, d, n, c.cap); (s.(quotas := m), Granted(ok))
    case Release(d, n) => (s.(quotas := ReleaseQuota(s.quotas, d, n)), Done)
    case Post(x, b) => var (m, ok) := PairPut(s.pairing, x, b, now); (s.(pairing := m), Granted(ok))
    case Fetch(x) => var (m, b) := PairTake(s.pairing, x, now); (s.(pairing := m), Message(b))
    case SweepIdle => (Sweep(s, now), Done)
  }

  datatype Timed = Timed(op: Op, now: nat)

  function Answers(c: Config, s: State, run: seq<Timed>): seq<Answer>
    decreases |run|
  {
    if run == [] then []
    else
      var (s', a) := Do(c, s, run[0].op, run[0].now);
      [a] + Answers(c, s', run[1..])
  }

  const START: State := State(map[], map[], map[], map[], map[])

  function After(c: Config, s: State, run: seq<Timed>): State
    decreases |run|
  {
    if run == [] then s else After(c, Do(c, s, run[0].op, run[0].now).0, run[1..])
  }

  ghost predicate Forward(run: seq<Timed>, from: nat)
    decreases |run|
  {
    run == [] || (from <= run[0].now && Forward(run[1..], run[0].now))
  }

  // ---- what an answer can depend on ----

  /** The bucket as a call at `t` finds it. */
  function BucketAt(m: Buckets, d: Device, t: nat, rate: nat): Bucket {
    Refill(BucketOf(m, d, t, rate), t)
  }

  ghost predicate BucketsOk(m: Buckets, rate: nat, now: nat) {
    forall d :: d in m ==>
      m[d].capacity == WRITE_BURST_BYTES && m[d].rate == rate && m[d].tokens <= m[d].capacity && m[d].last <= now
  }

  ghost predicate SameBuckets(a: Buckets, b: Buckets, rate: nat, now: nat) {
    forall d, t :: now <= t ==> BucketAt(a, d, t, rate) == BucketAt(b, d, t, rate)
  }

  /** The events as a call at `t` finds them. */
  function CallsAt(m: Calls, d: Device, t: nat): seq<nat> {
    Pruned(HOUR_SECS, WindowOf(m, d).events, t)
  }

  ghost predicate CallsOk(m: Calls) {
    forall d :: d in m ==> m[d].window == HOUR_SECS && m[d].max == MAX_SIGCHAIN_ENTRIES_PER_HOUR
  }

  ghost predicate SameCalls(a: Calls, b: Calls, now: nat) {
    forall d, t :: now <= t ==> CallsAt(a, d, t) == CallsAt(b, d, t)
  }

  ghost predicate SameMail(a: Mailbox, b: Mailbox, now: nat) {
    forall t :: now <= t ==> Live(a, t) == Live(b, t)
  }

  ghost predicate StateOk(c: Config, s: State, now: nat) {
    BucketsOk(s.writes, c.writeRate, now) && BucketsOk(s.gets, c.readRate, now) && CallsOk(s.calls)
  }

  ghost predicate Alike(c: Config, a: State, b: State, now: nat) {
    && SameBuckets(a.writes, b.writes, c.writeRate, now) && SameBuckets(a.gets, b.gets, c.readRate, now)
    && SameCalls(a.calls, b.calls, now) && a.quotas == b.quotas && SameMail(a.pairing, b.pairing, now)
  }

  // ---- buckets ----

  lemma RefillTwice(b: Bucket, now: nat, t: nat)
    requires BucketOk(b) && b.last <= now <= t
    ensures Refill(Refill(b, now), t) == Refill(b, t)
  {
    RefillExact(b, now);
    RefillExact(Refill(b, now), t);
    RefillExact(b, t);
    AccruedSplit(b.rate, b.last, now, t);
    hide Refill, Accrued;
  }

  /** A bucket that is full now answers like one never used. */
  lemma FullForgotten(b: Bucket, now: nat, t: nat)
    requires BucketOk(b) && b.last <= now <= t && Refill(b, now).tokens == b.capacity
    ensures Refill(b, t) == NewBucket(b.capacity, b.rate, t)
  {
    RefillTwice(b, now, t);
    RefillExact(b, now);
    RefillExact(Refill(b, now), t);
    hide Refill, Accrued;
  }

  lemma SweepSameBuckets(m: Buckets, rate: nat, now: nat)
    requires BucketsOk(m, rate, now)
    ensures SameBuckets(SweepBuckets(m, now), m, rate, now) && BucketsOk(SweepBuckets(m, now), rate, now)
  {
    forall d | d in m ensures BucketOk(m[d]) { }
    forall d, t | now <= t ensures BucketAt(SweepBuckets(m, now), d, t, rate) == BucketAt(m, d, t, rate) {
      if d in m {
        RefillTwice(m[d], now, t);
        RefillExact(m[d], now);
        if Refill(m[d], now).tokens == m[d].capacity { FullForgotten(m[d], now, t); }
      }
    }
    forall d | d in SweepBuckets(m, now)
      ensures var b := SweepBuckets(m, now)[d];
              b.capacity == WRITE_BURST_BYTES && b.rate == rate && b.tokens <= b.capacity && b.last <= now
    {
      RefillExact(m[d], now);
    }
  }

  lemma TakeSame(a: Buckets, b: Buckets, d: Device, n: nat, rate: nat, now: nat, t: nat)
    requires SameBuckets(a, b, rate, now) && now <= t && BucketsOk(a, rate, now) && BucketsOk(b, rate, now)
    ensures TakeFrom(a, d, n, t, rate).1 == TakeFrom(b, d, n, t, rate).1
    ensures SameBuckets(TakeFrom(a, d, n, t, rate).0, TakeFrom(b, d, n, t, rate).0, rate, t)
    ensures BucketsOk(TakeFrom(a, d, n, t, rate).0, rate, t) && BucketsOk(TakeFrom(b, d, n, t, rate).0, rate, t)
  {
    assert BucketAt(a, d, t, rate) == BucketAt(b, d, t, rate);
    TakeOk(a, d, n, rate, now, t);
    TakeOk(b, d, n, rate, now, t);
    var (x, y) := (TakeFrom(a, d, n, t, rate).0, TakeFrom(b, d, n, t, rate).0);
    assert x[d] == y[d];
    hide Refill;
    forall e, u | t <= u ensures BucketAt(x, e, u, rate) == BucketAt(y, e, u, rate) {
      if e != d { assert BucketAt(a, e, u, rate) == BucketAt(b, e, u, rate); }
    }
  }

  lemma TakeOk(m: Buckets, d: Device, n: nat, rate: nat, now: nat, t: nat)
    requires BucketsOk(m, rate, now) && now <= t
    ensures BucketsOk(TakeFrom(m, d, n, t, rate).0, rate, t)
  {
    var b := BucketOf(m, d, t, rate);
    TakeBound(b, n, t);
    hide Take;
  }

  // ---- windows ----

  lemma {:induction false} PrunedAway(window: nat, events: seq<nat>, now: nat)
    requires now < U64_MAX
    ensures Pruned(window, events, now) == [] <==> forall e :: e in events ==> e + window <= now
  {
    if events != [] {
      PrunedAway(window, events[1..], now);
      assert events[0] in events && forall e :: e in events[1..] ==> e in events;
      assert forall e :: e in events ==> e == events[0] || e in events[1..];
    }
  }

  /** The bucket would be full again at `now`. */
  ghost predicate FullAt(b: Bucket, now: nat) {
    b.tokens + b.rate * (now - b.last) >= b.capacity
  }

  lemma SweptBuckets(m: Buckets, rate: nat, now: nat)
    requires BucketsOk(m, rate, now)
    ensures forall d :: d in SweepBuckets(m, now) <==> d in m && !FullAt(m[d], now)
  {
    forall d | d in m ensures Refill(m[d], now).tokens != m[d].capacity <==> !FullAt(m[d], now) {
      RefillExact(m[d], now);
      hide Refill;
    }
    hide Refill, FullAt;
  }

  /** A post is taken if and only if its slot already holds unexpired mail or the unexpired slots are below the cap. */
  lemma PostExact(m: Mailbox, slot: Slot, blob: nat, now: nat)
    ensures var (after, ok) := PairPut(m, slot, blob, now);
            var live := set x | x in m && m[x].expiry > now;
            && (ok <==> slot in live || |live| < 256)
            && (ok ==> slot in after && after[slot] == Mail(blob, now + 600))
            && (forall x :: x != slot ==> (x in after <==> x in live) && (x in after ==> after[x] == m[x]))
  {
    var live := Live(m, now);
    assert live.Keys == set x | x in m && m[x].expiry > now;
  }

  /** A sweep forgets exactly the buckets full by now, the windows with nothing unexpired and the expired mail. */
  lemma SweepForgets(c: Config, s: State, now: nat)
    requires StateOk(c, s, now) && now < U64_MAX
    ensures var after := Sweep(s, now);
            && (forall d :: d in after.writes <==> d in s.writes && !FullAt(s.writes[d], now))
            && (forall d :: d in after.gets <==> d in s.gets && !FullAt(s.gets[d], now))
            && (forall d :: d in after.calls <==>
                  d in s.calls && exists e :: e in s.calls[d].events && e + HOUR_SECS > now)
            && (forall x :: x in after.pairing <==> x in s.pairing && s.pairing[x].expiry > now)
            && after.quotas == s.quotas
  {
    hide FullAt, SweepBuckets, BucketsOk;
    SweptBuckets(s.writes, c.writeRate, now);
    SweptBuckets(s.gets, c.readRate, now);
    hide Pruned;
    forall d | d in s.calls
      ensures Pruned(s.calls[d].window, s.calls[d].events, now) != [] <==>
              exists e :: e in s.calls[d].events && e + HOUR_SECS > now
    {
      PrunedAway(s.calls[d].window, s.calls[d].events, now);
    }
  }

  lemma SweepSameCalls(m: Calls, now: nat)
    requires CallsOk(m)
    ensures SameCalls(SweepCalls(m, now), m, now) && CallsOk(SweepCalls(m, now))
  {
    forall d, t | now <= t ensures CallsAt(SweepCalls(m, now), d, t) == CallsAt(m, d, t) {
      if d in m { PruneTwice(HOUR_SECS, m[d].events, now, t); }
    }
  }

  lemma RecordSame(a: Calls, b: Calls, d: Device, n: nat, now: nat, t: nat)
    requires SameCalls(a, b, now) && now <= t && CallsOk(a) && CallsOk(b)
    ensures RecordIn(a, d, n, t).1 == RecordIn(b, d, n, t).1
    ensures SameCalls(RecordIn(a, d, n, t).0, RecordIn(b, d, n, t).0, t)
    ensures CallsOk(RecordIn(a, d, n, t).0) && CallsOk(RecordIn(b, d, n, t).0)
  {
    assert CallsAt(a, d, t) == CallsAt(b, d, t);
    var (x, y) := (RecordIn(a, d, n, t).0, RecordIn(b, d, n, t).0);
    assert x[d] == y[d];
    hide Pruned;
    forall e, u | t <= u ensures CallsAt(x, e, u) == CallsAt(y, e, u) {
      if e != d { assert CallsAt(a, e, u) == CallsAt(b, e, u); }
    }
  }

  lemma RefundAt(m: Calls, d: Device, n: nat, now: nat, t: nat)
    requires CallsOk(m) && now <= t
    ensures CallsAt(RefundIn(m, d, n), d, t) ==
            Pruned(HOUR_SECS, CallsAt(m, d, now)[..SatSub(|CallsAt(m, d, now)|, n)], t)
  {
    if d in m { PruneRefund(HOUR_SECS, m[d].events, n, now, t); }
  }

  lemma RefundSame(a: Calls, b: Calls, d: Device, n: nat, now: nat)
    requires SameCalls(a, b, now) && CallsOk(a) && CallsOk(b)
    ensures SameCalls(RefundIn(a, d, n), RefundIn(b, d, n), now)
    ensures CallsOk(RefundIn(a, d, n)) && CallsOk(RefundIn(b, d, n))
  {
    hide Pruned;
    assert CallsAt(a, d, now) == CallsAt(b, d, now);
    forall e, u | now <= u ensures CallsAt(RefundIn(a, d, n), e, u) == CallsAt(RefundIn(b, d, n), e, u) {
      if e == d {
        RefundAt(a, d, n, now, u);
        RefundAt(b, d, n, now, u);
      } else {
        assert CallsAt(a, e, u) == CallsAt(b, e, u);
      }
    }
  }

  // ---- the mailbox ----

  lemma LiveTwice(m: Mailbox, now: nat, t: nat)
    requires now <= t
    ensures Live(Live(m, now), t) == Live(m, t)
  {
  }

  lemma SweepSameMail(m: Mailbox, now: nat)
    ensures SameMail(Live(m, now), m, now)
  {
    forall t | now <= t ensures Live(Live(m, now), t) == Live(m, t) { LiveTwice(m, now, t); }
  }

  lemma MailSame(a: Mailbox, b: Mailbox, now: nat)
    requires SameMail(a, b, now)
    ensures forall s, x :: PairPut(a, s, x, now) == PairPut(b, s, x, now)
    ensures forall s :: PairTake(a, s, now) == PairTake(b, s, now)
    ensures forall m: Mailbox :: SameMail(m, m, now)
  {
    assert Live(a, now) == Live(b, now);
    hide Live;
  }

  // ---- the whole state ----

  lemma SweepAlike(c: Config, s: State, now: nat)
    requires StateOk(c, s, now)
    ensures Alike(c, Sweep(s, now), s, now) && StateOk(c, Sweep(s, now), now)
  {
    hide SameBuckets, SameCalls, SameMail, BucketsOk, CallsOk;
    SweepSameBuckets(s.writes, c.writeRate, now);
    SweepSameBuckets(s.gets, c.readRate, now);
    SweepSameCalls(s.calls, now);
    SweepSameMail(s.pairing, now);
  }

  lemma AlikeLater(c: Config, a: State, b: State, now: nat, t: nat)
    requires Alike(c, a, b, now) && now <= t
    ensures Alike(c, a, b, t)
  {
    hide BucketAt, CallsAt, Live;
  }

  lemma OkLater(c: Config, s: State, now: nat, t: nat)
    requires StateOk(c, s, now) && now <= t
    ensures StateOk(c, s, t)
  {
  }

  lemma AlikeChain(c: Config, a: State, b: State, d: State, now: nat)
    requires Alike(c, a, b, now) && Alike(c, b, d, now)
    ensures Alike(c, a, d, now)
  {
    hide BucketAt, CallsAt, Live;
    forall x, t | now <= t ensures BucketAt(a.writes, x, t, c.writeRate) == BucketAt(d.writes, x, t, c.writeRate) {
      assert BucketAt(a.writes, x, t, c.writeRate) == BucketAt(b.writes, x, t, c.writeRate);
    }
    forall x, t | now <= t ensures BucketAt(a.gets, x, t, c.readRate) == BucketAt(d.gets, x, t, c.readRate) {
      assert BucketAt(a.gets, x, t, c.readRate) == BucketAt(b.gets, x, t, c.readRate);
    }
    forall x, t | now <= t ensures CallsAt(a.calls, x, t) == CallsAt(d.calls, x, t) {
      assert CallsAt(a.calls, x, t) == CallsAt(b.calls, x, t);
    }
  }

  lemma AlikeFlip(c: Config, a: State, b: State, now: nat)
    requires Alike(c, a, b, now)
    ensures Alike(c, b, a, now)
  {
    hide BucketAt, CallsAt, Live;
    forall x, t | now <= t ensures BucketAt(b.writes, x, t, c.writeRate) == BucketAt(a.writes, x, t, c.writeRate) {
      assert BucketAt(a.writes, x, t, c.writeRate) == BucketAt(b.writes, x, t, c.writeRate);
    }
    forall x, t | now <= t ensures BucketAt(b.gets, x, t, c.readRate) == BucketAt(a.gets, x, t, c.readRate) {
      assert BucketAt(a.gets, x, t, c.readRate) == BucketAt(b.gets, x, t, c.readRate);
    }
    forall x, t | now <= t ensures CallsAt(b.calls, x, t) == CallsAt(a.calls, x, t) {
      assert CallsAt(a.calls, x, t) == CallsAt(b.calls, x, t);
    }
  }

  /** States that look alike from `now` on give the same answer and stay alike. */
  lemma SameAnswer(c: Config, a: State, b: State, op: Op, now: nat)
    requires Alike(c, a, b, now) && StateOk(c, a, now) && StateOk(c, b, now)
    ensures Do(c, a, op, now).1 == Do(c, b, op, now).1
    ensures Alike(c, Do(c, a, op, now).0, Do(c, b, op, now).0, now)
    ensures StateOk(c, Do(c, a, op, now).0, now) && StateOk(c, Do(c, b, op, now).0, now)
  {
    assert Live(a.pairing, now) == Live(b.pairing, now);
    MailSame(a.pairing, b.pairing, now);
    hide SameBuckets, SameCalls, BucketsOk, CallsOk, TakeFrom, RecordIn, RefundIn, Sweep, AddQuota, ReleaseQuota,
         SameMail, Live, PairPut, PairTake;
    match op {
      case TakeWrite(d, n) => TakeSame(a.writes, b.writes, d, n, c.writeRate, now, now);
      case TakeRead(d, n) => TakeSame(a.gets, b.gets, d, n, c.readRate, now, now);
      case RecordCall(d, n) => RecordSame(a.calls, b.calls, d, n, now, now);
      case RefundCall(d, n) => RefundSame(a.calls, b.calls, d, n, now);
      case SweepIdle =>
        SweepAlike(c, a, now);
        SweepAlike(c, b, now);
        AlikeFlip(c, Sweep(b, now), b, now);
        AlikeChain(c, Sweep(a, now), a, b, now);
        AlikeChain(c, Sweep(a, now), b, Sweep(b, now), now);
      case _ =>
    }
  }

  lemma {:induction false} SameAnswers(c: Config, a: State, b: State, run: seq<Timed>, now: nat)
    requires Alike(c, a, b, now) && StateOk(c, a, now) && StateOk(c, b, now) && Forward(run, now)
    ensures Answers(c, a, run) == Answers(c, b, run)
    decreases |run|
  {
    if run != [] {
      hide Alike, StateOk, Do;
      var t := run[0].now;
      AlikeLater(c, a, b, now, t);
      OkLater(c, a, now, t);
      OkLater(c, b, now, t);
      SameAnswer(c, a, b, run[0].op, t);
      SameAnswers(c, Do(c, a, run[0].op, t).0, Do(c, b, run[0].op, t).0, run[1..], t);
    }
  }

  /** `sweep_idle` changes no later answer, whatever calls follow while the clock does not run back. */
  lemma SweepInvisible(c: Config, s: State, now: nat, run: seq<Timed>)
    requires StateOk(c, s, now) && Forward(run, now)
    ensures Answers(c, Sweep(s, now), run) == Answers(c, s, run)
  {
    hide *;
    SweepAlike(c, s, now);
    SameAnswers(c, Sweep(s, now), s, run, now);
  }

  function LastTime(run: seq<Timed>, from: nat): nat {
    if run == [] then from else run[|run| - 1].now
  }

  lemma {:induction false} RunOk(c: Config, s: State, run: seq<Timed>, now: nat)
    requires StateOk(c, s, now) && Forward(run, now)
    ensures StateOk(c, After(c, s, run), LastTime(run, now))
    decreases |run|
  {
    if run != [] {
      hide StateOk, Do, Alike;
      var t := run[0].now;
      OkLater(c, s, now, t);
      AlikeSelf(c, s, t);
      SameAnswer(c, s, s, run[0].op, t);
      RunOk(c, Do(c, s, run[0].op, t).0, run[1..], t);
    }
  }

  lemma AlikeSelf(c: Config, s: State, now: nat)
    ensures Alike(c, s, s, now)
  {
  }

  lemma {:induction false} AnswersSplit(c: Config, s: State, a: seq<Timed>, b: seq<Timed>)
    ensures Answers(c, s, a + b) == Answers(c, s, a) + Answers(c, After(c, s, a), b)
    decreases |a|
  {
    if a == [] {
      assert a + b == b;
      NoCalls(c, s);
      hide *;
      assert [] + Answers(c, s, b) == Answers(c, s, b);
    } else {
      hide *;
      var next := Do(c, s, a[0].op, a[0].now);
      AnswersFirst(c, s, a);
      AnswersFirst(c, s, a + b);
      AnswersSplit(c, next.0, a[1..], b);
      assert (a + b)[0] == a[0] && (a + b)[1..] == a[1..] + b;
      Regroup([next.1], Answers(c, next.0, a[1..]), Answers(c, After(c, s, a), b));
    }
  }

  lemma NoCalls(c: Config, s: State)
    ensures Answers(c, s, []) == [] && After(c, s, []) == s
  {
  }

  lemma Regroup(x: seq<Answer>, y: seq<Answer>, z: seq<Answer>)
    ensures x + (y + z) == x + y + z
  {
  }

  lemma AnswersFirst(c: Config, s: State, run: seq<Timed>)
    requires run != []
    ensures var next := Do(c, s, run[0].op, run[0].now);
            && Answers(c, s, run) == [next.1] + Answers(c, next.0, run[1..])
            && After(c, s, run) == After(c, next.0, run[1..])
  {
    hide Do;
  }

  /** A sweep put anywhere into any run of a fresh server leaves all other answers as they were. */
  lemma SweepAnywhere(c: Config, before: seq<Timed>, now: nat, after: seq<Timed>)
    requires Forward(before, 0) && LastTime(before, 0) <= now && Forward(after, now)
    ensures Answers(c, START, before + [Timed(SweepIdle, now)] + after)
         == Answers(c, START, before) + [Done] + Answers(c, After(c, START, before), after)
  {
    hide After, StateOk, Answers, Do, Sweep, Forward;
    var mid := After(c, START, before);
    var sweep := [Timed(SweepIdle, now)];
    StartOk(c);
    RunOk(c, START, before, 0);
    OkLater(c, mid, LastTime(before, 0), now);
    SweepInvisible(c, mid, now, after);
    assert before + sweep + after == before + (sweep + after);
    AnswersSplit(c, START, before, sweep + after);
    SweepFirst(c, mid, now, after);
    assert Answers(c, START, before) + ([Done] + Answers(c, mid, after)) ==
        Answers(c, START, before) + [Done] + Answers(c, mid, after);
  }

  lemma StartOk(c: Config)
    ensures StateOk(c, START, 0)
  {
  }

  lemma SweepFirst(c: Config, s: State, now: nat, after: seq<Timed>)
    ensures Answers(c, s, [Timed(SweepIdle, now)] + after) == [Done] + Answers(c, Sweep(s, now), after)
  {
    hide Sweep;
    var run := [Timed(SweepIdle, now)] + after;
    assert run[0] == Timed(SweepIdle, now) && run[1..] == after;
  }

  // ---- mail, over whole runs ----

  lemma {:induction false} AfterLast(c: Config, s: State, run: seq<Timed>)
    requires run != []
    ensures var (init, x) := (run[..|run| - 1], run[|run| - 1]);
            After(c, s, run) == Do(c, After(c, s, init), x.op, x.now).0
    decreases |run|
  {
    hide Do;
    if |run| == 1 {
      assert run[1..] == [] && run[..0] == [];
    } else {
      AfterLast(c, Do(c, s, run[0].op, run[0].now).0, run[1..]);
      assert run[1..][..|run| - 2] == run[..|run| - 1][1..];
    }
  }

  lemma {:induction false} ForwardLast(run: seq<Timed>, from: nat)
    requires run != [] && Forward(run, from)
    ensures Forward(run[..|run| - 1], from) && LastTime(run[..|run| - 1], from) <= run[|run| - 1].now
    decreases |run|
  {
    if |run| > 1 {
      ForwardLast(run[1..], run[0].now);
      var init := run[..|run| - 1];
      assert init[1..] == run[1..][..|run| - 2];
      assert |init| > 1 ==> init[|init| - 1] == init[1..][|init| - 2];
    }
  }

  /** The answer to the last call of a run of a fresh server. */
  function LastAnswer(c: Config, run: seq<Timed>): Answer
    requires run != []
  {
    Do(c, After(c, START, run[..|run| - 1]), run[|run| - 1].op, run[|run| - 1].now).1
  }

  /** The message a run leaves in a slot, told from its calls and answers alone: a take always empties the slot. */
  function Pending(c: Config, run: seq<Timed>, slot: Slot): Option<Mail> {
    if run == [] then None
    else
      var x := run[|run| - 1];
      if x.op == Fetch(slot) then None
      else if x.op.Post? && x.op.slot == slot && LastAnswer(c, run) == Granted(true)
        then Some(Mail(x.op.blob, x.now + PAIR_TTL_SECS))
      else Pending(c, run[..|run| - 1], slot)
  }

  /** What a taker at `t` would find. */
  function Found(m: Option<Mail>, t: nat): Option<nat> {
    if m.Some? && m.value.expiry > t then Some(m.value.blob) else None
  }

  function InBox(m: Mailbox, slot: Slot): Option<Mail> {
    if slot in m then Some(m[slot]) else None
  }

  /** One call's effect on what a later taker of `slot` finds. */
  lemma MailStep(c: Config, s: State, op: Op, now: nat, slot: Slot, t: nat)
    requires now <= t
    ensures var (s', a) := Do(c, s, op, now);
            Found(InBox(s'.pairing, slot), t) ==
              if op == Fetch(slot) then None
              else if op.Post? && op.slot == slot && a == Granted(true)
                then Found(Some(Mail(op.blob, now + PAIR_TTL_SECS)), t)
              else Found(InBox(s.pairing, slot), t)
  {
    hide TakeFrom, RecordIn, RefundIn, AddQuota, ReleaseQuota, SweepBuckets, SweepCalls;
  }

  /** Over every run, a taker finds exactly what the calls and answers so far say is pending and not expired. */
  lemma {:induction false} MailExact(c: Config, run: seq<Timed>, slot: Slot, t: nat)
    requires Forward(run, 0) && LastTime(run, 0) <= t
    ensures Found(InBox(After(c, START, run).pairing, slot), t) == Found(Pending(c, run, slot), t)
    decreases |run|
  {
    hide Do, InBox;
    if run != [] {
      var init, x := run[..|run| - 1], run[|run| - 1];
      ForwardLast(run, 0);
      AfterLast(c, START, run);
      MailExact(c, init, slot, t);
      MailStep(c, After(c, START, init), x.op, x.now, slot, t);
    } else {
      assert InBox(After(c, START, run).pairing, slot) == None by { NothingPosted(slot); }
    }
  }

  lemma NothingPosted(slot: Slot)
    ensures InBox(START.pairing, slot) == None
  {
  }

  lemma FetchAnswers(c: Config, s: State, slot: Slot, now: nat)
    ensures Do(c, s, Fetch(slot), now).1 == Message(Found(InBox(s.pairing, slot), now))
  {
  }

  lemma {:induction false} PendingStays(c: Config, run: seq<Timed>, more: seq<Timed>, slot: Slot)
    requires forall x :: x in more ==> !(x.op.Post? && x.op.slot == slot) && x.op != Fetch(slot)
    ensures Pending(c, run + more, slot) == Pending(c, run, slot)
    decreases |more|
  {
    hide Do, After;
    if more == [] {
      assert run + more == run;
    } else {
      var init := more[..|more| - 1];
      PendingStays(c, run, init, slot);
      assert (run + more)[..|run + more| - 1] == run + init;
      assert more[|more| - 1] in more;
    }
  }

  /**
   In any run, a message posted with success is handed to the first taker before its expiry, whatever
   calls on other slots and devices fall between.
   */
  lemma MailDelivered(c: Config, before: seq<Timed>, slot: Slot, blob: nat, now: nat, between: seq<Timed>, t: nat)
    requires forall x :: x in between ==> !(x.op.Post? && x.op.slot == slot) && x.op != Fetch(slot)
    requires var run := before + [Timed(Post(slot, blob), now)];
             LastAnswer(c, run) == Granted(true) && Forward(run + between + [Timed(Fetch(slot), t)], 0)
    ensures var run := before + [Timed(Post(slot, blob), now)] + between + [Timed(Fetch(slot), t)];
            LastAnswer(c, run) == Message(if t < now + PAIR_TTL_SECS then Some(blob) else None)
  {
    var posted := before + [Timed(Post(slot, blob), now)];
    var all := posted + between + [Timed(Fetch(slot), t)];
    assert all[..|all| - 1] == posted + between && all[|all| - 1] == Timed(Fetch(slot), t);
    ForwardLast(all, 0);
    MailExact(c, posted + between, slot, t);
    FetchAnswers(c, After(c, START, posted + between), slot, t);
    PendingStays(c, posted, between, slot);
    hide Do, After, Forward;
    assert posted[|posted| - 1] == Timed(Post(slot, blob), now);
  }

  lemma {:induction false} NothingPending(c: Config, run: seq<Timed>, t: nat, more: seq<Timed>, slot: Slot)
    requires forall x :: x in more ==> !(x.op.Post? && x.op.slot == slot)
    ensures Pending(c, run + [Timed(Fetch(slot), t)] + more, slot) == None
    decreases |more|
  {
    hide Do, After;
    var taken := run + [Timed(Fetch(slot), t)];
    if more == [] {
      assert taken + more == taken && taken[|taken| - 1] == Timed(Fetch(slot), t);
    } else {
      var init := more[..|more| - 1];
      NothingPending(c, run, t, init, slot);
      assert (taken + more)[..|taken + more| - 1] == taken + init;
      assert more[|more| - 1] in more;
    }
  }

  /** Delivered at most once: after a take, no later take of the slot finds anything until a new post. */
  lemma MailOnce(c: Config, before: seq<Timed>, slot: Slot, t: nat, between: seq<Timed>, u: nat)
    requires forall x :: x in between ==> !(x.op.Post? && x.op.slot == slot)
    requires Forward(before + [Timed(Fetch(slot), t)] + between + [Timed(Fetch(slot), u)], 0)
    ensures LastAnswer(c, before + [Timed(Fetch(slot), t)] + between + [Timed(Fetch(slot), u)]) == Message(None)
  {
    var run := before + [Timed(Fetch(slot), t)] + between;
    var all := run + [Timed(Fetch(slot), u)];
    assert all[..|all| - 1] == run && all[|all| - 1] == Timed(Fetch(slot), u);
    ForwardLast(all, 0);
    MailExact(c, run, slot, u);
    FetchAnswers(c, After(c, START, run), slot, u);
    NothingPending(c, before, t, between, slot);
  }

  lemma LiveFewer(m: Mailbox, now: nat)
    ensures |Live(m, now)| <= |m|
  {
    assert Live(m, now).Keys <= m.Keys;
    FewerKeys(Live(m, now).Keys, m.Keys);
    assert |Live(m, now)| == |Live(m, now).Keys| && |m| == |m.Keys|;
  }

  lemma {:induction false} FewerKeys(a: set<Slot>, b: set<Slot>)
    requires a <= b
    ensures |a| <= |b|
  {
    if a != {} {
      var x :| x in a;
      FewerKeys(a - {x}, b - {x});
    }
  }

  lemma MailStepCapped(c: Config, s: State, op: Op, now: nat)
    requires |s.pairing| <= MAX_PAIR_SLOTS
    ensures |Do(c, s, op, now).0.pairing| <= MAX_PAIR_SLOTS
  {
    hide TakeFrom, RecordIn, RefundIn, AddQuota, ReleaseQuota, SweepBuckets, SweepCalls, Live;
    LiveFewer(s.pairing, now);
    var live := Live(s.pairing, now);
    if op.Post? && op.slot in live {
      assert live[op.slot := Mail(op.blob, now + PAIR_TTL_SECS)].Keys == live.Keys;
    } else if op.Fetch? && op.slot in live {
      var left := map x | x in live && x != op.slot :: live[x];
      FewerKeys(left.Keys, live.Keys);
      assert |left| == |left.Keys| && |live| == |live.Keys|;
    }
  }

  /** In every reachable state the mailbox is within its cap. */
  lemma {:induction false} MailCapped(c: Config, run: seq<Timed>)
    ensures |After(c, START, run).pairing| <= MAX_PAIR_SLOTS
    decreases |run|
  {
    hide Do;
    if run != [] {
      MailCapped(c, run[..|run| - 1]);
      AfterLast(c, START, run);
      MailStepCapped(c, After(c, START, run[..|run| - 1]), run[|run| - 1].op, run[|run| - 1].now);
    }
  }

  // ---- the state behind the mutex ----

  /** `ServerState`: one map per kind of entry, each call changing its own. */
  class ServerState {
    const config: Config
    var writeBuckets: Buckets
    var readBuckets: Buckets
    var sigchainCalls: Calls
    var quotas: map<Device, Quota>
    var pairing: Mailbox

    function Value(): State
      reads this
    {
      State(writeBuckets, readBuckets, sigchainCalls, quotas, pairing)
    }

    constructor (c: Config)
      ensures config == c && Value() == START
    {
      config := c;
      writeBuckets, readBuckets, sigchainCalls, quotas, pairing := map[], map[], map[], map[], map[];
    }

    method TakeWriteBytes(d: Device, n: nat, now: nat) returns (ok: bool)
      modifies this
      ensures (Value(), Granted(ok)) == Do(config, old(Value()), TakeWrite(d, n), now)
    {
      if d !in writeBuckets {
        writeBuckets := writeBuckets[d := NewBucket(WRITE_BURST_BYTES, config.writeRate, now)];
      }
      var (b, taken) := Take(writeBuckets[d], n, now);
      writeBuckets := writeBuckets[d := b];
      assert writeBuckets == old(writeBuckets)[d := b];
      ok := taken;
    }

    method TakeReadBytes(d: Device, n: nat, now: nat) returns (ok: bool)
      modifies this
      ensures (Value(), Granted(ok)) == Do(config, old(Value()), TakeRead(d, n), now)
    {
      if d !in readBuckets {
        readBuckets := readBuckets[d := NewBucket(WRITE_BURST_BYTES, config.readRate, now)];
      }
      var (b, taken) := Take(readBuckets[d], n, now);
      readBuckets := readBuckets[d := b];
      assert readBuckets == old(readBuckets)[d := b];
      ok := taken;
    }

    method SigchainRecord(d: Device, n: nat, now: nat) returns (ok: bool)
      modifies this
      ensures (Value(), Granted(ok)) == Do(config, old(Value()), RecordCall(d, n), now)
    {
      if d !in sigchainCalls {
        sigchainCalls := sigchainCalls[d := Window(HOUR_SECS, MAX_SIGCHAIN_ENTRIES_PER_HOUR, [])];
      }
      var (w, recorded) := Record(sigchainCalls[d], now, n);
      sigchainCalls := sigchainCalls[d := w];
      assert sigchainCalls == old(sigchainCalls)[d := w];
      ok := recorded;
    }

    method SigchainRefund(d: Device, n: nat, ghost now: nat)
      modifies this
      ensures (Value(), Done) == Do(config, old(Value()), RefundCall(d, n), now)
    {
      if d in sigchainCalls {
        sigchainCalls := sigchainCalls[d := Refund(sigchainCalls[d], n)];
      }
    }

    method ChargeQuota(d: Device, n: nat, ghost now: nat) returns (ok: bool)
      modifies this
      ensures (Value(), Granted(ok)) == Do(config, old(Value()), Charge(d, n), now)
    {
      if config.cap == 0 {
        return true;
      }
      if d !in quotas {
        quotas := quotas[d := Quota(config.cap, 0)];
      }
      var q := quotas[d];
      ok := q.used + n <= U64_MAX && q.used + n <= q.limit;
      if ok {
        quotas := quotas[d := q.(used := q.used + n)];
      }
      assert quotas == old(quotas)[d := quotas[d]];
    }

    method ReleaseBytes(d: Device, n: nat, ghost now: nat)
      modifies this
      ensures (Value(), Done) == Do(config, old(Value()), Release(d, n), now)
    {
      if d in quotas {
        quotas := quotas[d := quotas[d].(used := SatSub(quotas[d].used, n))];
      }
    }

    method PostMail(slot: Slot, blob: nat, now: nat) returns (ok: bool)
      modifies this
      ensures (Value(), Granted(ok)) == Do(config, old(Value()), Post(slot, blob), now)
    {
      pairing := Live(pairing, now);
      if |pairing| >= MAX_PAIR_SLOTS && slot !in pairing {
        return false;
      }
      pairing := pairing[slot := Mail(blob, now + PAIR_TTL_SECS)];
      ok := true;
    }

    method TakeMail(slot: Slot, now: nat) returns (blob: Option<nat>)
      modifies this
      ensures (Value(), Message(blob)) == Do(config, old(Value()), Fetch(slot), now)
    {
      pairing := Live(pairing, now);
      if slot !in pairing {
        return None;
      }
      blob := Some(pairing[slot].blob);
      pairing := map x | x in pairing && x != slot :: pairing[x];
    }

    method SweepNow(now: nat)
      modifies this
      ensures (Value(), Done) == Do(config, old(Value()), SweepIdle, now)
    {
      writeBuckets := SweepBuckets(writeBuckets, now);
      readBuckets := SweepBuckets(readBuckets, now);
      sigchainCalls := SweepCalls(sigchainCalls, now);
      pairing := Live(pairing, now);
    }
  }
}
