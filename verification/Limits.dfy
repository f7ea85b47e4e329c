/** Token buckets and trailing-window counters, with the time of each call as an argument. */
module Limits {
  import opened Prelude

  /** `u64::saturating_mul`. */
  function SatMul(a: nat, b: nat): nat {
    Min(a * b, U64_MAX)
  }

  // ---- token buckets ----

  datatype Bucket = Bucket(capacity: nat, rate: nat, tokens: nat, last: nat)

  ghost predicate BucketOk(b: Bucket) {
    b.tokens <= b.capacity <= U64_MAX
  }

  function NewBucket(capacity: nat, rate: nat, now: nat): Bucket {
    Bucket(capacity, rate, capacity, now)
  }

  function Refill(b: Bucket, now: nat): Bucket {
    var elapsed := SatSub(now, b.last);
    if elapsed > 0 then
      b.(tokens := Min(SatAdd(b.tokens, SatMul(elapsed, b.rate)), b.capacity), last := now)
    else b
  }

  function Take(b: Bucket, amount: nat, now: nat): (Bucket, bool) {
    var r := Refill(b, now);
    if r.tokens >= amount then (r.(tokens := r.tokens - amount), true) else (r, false)
  }

  class TokenBucket {
    var b: Bucket

    constructor (capacity: nat, rate: nat, now: nat)
      ensures b == NewBucket(capacity, rate, now)
    {
      b := Bucket(capacity, rate, capacity, now);
    }

    method RefillTo(now: nat)
      modifies this
      ensures b == Refill(old(b), now)
    {
      var elapsed := SatSub(now, b.last);
      if elapsed > 0 {
        var added := SatMul(elapsed, b.rate);
        b := b.(tokens := Min(SatAdd(b.tokens, added), b.capacity));
        b := b.(last := now);
      }
    }

    method TryTake(amount: nat, now: nat) returns (ok: bool)
      modifies this
      ensures b == Take(old(b), amount, now).0 && ok == Take(old(b), amount, now).1
    {
      RefillTo(now);
      ok := b.tokens >= amount;
      if ok {
        b := b.(tokens := b.tokens - amount);
      }
    }

    method IsFull(now: nat) returns (full: bool)
      modifies this
      ensures b == Refill(old(b), now) && full == (b.tokens == b.capacity)
    {
      RefillTo(now);
      full := b.tokens == b.capacity;
    }
  }

  /** What a rate yields between two times. */
  function Accrued(rate: nat, t0: nat, t1: nat): nat
    requires t0 <= t1
  {
    rate * (t1 - t0)
  }

  lemma AccruedSplit(rate: nat, t0: nat, t1: nat, t2: nat)
    requires t0 <= t1 <= t2
    ensures Accrued(rate, t0, t0) == 0 && Accrued(rate, t0, t1) + Accrued(rate, t1, t2) == Accrued(rate, t0, t2)
  {
  }

  /** Saturation aside, a refill adds the elapsed time's worth and caps it. */
  lemma RefillExact(b: Bucket, now: nat)
    requires BucketOk(b) && b.last <= now
    ensures Refill(b, now) == b.(tokens := Min(b.tokens + Accrued(b.rate, b.last, now), b.capacity), last := now)
  {
    assert (now - b.last) * b.rate == b.rate * (now - b.last);
    AccruedSplit(b.rate, b.last, b.last, b.last);
  }

  lemma TakeBound(b: Bucket, amount: nat, now: nat)
    requires BucketOk(b) && b.last <= now
    ensures
      var (b', ok) := Take(b, amount, now);
      && BucketOk(b') && b'.capacity == b.capacity && b'.rate == b.rate && b'.last == now
      && (if ok then amount else 0) + b'.tokens <= b.capacity
      && (if ok then amount else 0) + b'.tokens <= b.tokens + Accrued(b.rate, b.last, now)
  {
    RefillExact(b, now);
  }

  /** A request for bytes: how many, and when. */
  datatype Ask = Ask(amount: nat, now: nat)

  ghost predicate ClockRuns(asks: seq<Ask>, from: nat) {
    forall i :: 0 <= i < |asks| ==> from <= asks[i].now && (i > 0 ==> asks[i - 1].now <= asks[i].now)
  }

  /** The bucket and the bytes granted after serving `asks` in order. */
  function Serve(b: Bucket, asks: seq<Ask>): (Bucket, nat) {
    if asks == [] then (b, 0)
    else
      var (b', granted) := Serve(b, asks[..|asks| - 1]);
      var a := asks[|asks| - 1];
      var (b'', ok) := Take(b', a.amount, a.now);
      (b'', granted + if ok then a.amount else 0)
  }

  lemma {:induction false} ServeBound(b: Bucket, asks: seq<Ask>)
    requires BucketOk(b) && asks != [] && ClockRuns(asks, b.last)
    ensures asks[0].now <= asks[|asks| - 1].now
    ensures
      var (b', granted) := Serve(b, asks);
      var n := |asks| - 1;
      && BucketOk(b') && b'.capacity == b.capacity && b'.rate == b.rate && b'.last == asks[n].now
      && granted + b'.tokens <= b.capacity + Accrued(b.rate, asks[0].now, asks[n].now)
  {
    hide Take, Accrued;
    var n := |asks| - 1;
    var a := asks[n];
    if n == 0 {
      assert asks[..0] == [];
      TakeBound(b, a.amount, a.now);
      AccruedSplit(b.rate, a.now, a.now, a.now);
    } else {
      var init := asks[..n];
      assert ClockRuns(init, b.last);
      ServeBound(b, init);
      var b' := Serve(b, init).0;
      TakeBound(b', a.amount, a.now);
      AccruedSplit(b.rate, asks[0].now, asks[n - 1].now, a.now);
    }
  }

  /** Whatever the clock does, also running back, no second is credited twice. */
  lemma {:induction false} AnyClockBound(b: Bucket, asks: seq<Ask>)
    requires BucketOk(b)
    ensures
      var (b', granted) := Serve(b, asks);
      && BucketOk(b') && b'.capacity == b.capacity && b'.rate == b.rate && b.last <= b'.last
      && (forall a :: a in asks ==> a.now <= b'.last)
      && (b'.last == b.last || exists a :: a in asks && a.now == b'.last)
      && granted + b'.tokens <= b.tokens + Accrued(b.rate, b.last, b'.last)
  {
    hide Accrued;
    AccruedSplit(b.rate, b.last, b.last, b.last);
    if asks != [] {
      var init, a := asks[..|asks| - 1], asks[|asks| - 1];
      assert asks == init + [a];
      AnyClockBound(b, init);
      var mid := Serve(b, init).0;
      if mid.last <= a.now {
        TakeBound(mid, a.amount, a.now);
        AccruedSplit(b.rate, b.last, mid.last, a.now);
        hide Take;
        assert a in asks;
      } else {
        assert Refill(mid, a.now) == mid;
        if mid.last != b.last {
          var x :| x in init && x.now == mid.last;
          assert x in asks;
        }
      }
    }
  }

  lemma {:induction false} ServeSplit(b: Bucket, asks: seq<Ask>, k: nat)
    requires k <= |asks|
    ensures
      var (mid, g) := Serve(b, asks[..k]);
      var (end, h) := Serve(mid, asks[k..]);
      Serve(b, asks) == (end, g + h)
  {
    if k == |asks| {
      assert asks[..k] == asks && asks[k..] == [];
    } else {
      var n := |asks| - 1;
      ServeSplit(b, asks[..n], k);
      assert asks[..n][..k] == asks[..k] && asks[..n][k..] == asks[k..][..n - k];
    }
  }

  lemma MidBucket(b: Bucket, asks: seq<Ask>, i: nat)
    requires BucketOk(b) && ClockRuns(asks, b.last) && i < |asks|
    ensures
      var mid := Serve(b, asks[..i]).0;
      && BucketOk(mid) && mid.capacity == b.capacity && mid.rate == b.rate
      && forall k :: i <= k < |asks| ==> mid.last <= asks[k].now
  {
    hide Take, Accrued;
    ClockSorted(asks, b.last);
    if i > 0 {
      assert ClockRuns(asks[..i], b.last);
      ServeBound(b, asks[..i]);
    }
  }

  lemma {:induction false} ClockSorted(asks: seq<Ask>, from: nat)
    requires ClockRuns(asks, from)
    ensures forall i, j :: 0 <= i <= j < |asks| ==> asks[i].now <= asks[j].now
  {
    if asks != [] {
      var n := |asks| - 1;
      assert ClockRuns(asks[..n], from);
      ClockSorted(asks[..n], from);
      forall i, j | 0 <= i <= j < |asks| ensures asks[i].now <= asks[j].now {
        if i < j == n {
          assert asks[..n][i].now <= asks[..n][n - 1].now;
        } else if j < n {
          assert asks[..n][i].now <= asks[..n][j].now;
        }
      }
    }
  }

  /** Over any stretch of any run, the bytes granted are at most the burst plus the rate times the elapsed time. */
  lemma StretchBound(b: Bucket, asks: seq<Ask>, i: nat, j: nat)
    requires BucketOk(b) && ClockRuns(asks, b.last) && i < j <= |asks|
    ensures
      var before := Serve(b, asks[..i]).1;
      var upto := Serve(b, asks[..j]).1;
      && asks[i].now <= asks[j - 1].now
      && before <= upto <= before + b.capacity + Accrued(b.rate, asks[i].now, asks[j - 1].now)
  {
    hide Take, Accrued, Serve;
    var run := asks[..j];
    ServeSplit(b, run, i);
    assert run[..i] == asks[..i];
    var mid := Serve(b, asks[..i]).0;
    MidBucket(b, asks, i);
    var rest := run[i..];
    assert forall k :: 0 <= k < |rest| ==> rest[k] == asks[i + k];
    assert ClockRuns(rest, mid.last);
    ServeBound(mid, rest);
    assert Serve(b, run).1 == Serve(b, asks[..i]).1 + Serve(mid, rest).1;
  }

  /** `x` more bytes at `now` keep every stretch of the run, up to `now`, within the burst and the rate. */
  ghost predicate Affordable(b: Bucket, asks: seq<Ask>, now: nat, x: int) {
    forall j :: 0 <= j <= |asks| ==> Fits(b, asks, now, x, j)
  }

  ghost predicate Fits(b: Bucket, asks: seq<Ask>, now: nat, x: int, j: nat)
    requires j <= |asks|
  {
    var since := if j < |asks| then asks[j].now else now;
    Serve(b, asks).1 - Serve(b, asks[..j]).1 + x <= b.capacity + b.rate * (now - since)
  }

  /** The tokens a call at `now` finds are the most that is still affordable. */
  lemma {:induction false} TokensExact(b: Bucket, asks: seq<Ask>, now: nat, x: int)
    requires BucketOk(b) && b.tokens == b.capacity && ClockRuns(asks, b.last) && b.last <= now
    requires asks != [] ==> asks[|asks| - 1].now <= now
    ensures x <= Refill(Serve(b, asks).0, now).tokens <==> Affordable(b, asks, now, x)
  {
    if asks == [] {
      RefillExact(b, now);
      assert asks[..0] == [];
      AccruedSplit(b.rate, b.last, b.last, now);
      hide Refill, Accrued, Serve;
      assert Affordable(b, asks, now, x) <==> Fits(b, asks, now, x, 0);
      assert Fits(b, asks, now, x, 0) <==> x <= b.capacity by { NoStretch(b.rate, now); }
    } else {
      var n := |asks| - 1;
      var init, a := asks[..n], asks[n];
      assert ClockRuns(init, b.last);
      var mid := Refill(Serve(b, init).0, a.now).tokens;
      var gain, g := b.rate * (now - a.now), Serve(b, asks).1 - Serve(b, init).1;
      LastServed(b, asks, now);
      assert Accrued(b.rate, a.now, now) == gain;
      TokensExact(b, init, a.now, x + g - gain);
      hide Refill, Accrued, Serve, ClockRuns;
      AffordableNext(b, asks, now, x);
    }
  }

  lemma NoStretch(rate: nat, t: int)
    ensures rate * (t - t) == 0
  {
  }

  lemma TakeThenRefill(b: Bucket, amount: nat, now: nat, later: nat)
    requires BucketOk(b) && b.last <= now <= later
    ensures var (was, got) := (Refill(b, now).tokens, Take(b, amount, now));
            && got.1 == (was >= amount) && got.0.rate == b.rate && got.0.capacity == b.capacity
            && Refill(got.0, later).tokens ==
                 Min(was - (if got.1 then amount else 0) + Accrued(b.rate, now, later), b.capacity)
  {
    RefillExact(b, now);
    var got := Take(b, amount, now).0;
    assert BucketOk(got) && got.last == now && got.rate == b.rate && got.capacity == b.capacity;
    RefillExact(got, later);
    hide Refill, Accrued;
  }

  /** The last ask of a run, and the refill up to a later call. */
  lemma LastServed(b: Bucket, asks: seq<Ask>, now: nat)
    requires BucketOk(b) && asks != [] && ClockRuns(asks, b.last) && asks[|asks| - 1].now <= now
    ensures var (n, a) := (|asks| - 1, asks[|asks| - 1]);
            var mid := Refill(Serve(b, asks[..n]).0, a.now).tokens;
            var g := Serve(b, asks).1 - Serve(b, asks[..n]).1;
            && g == (if mid >= a.amount then a.amount else 0)
            && Refill(Serve(b, asks).0, now).tokens == Min(mid - g + Accrued(b.rate, a.now, now), b.capacity)
  {
    hide *;
    var (n, a) := (|asks| - 1, asks[|asks| - 1]);
    MidBucket(b, asks, n);
    ServeLast(b, asks);
    var was := Serve(b, asks[..n]).0;
    assert BucketOk(was) && was.rate == b.rate && was.capacity == b.capacity && was.last <= a.now;
    TakeThenRefill(was, a.amount, a.now, now);
  }

  lemma ServeLast(b: Bucket, asks: seq<Ask>)
    requires asks != []
    ensures var (n, a) := (|asks| - 1, asks[|asks| - 1]);
            var (was, got) := (Serve(b, asks[..n]), Take(Serve(b, asks[..n]).0, a.amount, a.now));
            Serve(b, asks) == (got.0, was.1 + if got.1 then a.amount else 0)
  {
    hide Take;
  }

  lemma AffordableNext(b: Bucket, asks: seq<Ask>, now: nat, x: int)
    requires asks != [] && asks[|asks| - 1].now <= now
    ensures var (n, a) := (|asks| - 1, asks[|asks| - 1]);
            var (gain, g) := (b.rate * (now - a.now), Serve(b, asks).1 - Serve(b, asks[..n]).1);
            Affordable(b, asks, now, x) <==> x <= b.capacity && Affordable(b, asks[..n], a.now, x + g - gain)
  {
    hide Serve;
    var (n, a) := (|asks| - 1, asks[|asks| - 1]);
    var (gain, g) := (b.rate * (now - a.now), Serve(b, asks).1 - Serve(b, asks[..n]).1);
    var y := x + g - gain;
    NoStretch(b.rate, now);
    NoStretch(b.rate, a.now);
    assert asks[..n + 1] == asks;
    assert Fits(b, asks, now, x, n + 1) <==> x <= b.capacity;
    forall j: nat | j <= n ensures Fits(b, asks, now, x, j) <==> Fits(b, asks[..n], a.now, y, j) {
      assert asks[..n][..j] == asks[..j];
      var since := asks[j].now;
      assert j < n ==> asks[..n][j] == asks[j];
      assert b.rate * (now - since) == gain + b.rate * (a.now - since) by { Stretches(b.rate, since, a.now, now); }
    }
    hide Fits;
    if Affordable(b, asks, now, x) {
      forall j: nat | j <= n ensures Fits(b, asks[..n], a.now, y, j) {
        assert Fits(b, asks, now, x, j);
      }
    }
    if x <= b.capacity && Affordable(b, asks[..n], a.now, y) {
      forall j: nat | j <= n + 1 ensures Fits(b, asks, now, x, j) {
        if j <= n { assert Fits(b, asks[..n], a.now, y, j); }
      }
    }
  }

  lemma Stretches(rate: nat, t0: int, t1: int, t2: int)
    ensures rate * (t2 - t0) == rate * (t2 - t1) + rate * (t1 - t0)
  {
  }

  /**
   After any run of a bucket that started full, an ask is granted if and only if it keeps every
   stretch of the run up to it within the burst plus the rate times the elapsed time.
   */
  lemma GrantExact(b: Bucket, asks: seq<Ask>, ask: Ask)
    requires BucketOk(b) && b.tokens == b.capacity && ClockRuns(asks + [ask], b.last)
    ensures Take(Serve(b, asks).0, ask.amount, ask.now).1 <==> Affordable(b, asks, ask.now, ask.amount)
  {
    var all := asks + [ask];
    forall i | 0 <= i < |asks| ensures b.last <= asks[i].now && (i > 0 ==> asks[i - 1].now <= asks[i].now) {
      assert all[i] == asks[i] && (i > 0 ==> all[i - 1] == asks[i - 1]);
    }
    assert all[|asks|] == ask && (asks != [] ==> all[|asks| - 1] == asks[|asks| - 1]);
    assert asks != [] ==> asks[|asks| - 1].now <= ask.now;
    TokensExact(b, asks, ask.now, ask.amount);
    hide Affordable, Serve, ClockRuns;
  }

  // ---- windowed counters ----

  /** Recorded times in order of recording, with the window length and the number it may hold. */
  datatype Window = Window(window: nat, max: nat, events: seq<nat>)

  function Pruned(window: nat, events: seq<nat>, now: nat): seq<nat> {
    if events == [] then []
    else if SatAdd(events[0], window) <= now then Pruned(window, events[1..], now)
    else events
  }

  function Repeat(now: nat, n: nat): (r: seq<nat>)
    ensures |r| == n && forall i :: 0 <= i < n ==> r[i] == now
  {
    seq(n, i => now)
  }

  function Record(w: Window, now: nat, n: nat): (Window, bool) {
    var left := Pruned(w.window, w.events, now);
    if SatAdd(|left|, n) <= w.max then (w.(events := left + Repeat(now, n)), true) else (w.(events := left), false)
  }

  /** Undo the `n` most recent records. */
  function Refund(w: Window, n: nat): Window {
    w.(events := w.events[..SatSub(|w.events|, n)])
  }

  class WindowCounter {
    var w: Window

    constructor (window: nat, max: nat)
      ensures w == Window(window, max, [])
    {
      w := Window(window, max, []);
    }

    method Prune(now: nat)
      modifies this
      ensures w == old(w).(events := Pruned(old(w).window, old(w).events, now))
    {
      while w.events != []
        invariant w.window == old(w).window && w.max == old(w).max
        invariant Pruned(w.window, w.events, now) == Pruned(old(w).window, old(w).events, now)
        decreases |w.events|
      {
        if SatAdd(w.events[0], w.window) > now {
          return;
        }
        w := w.(events := w.events[1..]);
      }
    }

    method TryRecord(now: nat, n: nat) returns (ok: bool)
      modifies this
      ensures w == Record(old(w), now, n).0 && ok == Record(old(w), now, n).1
    {
      Prune(now);
      ok := SatAdd(|w.events|, n) <= w.max;
      if ok {
        w := w.(events := w.events + Repeat(now, n));
      }
    }

    method RefundLast(n: nat)
      modifies this
      ensures w == Refund(old(w), n)
    {
      for i := 0 to n
        invariant w == Refund(old(w), i)
      {
        if w.events != [] {
          w := w.(events := w.events[..|w.events| - 1]);
        }
      }
    }

    method Count(now: nat) returns (c: nat)
      modifies this
      ensures w == old(w).(events := Pruned(old(w).window, old(w).events, now)) && c == |w.events|
    {
      Prune(now);
      c := |w.events|;
    }
  }

  ghost predicate Sorted(s: seq<nat>) {
    forall i, j :: 0 <= i < j < |s| ==> s[i] <= s[j]
  }

  /** Pruning drops a prefix; while the clock has not reached its end, only expired events. */
  lemma {:induction false} PrunedIsSuffix(window: nat, events: seq<nat>, now: nat) returns (k: nat)
    ensures k <= |events| && Pruned(window, events, now) == events[k..]
    ensures forall i :: 0 <= i < k ==> SatAdd(events[i], window) <= now
    ensures k < |events| ==> SatAdd(events[k], window) > now
  {
    if events == [] || SatAdd(events[0], window) > now {
      k := 0;
    } else {
      var j := PrunedIsSuffix(window, events[1..], now);
      k := j + 1;
      assert events[1..][j..] == events[k..];
      forall i | 0 <= i < k ensures SatAdd(events[i], window) <= now {
        if i > 0 {
          assert events[1..][i - 1] == events[i];
        }
      }
    }
  }

  /** Pruning early and again later is pruning later. */
  lemma {:induction false} PruneTwice(window: nat, events: seq<nat>, now: nat, t: nat)
    requires now <= t
    ensures Pruned(window, Pruned(window, events, now), t) == Pruned(window, events, t)
  {
    if events != [] && SatAdd(events[0], window) <= now {
      PruneTwice(window, events[1..], now, t);
    }
  }

  /** Dropping the newest events commutes with having pruned before. */
  lemma {:induction false} PruneRefund(window: nat, events: seq<nat>, n: nat, now: nat, t: nat)
    requires now <= t
    ensures var left := Pruned(window, events, now);
            Pruned(window, left[..SatSub(|left|, n)], t) == Pruned(window, events[..SatSub(|events|, n)], t)
  {
    if events != [] && SatAdd(events[0], window) <= now {
      PruneRefund(window, events[1..], n, now, t);
      if |events| > n {
        var cut := events[..|events| - n];
        assert cut[1..] == events[1..][..|events| - 1 - n];
        assert cut[0] == events[0];
      } else {
        assert SatSub(|events|, n) == 0 && SatSub(|events[1..]|, n) == 0;
        assert events[..0] == [] && events[1..][..0] == [];
      }
    }
  }

  // ---- interleaved requests of one key ----

  /** One recorded event, and the request it was recorded for. */
  datatype Stamp = Stamp(at: nat, req: nat)

  /** The counter, the events that stand, and the next request's number. */
  datatype Log = Log(w: Window, all: seq<Stamp>, next: nat)

  function Times(all: seq<Stamp>): (times: seq<nat>)
    ensures |times| == |all|
  {
    seq(|all|, i requires 0 <= i < |all| => all[i].at)
  }

  function Stamps(now: nat, n: nat, req: nat): seq<Stamp> {
    seq(n, i => Stamp(now, req))
  }

  /** How many standing events a request has. */
  function Size(all: seq<Stamp>, req: nat): nat {
    if all == [] then 0 else Size(all[..|all| - 1], req) + if all[|all| - 1].req == req then 1 else 0
  }

  /** The events that stand once a request's own are given back. */
  function Without(all: seq<Stamp>, req: nat): seq<Stamp> {
    if all == [] then []
    else if all[|all| - 1].req == req then Without(all[..|all| - 1], req)
    else Without(all[..|all| - 1], req) + [all[|all| - 1]]
  }

  /**
   A request records its events, and may later give them back; in between other requests of the key
   come and go. The counter itself only drops its newest events, whosever they are.
   */
  datatype Call = Enter(now: nat, n: nat) | Leave(now: nat, req: nat) | Look(now: nat)

  function Step(l: Log, c: Call): Log {
    match c
    case Look(now) => l.(w := l.w.(events := Pruned(l.w.window, l.w.events, now)))
    case Enter(now, n) =>
      var (w, ok) := Record(l.w, now, n);
      if ok then Log(w, l.all + Stamps(now, n, l.next), l.next + 1) else l.(w := w)
    case Leave(now, req) => l.(w := Refund(l.w, Size(l.all, req)), all := Without(l.all, req))
  }

  /** No unexpired event is newer than those the request gives back. */
  ghost predicate InOrder(l: Log, req: nat, now: nat) {
    forall e, f :: e in l.all && f in l.all && f.req == req ==>
      e.at <= f.at || SatAdd(e.at, l.w.window) <= now
  }

  /** The counter knows exactly the standing events that have not expired. */
  ghost predicate Agrees(l: Log, now: nat) {
    Pruned(l.w.window, l.w.events, now) == Pruned(l.w.window, Times(l.all), now)
  }

  /** Events in order of time, each request's at one time. */
  ghost predicate Tidy(all: seq<Stamp>) {
    Sorted(Times(all)) && forall e, f :: e in all && f in all && e.req == f.req ==> e.at == f.at
  }

  /** More than `max` consecutive events never fall inside one window. */
  ghost predicate Spaced(window: nat, max: nat, all: seq<nat>) {
    forall j :: max <= j < |all| ==> all[j - max] + window <= all[j]
  }

  ghost predicate LogOk(l: Log, now: nat) {
    && Tidy(l.all) && (forall e :: e in l.all ==> e.at <= now && e.req < l.next)
    && Spaced(l.w.window, l.w.max, Times(l.all)) && Agrees(l, now)
  }

  // ---- giving back ----

  lemma TidyInit(all: seq<Stamp>)
    requires Tidy(all) && all != []
    ensures Tidy(all[..|all| - 1]) && Times(all[..|all| - 1]) == Times(all)[..|all| - 1]
    ensures forall e :: e in all <==> e in all[..|all| - 1] || e == all[|all| - 1]
    ensures forall e :: e in all ==> e.at <= all[|all| - 1].at
  {
    var init := all[..|all| - 1];
    assert all == init + [all[|all| - 1]];
    assert Times(init) == Times(all)[..|all| - 1];
    forall e | e in all ensures e.at <= all[|all| - 1].at {
      var i :| 0 <= i < |all| && all[i] == e;
      assert Times(all)[i] == e.at && Times(all)[|all| - 1] == all[|all| - 1].at;
    }
  }

  lemma TimesAppend(a: seq<Stamp>, b: seq<Stamp>)
    ensures Times(a + b) == Times(a) + Times(b)
  {
  }

  lemma {:induction false} SizeFound(all: seq<Stamp>, req: nat)
    ensures Size(all, req) > 0 <==> exists e :: e in all && e.req == req
    ensures Size(all, req) <= |all|
  {
    if all != [] {
      SizeFound(all[..|all| - 1], req);
      assert all == all[..|all| - 1] + [all[|all| - 1]];
    }
  }

  lemma {:induction false} WithoutIn(all: seq<Stamp>, req: nat)
    ensures forall e :: e in Without(all, req) <==> e in all && e.req != req
  {
    if all != [] {
      WithoutIn(all[..|all| - 1], req);
      assert all == all[..|all| - 1] + [all[|all| - 1]];
    }
  }

  /** Every event is at most `at`, and the request's own are exactly then. */
  ghost predicate NewestAt(all: seq<Stamp>, req: nat, at: nat) {
    forall e :: e in all ==> e.at <= at && (e.req == req ==> e.at == at)
  }

  /** Giving the newest events back drops as many of the newest times, and those are all the request's own. */
  ghost predicate DropsNewest(all: seq<Stamp>, req: nat, at: nat) {
    var n := Size(all, req);
    && n <= |all| && Times(Without(all, req)) == Times(all)[..|all| - n]
    && forall i :: |all| - n <= i < |all| ==> Times(all)[i] == at
  }

  lemma {:induction false} WithoutNewest(all: seq<Stamp>, req: nat, at: nat)
    requires Tidy(all) && NewestAt(all, req, at)
    ensures DropsNewest(all, req, at)
  {
    if all != [] {
      var init, e := all[..|all| - 1], all[|all| - 1];
      TidyInit(all);
      assert NewestAt(init, req, at);
      WithoutNewest(init, req, at);
      hide DropsNewest, Times;
      if e.req == req {
        OwnDropped(all, req, at);
      } else {
        OtherKept(all, req, at);
      }
    } else {
      assert Times(all) == [];
    }
  }

  lemma OwnDropped(all: seq<Stamp>, req: nat, at: nat)
    requires all != [] && all[|all| - 1].req == req && all[|all| - 1].at == at
    requires DropsNewest(all[..|all| - 1], req, at) && Times(all[..|all| - 1]) == Times(all)[..|all| - 1]
    ensures DropsNewest(all, req, at)
  {
    var n, times := Size(all, req), Times(all);
    assert Size(all[..|all| - 1], req) == n - 1 && Without(all, req) == Without(all[..|all| - 1], req);
    hide Size, Without;
    assert times[..|all| - 1][..|all| - n] == times[..|all| - n];
    assert forall i :: |all| - n <= i < |all| - 1 ==> times[i] == times[..|all| - 1][i];
  }

  lemma OtherKept(all: seq<Stamp>, req: nat, at: nat)
    requires all != [] && all[|all| - 1].req != req && Tidy(all) && NewestAt(all, req, at)
    requires DropsNewest(all[..|all| - 1], req, at)
    ensures DropsNewest(all, req, at)
  {
    var init, e, n := all[..|all| - 1], all[|all| - 1], Size(all, req);
    var kept := Without(init, req);
    assert Size(init, req) == n && Without(all, req) == kept + [e];
    SizeFound(init, req);
    TidyInit(all);
    assert n > 0 ==> e.at == at;
    assert |Times(all)| == |all| && |Times(init)| == |init| && Times(all)[|all| - 1] == e.at;
    assert Times(kept + [e]) == Times(kept) + [e.at];
    hide Size, Without, Tidy, Times, NewestAt;
    KeptTimes(Times(all), Times(init), n, at);
  }

  lemma KeptTimes(times: seq<nat>, init: seq<nat>, n: nat, at: nat)
    requires times != [] && init == times[..|times| - 1] && n <= |init| && (n > 0 ==> times[|times| - 1] == at)
    requires forall i :: |init| - n <= i < |init| ==> init[i] == at
    ensures init[..|init| - n] + [times[|times| - 1]] == times[..|times| - n]
    ensures forall i :: |times| - n <= i < |times| ==> times[i] == at
  {
    if n > 0 {
      assert times[|init| - n] == init[|init| - n];
      assert forall i :: |times| - n <= i < |init| ==> times[i] == init[i];
    }
  }

  lemma {:induction false} WithoutCount(all: seq<Stamp>, req: nat, t: nat)
    requires forall e :: e in all && e.req == req ==> e.at != t
    ensures multiset(Times(Without(all, req)))[t] == multiset(Times(all))[t]
  {
    if all != [] {
      var init, e := all[..|all| - 1], all[|all| - 1];
      assert all == init + [e];
      WithoutCount(init, req, t);
      TimesAppend(init, [e]);
      TimesAppend(Without(init, req), [e]);
    }
  }

  lemma {:induction false} PrunedCount(window: nat, events: seq<nat>, now: nat, t: nat)
    requires SatAdd(t, window) > now
    ensures multiset(Pruned(window, events, now))[t] == multiset(events)[t]
  {
    if events != [] && SatAdd(events[0], window) <= now {
      PrunedCount(window, events[1..], now, t);
      assert events == [events[0]] + events[1..];
    }
  }

  lemma {:induction false} AllExpired(window: nat, events: seq<nat>, now: nat)
    requires forall t :: t in events ==> SatAdd(t, window) <= now
    ensures Pruned(window, events, now) == []
  {
    if events != [] {
      AllExpired(window, events[1..], now);
    }
  }

  lemma TimesIn(all: seq<Stamp>, t: nat)
    requires t in Times(all)
    ensures exists e :: e in all && e.at == t
  {
    var i :| 0 <= i < |all| && Times(all)[i] == t;
    assert all[i] in all;
  }

  lemma {:induction false} WithoutNone(all: seq<Stamp>, req: nat)
    requires Size(all, req) == 0
    ensures Without(all, req) == all
  {
    if all != [] {
      WithoutNone(all[..|all| - 1], req);
    }
  }

  lemma OldAgrees(l: Log, req: nat, now: nat, e: Stamp, f: Stamp)
    requires Tidy(l.all) && Agrees(l, now) && InOrder(l, req, now)
    requires e in l.all && f in l.all && f.req == req && e.at > f.at
    ensures Agrees(Step(l, Leave(now, req)), now)
  {
    hide Pruned, Size, Without;
    var after := Without(l.all, req);
    forall t | t in Times(l.all) ensures SatAdd(t, l.w.window) <= now { TimesIn(l.all, t); }
    WithoutIn(l.all, req);
    forall t | t in Times(after) ensures SatAdd(t, l.w.window) <= now { TimesIn(after, t); }
    AllExpired(l.w.window, Times(l.all), now);
    AllExpired(l.w.window, Times(after), now);
    AllExpired(l.w.window, [], now);
    PruneRefund(l.w.window, l.w.events, Size(l.all, req), now, now);
    assert Pruned(l.w.window, l.w.events, now)[..0] == [];
  }

  lemma OrderedAgrees(l: Log, req: nat, now: nat)
    requires Tidy(l.all) && Agrees(l, now) && InOrder(l, req, now)
    ensures Agrees(Step(l, Leave(now, req)), now)
  {
    hide Pruned, Size, Without;
    var n := Size(l.all, req);
    var after := Without(l.all, req);
    PruneRefund(l.w.window, l.w.events, n, now, now);
    PruneRefund(l.w.window, Times(l.all), n, now, now);
    SizeFound(l.all, req);
    if n == 0 {
      WithoutNone(l.all, req);
      assert Times(l.all)[..|l.all|] == Times(l.all);
    } else {
      var f :| f in l.all && f.req == req;
      if e :| e in l.all && e.at > f.at {
        OldAgrees(l, req, now, e, f);
      } else {
        WithoutNewest(l.all, req, f.at);
      }
    }
  }

  /** Out of order, the newest standing event is unexpired and not the request's own. */
  lemma NewestOther(l: Log, req: nat, now: nat) returns (t: nat)
    requires Tidy(l.all) && !InOrder(l, req, now)
    ensures l.all != [] && Times(l.all)[|l.all| - 1] == t && SatAdd(t, l.w.window) > now
    ensures Size(l.all, req) > 0 && forall e :: e in l.all && e.req == req ==> e.at != t
  {
    var e, f :| e in l.all && f in l.all && f.req == req && e.at > f.at && SatAdd(e.at, l.w.window) > now;
    TidyInit(l.all);
    SizeFound(l.all, req);
    t := l.all[|l.all| - 1].at;
  }

  lemma LateDisagrees(l: Log, req: nat, now: nat)
    requires Tidy(l.all) && Agrees(l, now) && !InOrder(l, req, now)
    ensures !Agrees(Step(l, Leave(now, req)), now)
  {
    hide Pruned, Size, Without, Tidy, InOrder, Times;
    var t := NewestOther(l, req, now);
    var n, left := Size(l.all, req), Pruned(l.w.window, l.w.events, now);
    WithoutCount(l.all, req, t);
    PrunedCount(l.w.window, Times(Without(l.all, req)), now, t);
    PrunedLast(l.w.window, Times(l.all), now);
    PrunedCount(l.w.window, Times(l.all), now, t);
    PruneRefund(l.w.window, l.w.events, n, now, now);
    PrunedCount(l.w.window, left[..SatSub(|left|, n)], now, t);
    CutCount(left, SatSub(|left|, n));
  }

  /** An unexpired newest event is still the newest after pruning. */
  lemma {:induction false} PrunedLast(window: nat, events: seq<nat>, now: nat)
    requires events != [] && SatAdd(events[|events| - 1], window) > now
    ensures var left := Pruned(window, events, now); left != [] && left[|left| - 1] == events[|events| - 1]
  {
    if SatAdd(events[0], window) <= now {
      PrunedLast(window, events[1..], now);
    }
  }

  lemma CutCount(s: seq<nat>, k: nat)
    requires k < |s|
    ensures multiset(s[..k])[s[|s| - 1]] < multiset(s)[s[|s| - 1]]
  {
    assert s == s[..k] + s[k..];
    assert s[|s| - 1] == s[k..][|s| - 1 - k];
    assert s[|s| - 1] in multiset(s[k..]);
  }

  /** A refund takes the request's own events off the counter if and only if none newer is still unexpired. */
  lemma RefundExact(l: Log, req: nat, now: nat)
    requires Tidy(l.all) && Agrees(l, now)
    ensures Agrees(Step(l, Leave(now, req)), now) <==> InOrder(l, req, now)
  {
    if InOrder(l, req, now) {
      OrderedAgrees(l, req, now);
    } else {
      LateDisagrees(l, req, now);
    }
  }

  lemma TidyPrefix(all: seq<Stamp>)
    requires Tidy(all) && all != []
    ensures Tidy(all[..|all| - 1])
  {
    hide Tidy, Times;
    TidyInit(all);
  }

  lemma WithoutLast(all: seq<Stamp>, req: nat)
    requires all != []
    ensures var (init, e) := (all[..|all| - 1], all[|all| - 1]);
            Without(all, req) == if e.req == req then Without(init, req) else Without(init, req) + [e]
  {
  }

  lemma TidyStep(all: seq<Stamp>, i: nat)
    requires Tidy(all) && i + 1 < |all|
    ensures all[i].at <= all[i + 1].at
  {
    assert Times(all)[i] <= Times(all)[i + 1];
  }

  /** Counted from the end, what stands after giving back is no newer than what stood before. */
  lemma {:induction false} OlderFromEnd(all: seq<Stamp>, req: nat, k: nat)
    requires Tidy(all) && 0 < k <= |Without(all, req)|
    ensures k <= |all| && Without(all, req)[|Without(all, req)| - k].at <= all[|all| - k].at
    decreases |all|
  {
    assert all != [];
    hide Without, Tidy, Times;
    var init, e := all[..|all| - 1], all[|all| - 1];
    TidyPrefix(all);
    WithoutLast(all, req);
    if e.req == req {
      OlderFromEnd(init, req, k);
      TidyStep(all, |all| - 1 - k);
    } else if k > 1 {
      OlderFromEnd(init, req, k - 1);
    }
  }

  lemma {:induction false} WithoutTidy(all: seq<Stamp>, req: nat)
    requires Tidy(all)
    ensures Tidy(Without(all, req))
    decreases |all|
  {
    if all != [] {
      hide Without, Tidy, Times;
      var init, e := all[..|all| - 1], all[|all| - 1];
      TidyInit(all);
      WithoutLast(all, req);
      WithoutTidy(init, req);
      WithoutIn(init, req);
      OwnTime(all, e);
      if e.req != req { TidyAppend(Without(init, req), e); }
    }
  }

  lemma SpacedInit(window: nat, max: nat, all: seq<Stamp>)
    requires Tidy(all) && Spaced(window, max, Times(all)) && all != []
    ensures Spaced(window, max, Times(all[..|all| - 1]))
    ensures max < |all| ==> all[|all| - 1 - max].at + window <= all[|all| - 1].at
  {
    TidyInit(all);
    assert max < |all| ==> Times(all)[|all| - 1 - max] + window <= Times(all)[|all| - 1];
  }

  lemma {:induction false} WithoutSpaced(window: nat, max: nat, all: seq<Stamp>, req: nat)
    requires Tidy(all) && Spaced(window, max, Times(all))
    ensures Spaced(window, max, Times(Without(all, req)))
    decreases |all|
  {
    if all != [] {
      hide Without, Tidy, Times, Spaced;
      var init, e := all[..|all| - 1], all[|all| - 1];
      TidyPrefix(all);
      SpacedInit(window, max, all);
      WithoutLast(all, req);
      WithoutSpaced(window, max, init, req);
      if e.req != req {
        WithoutShorter(init, req);
        if 0 < max <= |Without(init, req)| { OlderFromEnd(init, req, max); }
        SpacedAppend(window, max, Without(init, req), e);
      }
    }
  }

  lemma {:induction false} WithoutShorter(all: seq<Stamp>, req: nat)
    ensures |Without(all, req)| <= |all|
  {
    if all != [] { WithoutShorter(all[..|all| - 1], req); }
  }

  lemma OwnTime(all: seq<Stamp>, e: Stamp)
    requires Tidy(all) && e in all
    ensures forall f :: f in all && f.req == e.req ==> f.at == e.at
  {
  }

  lemma SpacedAppend(window: nat, max: nat, all: seq<Stamp>, e: Stamp)
    requires Spaced(window, max, Times(all))
    requires max <= |all| ==> (if max == 0 then e.at else all[|all| - max].at) + window <= e.at
    ensures Spaced(window, max, Times(all + [e]))
  {
    TimesAppend(all, [e]);
    var longer := Times(all + [e]);
    forall j | max <= j < |longer| ensures longer[j - max] + window <= longer[j] {
      if j < |all| { assert Times(all)[j - max] + window <= Times(all)[j]; }
    }
  }

  lemma TidyAppend(all: seq<Stamp>, e: Stamp)
    requires Tidy(all) && forall f :: f in all ==> f.at <= e.at && (f.req == e.req ==> f.at == e.at)
    ensures Tidy(all + [e])
  {
    TimesAppend(all, [e]);
    forall i, j | 0 <= i < j < |all| + 1 ensures Times(all + [e])[i] <= Times(all + [e])[j] {
      if j == |all| { assert all[i] in all; } else { assert Times(all)[i] <= Times(all)[j]; }
    }
  }

  // ---- whole runs ----

  lemma LaterAgrees(l: Log, before: nat, now: nat)
    requires Agrees(l, before) && before <= now
    ensures Agrees(l, now)
  {
    PruneTwice(l.w.window, l.w.events, before, now);
    PruneTwice(l.w.window, Times(l.all), before, now);
  }

  lemma LeaveKeeps(l: Log, now: nat, req: nat)
    requires LogOk(l, now) && InOrder(l, req, now)
    ensures LogOk(Step(l, Leave(now, req)), now)
  {
    hide Agrees, InOrder, Tidy, Spaced, Size, Without;
    RefundExact(l, req, now);
    WithoutTidy(l.all, req);
    WithoutSpaced(l.w.window, l.w.max, l.all, req);
    WithoutIn(l.all, req);
  }

  lemma {:induction false} StampsTidy(all: seq<Stamp>, now: nat, n: nat, req: nat)
    requires Tidy(all) && forall e :: e in all ==> e.at <= now && e.req != req
    ensures Tidy(all + Stamps(now, n, req)) && Times(all + Stamps(now, n, req)) == Times(all) + Repeat(now, n)
    ensures forall e :: e in all + Stamps(now, n, req) ==> e in all || e == Stamp(now, req)
    decreases n
  {
    if n == 0 {
      assert all + Stamps(now, n, req) == all;
      assert Times(all) + Repeat(now, n) == Times(all);
    } else {
      StampsTidy(all, now, n - 1, req);
      var less := all + Stamps(now, n - 1, req);
      hide Tidy;
      assert all + Stamps(now, n, req) == less + [Stamp(now, req)];
      TidyAppend(less, Stamp(now, req));
      TimesAppend(less, [Stamp(now, req)]);
      assert Repeat(now, n) == Repeat(now, n - 1) + [now];
    }
  }

  lemma KeepSpaced(window: nat, max: nat, all: seq<nat>, kept: nat, now: nat, n: nat)
    requires Spaced(window, max, all) && kept <= |all| && kept + n <= max
    requires forall i :: 0 <= i < |all| - kept ==> all[i] + window <= now
    ensures Spaced(window, max, all + Repeat(now, n))
  {
    hide Repeat;
    var longer := all + Repeat(now, n);
    forall j | max <= j < |longer| ensures longer[j - max] + window <= longer[j] {
      if j >= |all| {
        assert j - max < |all| - kept;
      }
    }
  }

  lemma {:induction false} PruneAppend(window: nat, events: seq<nat>, more: seq<nat>, now: nat)
    ensures var left := Pruned(window, events, now);
            Pruned(window, events + more, now) == if left == [] then Pruned(window, more, now) else left + more
  {
    if events == [] {
      assert events + more == more;
    } else {
      PruneAppend(window, events[1..], more, now);
      assert (events + more)[1..] == events[1..] + more;
    }
  }

  lemma EnterKeeps(l: Log, now: nat, n: nat)
    requires LogOk(l, now) && l.w.max < U64_MAX && now < U64_MAX
    ensures LogOk(Step(l, Enter(now, n)), now)
  {
    hide Pruned, Spaced, Tidy, Stamps, Repeat;
    var left := Pruned(l.w.window, l.w.events, now);
    PruneTwice(l.w.window, l.w.events, now, now);
    if SatAdd(|left|, n) <= l.w.max {
      StampsTidy(l.all, now, n, l.next);
      var k := PrunedIsSuffix(l.w.window, Times(l.all), now);
      KeepSpaced(l.w.window, l.w.max, Times(l.all), |left|, now, n);
      PruneAppend(l.w.window, left, Repeat(now, n), now);
      PruneAppend(l.w.window, Times(l.all), Repeat(now, n), now);
    }
  }

  /** The standing events that have not expired at `now`. */
  ghost function Unexpired(l: Log, now: nat): set<nat> {
    set i: nat | i < |l.all| && l.all[i].at + l.w.window > now
  }

  lemma {:induction false} RangeCount(lo: nat, hi: nat, s: set<nat>)
    requires lo <= hi && forall i: nat :: i in s <==> lo <= i < hi
    ensures |s| == hi - lo
    decreases hi
  {
    if lo == hi {
      assert s == {};
    } else {
      RangeCount(lo, hi - 1, s - {hi - 1});
    }
  }

  lemma LiveCount(l: Log, now: nat)
    requires Tidy(l.all) && now < U64_MAX
    ensures |Pruned(l.w.window, Times(l.all), now)| == |Unexpired(l, now)|
  {
    hide Pruned;
    var times := Times(l.all);
    var k := PrunedIsSuffix(l.w.window, times, now);
    forall i: nat ensures i in Unexpired(l, now) <==> k <= i < |l.all| {
      if i < |l.all| {
        assert times[i] == l.all[i].at;
        assert k <= i ==> times[k] <= times[i];
      }
    }
    RangeCount(k, |l.all|, Unexpired(l, now));
  }

  /** While the counter is right, a request is let in if and only if it fits beside the unexpired standing events. */
  lemma EnterExact(l: Log, now: nat, n: nat)
    requires Tidy(l.all) && Agrees(l, now) && now < U64_MAX && l.w.max < U64_MAX
    ensures Record(l.w, now, n).1 <==> |Unexpired(l, now)| + n <= l.w.max
  {
    LiveCount(l, now);
    hide Pruned, Unexpired, Tidy;
  }

  lemma StepKeeps(l: Log, before: nat, c: Call)
    requires LogOk(l, before) && l.w.max < U64_MAX && before <= c.now < U64_MAX
    requires c.Leave? ==> InOrder(l, c.req, c.now)
    ensures LogOk(Step(l, c), c.now) && Step(l, c).w.max == l.w.max && Step(l, c).w.window == l.w.window
  {
    hide Agrees, InOrder, Tidy, Spaced, Without, Size, Pruned;
    LaterAgrees(l, before, c.now);
    match c
    case Look(now) => LookKeeps(l, now);
    case Enter(now, n) => EnterKeeps(l, now, n);
    case Leave(now, req) => LeaveKeeps(l, now, req);
  }

  lemma LookKeeps(l: Log, now: nat)
    requires LogOk(l, now)
    ensures LogOk(Step(l, Look(now)), now)
  {
    hide Tidy, Spaced, Pruned;
    PruneTwice(l.w.window, l.w.events, now, now);
  }

  /** A run of the counter on a clock that runs forward, every refund in order. */
  ghost predicate OrderedRun(l: Log, cs: seq<Call>, from: nat)
    decreases |cs|
  {
    cs == [] ||
    (from <= cs[0].now < U64_MAX && (cs[0].Leave? ==> InOrder(l, cs[0].req, cs[0].now)) &&
     OrderedRun(Step(l, cs[0]), cs[1..], cs[0].now))
  }

  function Steps(l: Log, cs: seq<Call>): Log
    decreases |cs|
  {
    if cs == [] then l else Steps(Step(l, cs[0]), cs[1..])
  }

  lemma {:induction false} StepsKeep(l: Log, from: nat, cs: seq<Call>) returns (now: nat)
    requires LogOk(l, from) && l.w.max < U64_MAX && OrderedRun(l, cs, from)
    ensures LogOk(Steps(l, cs), now)
    ensures Steps(l, cs).w.max == l.w.max && Steps(l, cs).w.window == l.w.window
    decreases |cs|
  {
    hide LogOk, Step, InOrder;
    if cs == [] {
      now := from;
    } else {
      StepKeeps(l, from, cs[0]);
      now := StepsKeep(Step(l, cs[0]), cs[0].now, cs[1..]);
    }
  }

  lemma SpacedBound(window: nat, max: nat, all: seq<nat>, i: nat, j: nat)
    requires Spaced(window, max, all) && Sorted(all) && i <= j < |all| && all[j] < all[i] + window
    ensures j - i + 1 <= max
  {
    if j - i >= max {
      SpacedGap(window, max, all, i, j);
    }
  }

  lemma SpacedGap(window: nat, max: nat, all: seq<nat>, i: nat, j: nat)
    requires Spaced(window, max, all) && Sorted(all) && i + max <= j < |all|
    ensures all[i] + window <= all[j]
  {
    if i < j - max {
      assert all[i] <= all[j - max];
    }
  }

  /**
   With a clock that runs forward and has not reached its end, and refunds in order, no trailing
   window ever holds more than `max` of the standing events, however requests interleave.
   */
  lemma WindowNeverOverfull(window: nat, max: nat, cs: seq<Call>, i: nat, j: nat)
    requires max < U64_MAX && OrderedRun(Log(Window(window, max, []), [], 0), cs, 0)
    requires
      var all := Steps(Log(Window(window, max, []), [], 0), cs).all;
      i <= j < |all| && all[j].at < all[i].at + window
    ensures j - i + 1 <= max
  {
    var start := Log(Window(window, max, []), [], 0);
    var _ := StepsKeep(start, 0, cs);
    hide Steps;
    SpacedBound(window, max, Times(Steps(start, cs).all), i, j);
  }

  /** At the clock's last second every event reads as expired, whatever the window. */
  lemma {:induction false} ClockEndForgets(window: nat, events: seq<nat>)
    ensures Pruned(window, events, U64_MAX) == []
  {
    if events != [] {
      ClockEndForgets(window, events[1..]);
    }
  }

  /**
   Pruning at `now` drops only expired events exactly when the clock is not at its end or nothing
   unexpired is left to drop.
   */
  lemma PruneDropsOnlyExpired(window: nat, events: seq<nat>, now: nat)
    requires Sorted(events) && now <= U64_MAX
    ensures
      (forall i :: 0 <= i < |events| - |Pruned(window, events, now)| ==> events[i] + window <= now)
      <==> (now < U64_MAX || forall i :: 0 <= i < |events| ==> events[i] + window <= now)
  {
    var k := PrunedIsSuffix(window, events, now);
    if now == U64_MAX {
      ClockEndForgets(window, events);
    }
  }
}
