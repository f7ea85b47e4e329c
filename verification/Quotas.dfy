/** Storage-quota accounting of `cas-head`: concurrent requests reserve, then settle, in any order. */
module Quotas {
  import opened Prelude
  import opened Limits
  import opened Objects
  import opened Sigchain
  import opened StoreModel
  import StoreRuns
  import opened Server

  /** Bytes charged to a key; a key never charged has no entry. */
  function Used(m: map<Device, Quota>, d: Device): nat {
    if d in m then m[d].used else 0
  }

  /** What the store said about the swap. */
  datatype Swap = Won(promoted: nat) | Lost | Broken

  /** What a settled request leaves charged. */
  function Kept(staged: nat, o: Swap): nat {
    if o.Won? then Min(staged, o.promoted) else 0
  }

  /** What settling hands back. */
  function Unused(staged: nat, o: Swap): nat {
    if o.Won? then SatSub(staged, o.promoted) else staged
  }

  datatype Reply = Okay | BadRequest | RateLimit | Internal | CasConflict

  // ---- one request, on the server's state and its store ----

  datatype CasRequest = CasRequest(refH: RefH, expectedOld: HeadToken, newBlob: HeadBlob, push: PushId,
                                   blobLen: nat, hashMatches: bool)

  /** Which of the two store calls fails, if any. */
  datatype Fault = NoFault | AtStagedBytes | AtSwap

  /** The bytes of objects durable after and not before. */
  ghost function Gained(before: Tables, after: Tables): nat {
    Sum(after.objects.Keys - before.objects.Keys, DurableLen(after))
  }

  function DurableLen(t: Tables): Id -> nat {
    id => if id in t.objects then t.objects[id].len else 0
  }

  /** A won swap makes exactly the push's fresh bytes durable. */
  lemma SwapGains(t: Tables, refH: RefH, blob: HeadBlob, p: PushId)
    ensures Gained(t, Swapped(t, refH, blob, p)) == FreshBytes(t, p)
  {
    var after := Swapped(t, refH, blob, p);
    assert after.objects.Keys - t.objects.Keys == Fresh(t, p);
    hide Sum;
    forall id | id in Fresh(t, p) ensures DurableLen(after)(id) == StagedLen(t, p)(id) {
      assert (p, id) in t.staging;
    }
    SumSame(Fresh(t, p), DurableLen(after), StagedLen(t, p));
  }

  /** A reservation of `n` settled by handing back `u` leaves the difference charged, and other keys alone. */
  lemma ReserveSettle(m: map<Device, Quota>, d: Device, n: nat, u: nat, cap: nat)
    requires u <= n && (n > 0 ==> AddQuota(m, d, n, cap).1)
    ensures var reserved := if n > 0 then AddQuota(m, d, n, cap).0 else m;
            var settled := ReleaseQuota(reserved, d, u);
            && (cap > 0 ==> Used(settled, d) == Used(m, d) + n - u)
            && (cap == 0 && d !in m ==> d !in settled)
            && forall e :: e != d ==> Used(settled, e) == Used(m, e)
  {
  }

  lemma RefusedSame(m: map<Device, Quota>, d: Device, n: nat, cap: nat)
    requires !AddQuota(m, d, n, cap).1
    ensures forall e :: Used(AddQuota(m, d, n, cap).0, e) == Used(m, e)
    ensures cap > 0
  {
  }

  /** What the calls of this handler do to the quotas. */
  lemma QuotaEffects(c: Config, s: State, d: Device, n: nat, now: nat)
    ensures Do(c, s, TakeWrite(d, n), now).0.quotas == s.quotas
    ensures Do(c, s, Charge(d, n), now).0.quotas == AddQuota(s.quotas, d, n, c.cap).0
    ensures Do(c, s, Charge(d, n), now).1 == Granted(AddQuota(s.quotas, d, n, c.cap).1)
    ensures Do(c, s, Release(d, n), now).0.quotas == ReleaseQuota(s.quotas, d, n)
  {
  }

  /** The swap itself, after whatever others did to the store; a fault leaves it undone. */
  method TrySwap(store: Store, q: CasRequest, meanwhile: seq<StoreRuns.StoreOp>, fault: Fault) returns (swap: Swap)
    modifies store
    ensures var mid := StoreRuns.After(old(store.t), meanwhile);
            if swap.Won? then
              && store.t == CasRef(mid, q.refH, q.expectedOld, q.newBlob, q.push)
              && HeadTokenOf(mid, q.refH) == q.expectedOld && swap.promoted == Gained(mid, store.t)
            else store.t == mid
  {
    hide StoreRuns.After, FreshBytes, Gained, HeadTokenOf, Swapped;
    store.t := StoreRuns.After(store.t, meanwhile);
    if !fault.NoFault? {
      return Broken;
    }
    SwapGains(store.t, q.refH, q.newBlob, q.push);
    var o := store.CasHead(q.refH, q.expectedOld, q.newBlob, q.push);
    return if o.swapped then Won(o.promotedBytes) else Lost;
  }

  /**
   `handle_cas`, with `meanwhile` the store operations of other requests between reading the staged
   bytes and the swap. A won swap charges the lesser of the bytes staged at first and the bytes the
   swap made durable; every other outcome charges nothing.
   */
  method HandleCas(state: ServerState, store: Store, d: Device, q: CasRequest, meanwhile: seq<StoreRuns.StoreOp>,
                   fault: Fault, now: nat)
    returns (r: Reply)
    modifies state, store
    ensures r.Okay? ==>
            store.t == CasRef(StoreRuns.After(old(store.t), meanwhile), q.refH, q.expectedOld, q.newBlob, q.push)
    ensures r.Okay? ==> HeadTokenOf(StoreRuns.After(old(store.t), meanwhile), q.refH) == q.expectedOld
    ensures !r.Okay? ==> store.t == old(store.t) || store.t == StoreRuns.After(old(store.t), meanwhile)
    ensures state.config.cap > 0 ==>
              Used(state.quotas, d) == old(Used(state.quotas, d)) +
                if r.Okay? then Min(FreshBytes(old(store.t), q.push),
                                    Gained(StoreRuns.After(old(store.t), meanwhile), store.t)) else 0
    ensures state.config.cap == 0 && old(d !in state.quotas) ==> d !in state.quotas
    ensures forall e :: e != d ==> Used(state.quotas, e) == old(Used(state.quotas, e))
  {
    hide StoreRuns.Do, Server.Do, StoreRuns.After, AddQuota, ReleaseQuota, Used, FreshBytes, Gained, HeadTokenOf,
      CasRef;
    ghost var m := state.quotas;
    if !q.hashMatches {
      return BadRequest;
    }
    QuotaEffects(state.config, state.Value(), d, q.blobLen, now);
    var ok := state.TakeWriteBytes(d, q.blobLen, now);
    if !ok {
      return RateLimit;
    }
    if fault.AtStagedBytes? {
      return Internal;
    }
    var staged := store.StagedBytes(q.push);
    if staged > 0 {
      QuotaEffects(state.config, state.Value(), d, staged, now);
      ok := state.ChargeQuota(d, staged, now);
      if !ok {
        RefusedSame(m, d, staged, state.config.cap);
        return RateLimit;
      }
    }
    var swap := TrySwap(store, q, meanwhile, fault);
    var unused := Unused(staged, swap);
    ReserveSettle(m, d, staged, unused, state.config.cap);
    QuotaEffects(state.config, state.Value(), d, unused, now);
    state.ReleaseBytes(d, unused, now);
    return match swap case Won(_) => Okay case Lost => CasConflict case Broken => Internal;
  }

  /** With nothing in between, a won swap charges exactly the bytes it made durable. */
  lemma ChargedIsGained(t: Tables, q: CasRequest)
    requires HeadTokenOf(t, q.refH) == q.expectedOld
    ensures var after := CasRef(StoreRuns.After(t, []), q.refH, q.expectedOld, q.newBlob, q.push);
            Min(FreshBytes(t, q.push), Gained(StoreRuns.After(t, []), after)) == Gained(t, after)
  {
    hide Gained, FreshBytes, Swapped, HeadTokenOf;
    SwapGains(t, q.refH, q.newBlob, q.push);
  }

  // ---- in any interleaving ----

  /** A request between its reservation and its settlement. */
  datatype Flight = Flight(device: Device, staged: nat)

  /** The quotas, the requests in flight, and what each won request was charged. */
  datatype Desk = Desk(quotas: map<Device, Quota>, flights: seq<Flight>, charged: seq<Flight>)

  datatype Move = Reserve(f: Flight) | Settle(i: nat, swap: Swap)

  function Without(fs: seq<Flight>, i: nat): seq<Flight>
    requires i < |fs|
  {
    fs[..i] + fs[i + 1..]
  }

  function Next(cap: nat, s: Desk, m: Move): Desk {
    match m
    case Reserve(f) =>
      var (q, ok) := if f.staged > 0 then AddQuota(s.quotas, f.device, f.staged, cap) else (s.quotas, true);
      if ok then s.(quotas := q, flights := s.flights + [f]) else s.(quotas := q)
    case Settle(i, swap) =>
      if i >= |s.flights| then s
      else
        var f := s.flights[i];
        Desk(ReleaseQuota(s.quotas, f.device, Unused(f.staged, swap)), Without(s.flights, i),
             s.charged + [Flight(f.device, Kept(f.staged, swap))])
  }

  function Run(cap: nat, s: Desk, ms: seq<Move>): Desk {
    if ms == [] then s else Next(cap, Run(cap, s, ms[..|ms| - 1]), ms[|ms| - 1])
  }

  /** Bytes of one key in a list. */
  function Total(fs: seq<Flight>, d: Device): nat {
    if fs == [] then 0
    else Total(fs[..|fs| - 1], d) + if fs[|fs| - 1].device == d then fs[|fs| - 1].staged else 0
  }

  lemma {:induction false} TotalConcat(a: seq<Flight>, b: seq<Flight>, d: Device)
    ensures Total(a + b, d) == Total(a, d) + Total(b, d)
  {
    if b == [] {
      assert a + b == a;
    } else {
      TotalConcat(a, b[..|b| - 1], d);
      assert (a + b)[..|a + b| - 1] == a + b[..|b| - 1];
    }
  }

  lemma TotalOne(f: Flight, d: Device)
    ensures Total([f], d) == if f.device == d then f.staged else 0
  {
    assert [f][..0] == [];
  }

  lemma TotalWithout(fs: seq<Flight>, i: nat, d: Device)
    requires i < |fs|
    ensures Total(fs, d) == Total(Without(fs, i), d) + if fs[i].device == d then fs[i].staged else 0
  {
    assert fs == fs[..i] + [fs[i]] + fs[i + 1..];
    TotalConcat(fs[..i] + [fs[i]], fs[i + 1..], d);
    TotalConcat(fs[..i], [fs[i]], d);
    TotalConcat(fs[..i], fs[i + 1..], d);
    TotalOne(fs[i], d);
  }

  ghost predicate Balanced(cap: nat, s: Desk, d: Device) {
    Used(s.quotas, d) == Total(s.flights, d) + Total(s.charged, d) && Used(s.quotas, d) <= cap
  }

  ghost predicate Limited(cap: nat, s: Desk) {
    forall d :: d in s.quotas ==> s.quotas[d].limit == cap
  }

  lemma ReserveKeeps(cap: nat, s: Desk, f: Flight, d: Device)
    requires cap > 0 && Limited(cap, s) && Balanced(cap, s, d) && Balanced(cap, s, f.device)
    ensures Balanced(cap, Next(cap, s, Reserve(f)), d) && Limited(cap, Next(cap, s, Reserve(f)))
  {
    TotalConcat(s.flights, [f], d);
    TotalOne(f, d);
    hide Total;
  }

  lemma SettleKeeps(cap: nat, s: Desk, i: nat, swap: Swap, d: Device)
    requires cap > 0 && Limited(cap, s) && Balanced(cap, s, d)
    ensures Balanced(cap, Next(cap, s, Settle(i, swap)), d) && Limited(cap, Next(cap, s, Settle(i, swap)))
  {
    if i < |s.flights| {
      var f := s.flights[i];
      TotalWithout(s.flights, i, d);
      TotalConcat(s.charged, [Flight(f.device, Kept(f.staged, swap))], d);
      TotalOne(Flight(f.device, Kept(f.staged, swap)), d);
      hide Total;
    }
  }

  /**
   Over every interleaving: what a key is charged is exactly its reservations in flight plus
   min(staged, promoted) of each request it won, and never more than the cap.
   */
  lemma {:induction false} LedgerBalances(cap: nat, ms: seq<Move>, d: Device)
    requires cap > 0
    ensures Balanced(cap, Run(cap, Desk(map[], [], []), ms), d) && Limited(cap, Run(cap, Desk(map[], [], []), ms))
  {
    if ms != [] {
      var init, m := ms[..|ms| - 1], ms[|ms| - 1];
      LedgerBalances(cap, init, d);
      var s := Run(cap, Desk(map[], [], []), init);
      hide Balanced, Limited, Next;
      match m {
        case Reserve(f) =>
          LedgerBalances(cap, init, f.device);
          ReserveKeeps(cap, s, f, d);
        case Settle(i, swap) =>
          SettleKeeps(cap, s, i, swap, d);
      }
    }
  }

  /**
   After every interleaving a reservation is granted if and only if it fits: what the key has in flight,
   what its won requests were charged and the new bytes are together within the cap.
   */
  lemma ReserveExact(cap: nat, ms: seq<Move>, f: Flight)
    requires 0 < cap <= U64_MAX
    ensures var s := Run(cap, Desk(map[], [], []), ms);
            AddQuota(s.quotas, f.device, f.staged, cap).1 <==>
            Total(s.flights, f.device) + Total(s.charged, f.device) + f.staged <= cap
  {
    LedgerBalances(cap, ms, f.device);
    hide Run, Total;
  }

  lemma RunAppend(cap: nat, s: Desk, ms: seq<Move>, m: Move)
    ensures Run(cap, s, ms + [m]) == Next(cap, Run(cap, s, ms), m)
  {
    assert (ms + [m])[..|ms|] == ms;
  }

  /** Settling takes the request out of flight and leaves it charged for what its swap made durable, at most. */
  lemma SettleMoves(cap: nat, ms: seq<Move>, i: nat, swap: Swap)
    requires i < |Run(cap, Desk(map[], [], []), ms).flights|
    ensures var s := Run(cap, Desk(map[], [], []), ms);
            var f := s.flights[i];
            var after := Run(cap, Desk(map[], [], []), ms + [Settle(i, swap)]);
            && after.flights == s.flights[..i] + s.flights[i + 1..]
            && after.charged ==
                 s.charged + [Flight(f.device, if swap.Won? then Min(f.staged, swap.promoted) else 0)]
  {
    RunAppend(cap, Desk(map[], [], []), ms, Settle(i, swap));
    hide Run;
  }

  /** A reservation that fits is in flight afterwards. */
  lemma ReserveFlies(cap: nat, ms: seq<Move>, f: Flight)
    requires 0 < cap <= U64_MAX
    requires var s := Run(cap, Desk(map[], [], []), ms);
             Total(s.flights, f.device) + Total(s.charged, f.device) + f.staged <= cap
    ensures Run(cap, Desk(map[], [], []), ms + [Reserve(f)]).flights == Run(cap, Desk(map[], [], []), ms).flights + [f]
  {
    ReserveExact(cap, ms, f);
    RunAppend(cap, Desk(map[], [], []), ms, Reserve(f));
    hide Run, Total;
  }

  /** Without a cap no key is ever charged or refused. */
  lemma {:induction false} UncappedFree(ms: seq<Move>)
    ensures Run(0, Desk(map[], [], []), ms).quotas == map[]
    ensures forall d, n :: AddQuota(Run(0, Desk(map[], [], []), ms).quotas, d, n, 0).1
  {
    if ms != [] {
      UncappedFree(ms[..|ms| - 1]);
    }
  }
}
