/** Opening a stored chain: key-history peels, the cold-start fold, and the anti-rollback anchor. */
module ColdStart {
  import opened Prelude
  import opened Sigchain
  import opened Roster

  const ALGO_XWING: nat := 1
  const MAX_TOTAL_SIGCHAIN: nat := 10_000

  // ---- key histories ----

  /** Recover the generation-`g` roster key from its wrap with the next generation's. */
  function OpenRosterWrap(next: RosterKey, g: nat, w: RosterWrap): Option<RosterKey> {
    if w.RosterWrap? && w.under == next && w.g == g then Some(w.key) else None
  }

  function OpenDataWrap(next: nat, g: nat, w: DataWrap): Option<nat> {
    if w.DataWrap? && w.under == next && w.g == g then Some(w.secret) else None
  }

  /** One roster key per generation at most `g`, or nothing if some wrap is absent or refuses to open. */
  function PeelRoster(rk: RosterKey, g: nat, hist: map<nat, RosterWrap>): Option<map<nat, RosterKey>>
    decreases g
  {
    if g <= 1 then Some(map[g := rk])
    else if g - 1 !in hist then None
    else
      match OpenRosterWrap(rk, g - 1, hist[g - 1])
      case None => None
      case Some(prev) =>
        match PeelRoster(prev, g - 1, hist)
        case None => None
        case Some(keys) => Some(keys[g := rk])
  }

  /** Master secrets of every generation from `g` down to 1. */
  function PeelData(secret: nat, g: nat, hist: map<nat, DataWrap>): Option<map<nat, nat>>
    decreases g
  {
    if g <= 1 then Some(map[g := secret])
    else if g - 1 !in hist then None
    else
      match OpenDataWrap(secret, g - 1, hist[g - 1])
      case None => None
      case Some(prev) =>
        match PeelData(prev, g - 1, hist)
        case None => None
        case Some(keys) => Some(keys[g := secret])
  }

  lemma {:induction false} PeelRosterTop(rk: RosterKey, g: nat, hist: map<nat, RosterWrap>)
    requires PeelRoster(rk, g, hist).Some?
    ensures g in PeelRoster(rk, g, hist).value && PeelRoster(rk, g, hist).value[g] == rk
    ensures forall k :: k in PeelRoster(rk, g, hist).value ==> k <= g
    decreases g
  {
    if g > 1 {
      PeelRosterTop(OpenRosterWrap(rk, g - 1, hist[g - 1]).value, g - 1, hist);
    }
  }

  /** `peel_roster_keys` as the loop it is, walking down one generation at a time. */
  method PeelRosterKeys(rk: RosterKey, current: nat, hist: map<nat, RosterWrap>)
    returns (r: Option<map<nat, RosterKey>>)
    ensures r == PeelRoster(rk, current, hist)
  {
    var keys := map[current := rk];
    var g: nat := current;
    if PeelRoster(rk, g, hist).Some? {
      PeelRosterTop(rk, g, hist);
      assert PeelRoster(rk, g, hist).value + keys == PeelRoster(rk, g, hist).value;
    }
    while g > 1
      invariant g in keys && g <= current
      invariant forall k :: k in keys ==> g <= k
      invariant PeelRoster(rk, current, hist) ==
        match PeelRoster(keys[g], g, hist) case None => None case Some(low) => Some(low + keys)
    {
      if g - 1 !in hist {
        return None;
      }
      var prev := OpenRosterWrap(keys[g], g - 1, hist[g - 1]);
      if prev.None? {
        return None;
      }
      ghost var was, low := keys, PeelRoster(prev.value, g - 1, hist);
      keys := keys[g - 1 := prev.value];
      if low.Some? {
        PeelRosterTop(prev.value, g - 1, hist);
        assert low.value[g := was[g]] + was == low.value + keys;
      }
      g := g - 1;
    }
    assert map[g := keys[g]] + keys == keys;
    return Some(keys);
  }

  /** `peel_data_keys`: peel, then check every generation against the chain's commitments. */
  function DataKeyring(secret: nat, g: nat, hist: map<nat, DataWrap>, commits: map<nat, MkCommit>)
    : Result<map<nat, nat>, RosterError>
  {
    match PeelData(secret, g, hist)
    case None => Err(Aead)
    case Some(keys) =>
      if forall k :: k in keys ==> k in commits && commits[k] == MkCommit(MasterKey(k, keys[k])) then Ok(keys)
      else Err(MkCommitMismatch)
  }

  lemma {:induction false} PeelDataTop(secret: nat, g: nat, hist: map<nat, DataWrap>)
    requires PeelData(secret, g, hist).Some?
    ensures g in PeelData(secret, g, hist).value && PeelData(secret, g, hist).value[g] == secret
    ensures forall k :: k in PeelData(secret, g, hist).value ==> k <= g
    decreases g
  {
    if g > 1 {
      PeelDataTop(OpenDataWrap(secret, g - 1, hist[g - 1]).value, g - 1, hist);
    }
  }

  /** The peel and the commitment check as loops. */
  method PeelDataKeys(secret: nat, current: nat, hist: map<nat, DataWrap>, commits: map<nat, MkCommit>)
    returns (r: Result<map<nat, nat>, RosterError>)
    ensures r == DataKeyring(secret, current, hist, commits)
  {
    hide OpenDataWrap;
    var keys: map<nat, nat> := map[current := secret];
    var g: nat := current;
    if PeelData(secret, g, hist).Some? {
      PeelDataTop(secret, g, hist);
      assert PeelData(secret, g, hist).value + keys == PeelData(secret, g, hist).value;
    }
    while g > 1
      invariant g in keys && g <= current
      invariant forall k :: k in keys ==> g <= k
      invariant PeelData(secret, current, hist) ==
        match PeelData(keys[g], g, hist) case None => None case Some(low) => Some(low + keys)
    {
      if g - 1 !in hist {
        return Err(Aead);
      }
      var prev := OpenDataWrap(keys[g], g - 1, hist[g - 1]);
      if prev.None? {
        return Err(Aead);
      }
      ghost var was, low := keys, PeelData(prev.value, g - 1, hist);
      keys := keys[g - 1 := prev.value];
      if low.Some? {
        PeelDataTop(prev.value, g - 1, hist);
        assert low.value[g := was[g]] + was == low.value + keys;
      }
      g := g - 1;
    }
    assert map[g := keys[g]] + keys == keys;
    hide PeelData;
    var ok := CommitsMatch(keys, commits);
    return if ok then Ok(keys) else Err(MkCommitMismatch);
  }

  /** Every key against the chain's commitment for its generation. */
  method CommitsMatch(keys: map<nat, nat>, commits: map<nat, MkCommit>) returns (ok: bool)
    ensures ok <==> forall k :: k in keys ==> k in commits && commits[k] == MkCommit(MasterKey(k, keys[k]))
  {
    var todo := keys.Keys;
    while todo != {}
      invariant todo <= keys.Keys
      invariant forall k :: k in keys && k !in todo ==> k in commits && commits[k] == MkCommit(MasterKey(k, keys[k]))
      decreases todo
    {
      var k :| k in todo;
      if k !in commits || commits[k] != MkCommit(MasterKey(k, keys[k])) {
        return false;
      }
      todo := todo - {k};
    }
    return true;
  }

  // ---- opening the chain ----

  /** Open a stored entry at `(gen, i)` under that generation's roster key. */
  function OpenEntry(rk: RosterKey, gen: nat, i: nat, blob: SealedEntry): Result<Entry, RosterError> {
    if !(blob.Box? && blob.key == rk && blob.gen == gen && blob.seqNo == i) then Err(Aead)
    else if blob.plain.None? then Err(Canon)
    else Ok(blob.plain.value)
  }

  function OpenAt(keys: map<nat, RosterKey>, i: nat, blob: SealedEntry): Result<Entry, RosterError> {
    match FrameGen(blob)
    case None => Err(NoSuchFrame)
    case Some(gen) => if gen !in keys then Err(BadGeneration) else OpenEntry(keys[gen], gen, i, blob)
  }

  function OpenAll(keys: map<nat, RosterKey>, stored: seq<SealedEntry>): Result<seq<Entry>, RosterError> {
    if stored == [] then Ok([])
    else
      var n := |stored| - 1;
      match OpenAll(keys, stored[..n])
      case Err(x) => Err(x)
      case Ok(es) =>
        match OpenAt(keys, n, stored[n])
        case Err(x) => Err(x)
        case Ok(e) => Ok(es + [e])
  }

  /** A state from stored blobs and the current secret, or the first reason why there is none. */
  function ColdStartFold(secret: nat, g: nat, rfp: Link, hist: map<nat, RosterWrap>, stored: seq<SealedEntry>)
    : Result<State, RosterError>
  {
    if stored == [] then Err(Empty)
    else
      var tip := FrameGen(stored[|stored| - 1]);
      if tip.None? then Err(NoSuchFrame)
      else if tip.value != g then Err(BadGeneration)
      else
        match PeelRoster(RosterKey(secret), g, hist)
        case None => Err(Aead)
        case Some(keys) =>
          match OpenAll(keys, stored)
          case Err(x) => Err(x)
          case Ok(es) =>
            match Fold(es, rfp)
            case Err(x) => Err(x)
            case Ok(st) =>
              if g !in st.mkCommits then Err(BadGeneration)
              else if st.mkCommits[g] != MkCommit(MasterKey(g, secret)) then Err(MkCommitMismatch)
              else Ok(st)
  }

  method OpenChain(keys: map<nat, RosterKey>, stored: seq<SealedEntry>) returns (r: Result<seq<Entry>, RosterError>)
    ensures r == OpenAll(keys, stored)
  {
    r := Ok([]);
    for i := 0 to |stored|
      invariant r == OpenAll(keys, stored[..i])
    {
      assert stored[..i + 1][..i] == stored[..i];
      if r.Ok? {
        var e := OpenAt(keys, i, stored[i]);
        r := if e.Ok? then Ok(r.value + [e.value]) else Err(e.error);
      }
    }
    assert stored[..|stored|] == stored;
  }

  /** `cold_start_fold` over the loops above. */
  method ColdStartChain(secret: nat, g: nat, rfp: Link, hist: map<nat, RosterWrap>, stored: seq<SealedEntry>)
    returns (r: Result<State, RosterError>)
    ensures r == ColdStartFold(secret, g, rfp, hist, stored)
  {
    if stored == [] {
      return Err(Empty);
    }
    var tip := FrameGen(stored[|stored| - 1]);
    if tip.None? {
      return Err(NoSuchFrame);
    }
    if tip.value != g {
      return Err(BadGeneration);
    }
    var keys := PeelRosterKeys(RosterKey(secret), g, hist);
    if keys.None? {
      return Err(Aead);
    }
    var es := OpenChain(keys.value, stored);
    if es.Err? {
      return Err(es.error);
    }
    var st := FoldChain(es.value, rfp);
    if st.Err? {
      return st;
    }
    if g !in st.value.mkCommits {
      return Err(BadGeneration);
    }
    if st.value.mkCommits[g] != MkCommit(MasterKey(g, secret)) {
      return Err(MkCommitMismatch);
    }
    return st;
  }

  // ---- the client's fold with its persisted anchor ----

  /** What a device remembers of the chain it last accepted: how far it went and what stood there. */
  datatype Anchor = Anchor(maxSeq: nat, tip: SealedEntry)

  /** What one cold start read from the server, which may answer anything. */
  datatype View = View(entries: seq<SealedEntry>, slots: map<nat, Slot>, hist: map<nat, RosterWrap>)

  /** A device: its id and the X-Wing key its SSH seed derives. */
  datatype Device = Device(id: DeviceId, xwing: nat)

  datatype RepoError =
    | NotInitialized | ChainTooLong | Rollback | NoKeyslot | Pq | MissingRosterKeyhist
    | UpgradeRequired | RosterFailed(cause: RosterError)

  datatype Folded = Folded(mk: MasterKey, st: State, anchor: Anchor)

  function Unwrap(slot: Slot, g: nat, dev: Device): Option<nat> {
    if slot.Slot? && slot.to == dev.xwing && slot.gen == g && slot.device == dev.id then Some(slot.secret) else None
  }

  function RepoFold(dev: Device, v: View, rfp: Link, prev: Option<Anchor>): Result<Folded, RepoError> {
    if |v.entries| > MAX_TOTAL_SIGCHAIN then Err(ChainTooLong)
    else if v.entries == [] then Err(NotInitialized)
    else if prev.Some? && !(prev.value.maxSeq < |v.entries| && v.entries[prev.value.maxSeq] == prev.value.tip) then
      Err(Rollback)
    else
      var tip := v.entries[|v.entries| - 1];
      match FrameGen(tip)
      case None => Err(RosterFailed(NoSuchFrame))
      case Some(g) =>
        if g !in v.slots then Err(NoKeyslot)
        else
          match Unwrap(v.slots[g], g, dev)
          case None => Err(Pq)
          case Some(secret) =>
            if !forall k: nat | 1 <= k < g :: k in v.hist then Err(MissingRosterKeyhist)
            else
              match ColdStartFold(secret, g, rfp, v.hist, v.entries)
              case Err(x) => Err(RosterFailed(x))
              case Ok(st) =>
                if st.minAlgo > ALGO_XWING then Err(UpgradeRequired)
                else Ok(Folded(MasterKey(g, secret), st, Anchor(|v.entries| - 1, tip)))
  }

  // ---- accepted chains only extend each other ----

  /** The plaintext a stored blob commits to. */
  ghost predicate Opens(stored: seq<SealedEntry>, es: seq<Entry>) {
    |es| == |stored| && forall i :: 0 <= i < |es| ==> stored[i].Box? && stored[i].plain == Some(es[i])
  }

  lemma {:induction false} OpenAllOpens(keys: map<nat, RosterKey>, stored: seq<SealedEntry>)
    requires OpenAll(keys, stored).Ok?
    ensures Opens(stored, OpenAll(keys, stored).value)
  {
    if stored != [] {
      OpenAllOpens(keys, stored[..|stored| - 1]);
    }
  }

  /** An accepted cold start opened its chain and folded it. */
  lemma AcceptedOpens(dev: Device, v: View, rfp: Link, prev: Option<Anchor>) returns (es: seq<Entry>)
    requires RepoFold(dev, v, rfp, prev).Ok?
    ensures Opens(v.entries, es) && es != [] && Fold(es, rfp) == Ok(RepoFold(dev, v, rfp, prev).value.st)
  {
    hide Fold, OpenAll, PeelRoster;
    var g := FrameGen(v.entries[|v.entries| - 1]).value;
    var secret := Unwrap(v.slots[g], g, dev).value;
    var keys := PeelRoster(RosterKey(secret), g, v.hist).value;
    OpenAllOpens(keys, v.entries);
    es := OpenAll(keys, v.entries).value;
  }

  /** Two hash-linked chains that agree at one position agree below it. */
  lemma {:induction false} LinkedAgree(a: seq<Entry>, b: seq<Entry>, rfp: Link, k: nat)
    requires Fold(a, rfp).Ok? && Fold(b, rfp).Ok?
    requires k < |a| && k < |b| && a[k] == b[k]
    ensures a[..k + 1] == b[..k + 1]
  {
    hide Fold;
    FoldLinks(a, rfp, k);
    FoldLinks(b, rfp, k);
    if k > 0 {
      LinkedAgree(a, b, rfp, k - 1);
      assert a[..k + 1] == a[..k] + [a[k]] && b[..k + 1] == b[..k] + [b[k]];
    } else {
      assert a[..1] == [a[0]] && b[..1] == [b[0]];
    }
  }

  /**
   A cold start accepted against an earlier one's anchor opened the same entries up to that
   anchor, so everything the roster only ever gains it still has.
   */
  lemma AcceptedExtends(d1: Device, v1: View, p1: Option<Anchor>, d2: Device, v2: View, rfp: Link,
                        e1: seq<Entry>, e2: seq<Entry>)
    requires RepoFold(d1, v1, rfp, p1).Ok?
    requires RepoFold(d2, v2, rfp, Some(RepoFold(d1, v1, rfp, p1).value.anchor)).Ok?
    requires Opens(v1.entries, e1) && Opens(v2.entries, e2)
    ensures e1 <= e2
    ensures Grew(RepoFold(d1, v1, rfp, p1).value.st,
                 RepoFold(d2, v2, rfp, Some(RepoFold(d1, v1, rfp, p1).value.anchor)).value.st)
  {
    var a := RepoFold(d1, v1, rfp, p1).value.anchor;
    var f1 := AcceptedOpens(d1, v1, rfp, p1);
    var f2 := AcceptedOpens(d2, v2, rfp, Some(a));
    OpensUnique(v1.entries, e1, f1);
    OpensUnique(v2.entries, e2, f2);
    hide Fold, Opens;
    AnchorMatches(d1, v1, p1, d2, v2, rfp, e1, e2);
    var n := |e1|;
    LinkedAgree(e1, e2, rfp, n - 1);
    assert e1[..n] == e1;
    FoldPrefix(e2, rfp, n);
  }

  lemma OpensUnique(stored: seq<SealedEntry>, a: seq<Entry>, b: seq<Entry>)
    requires Opens(stored, a) && Opens(stored, b)
    ensures a == b
  {
    forall i | 0 <= i < |a| ensures a[i] == b[i] {
      assert stored[i].plain == Some(a[i]);
    }
  }

  lemma AnchorMatches(d1: Device, v1: View, p1: Option<Anchor>, d2: Device, v2: View, rfp: Link,
                      e1: seq<Entry>, e2: seq<Entry>)
    requires RepoFold(d1, v1, rfp, p1).Ok?
    requires RepoFold(d2, v2, rfp, Some(RepoFold(d1, v1, rfp, p1).value.anchor)).Ok?
    requires Opens(v1.entries, e1) && Opens(v2.entries, e2)
    ensures 0 < |e1| <= |e2| && e1[|e1| - 1] == e2[|e1| - 1]
  {
    hide ColdStartFold;
    var k := |e1| - 1;
    assert v1.entries[k].plain == Some(e1[k]) && v2.entries[k].plain == Some(e2[k]);
  }

  /** Cold starts in sequence, each carrying the anchor of the one before. */
  ghost predicate Carried(ds: seq<Device>, vs: seq<View>, fs: seq<Folded>, rfp: Link, first: Option<Anchor>) {
    && |ds| == |vs| == |fs|
    && forall i :: 0 <= i < |vs| ==>
         RepoFold(ds[i], vs[i], rfp, if i == 0 then first else Some(fs[i - 1].anchor)) == Ok(fs[i])
  }

  lemma GrewTrans(a: State, b: State, c: State)
    requires Grew(a, b) && Grew(b, c)
    ensures Grew(a, c)
  {
  }

  /** Along any such sequence, whatever the server answers, the roster never goes back. */
  lemma {:induction false} NeverRollsBack(ds: seq<Device>, vs: seq<View>, fs: seq<Folded>, rfp: Link,
                                          first: Option<Anchor>, i: nat, j: nat, ei: seq<Entry>, ej: seq<Entry>)
    requires Carried(ds, vs, fs, rfp, first) && i < j < |vs|
    requires Opens(vs[i].entries, ei) && Opens(vs[j].entries, ej)
    ensures ei <= ej && Grew(fs[i].st, fs[j].st)
    decreases j - i
  {
    hide RepoFold, Opens, Grew;
    var pj := if j - 1 == 0 then first else Some(fs[j - 2].anchor);
    assert RepoFold(ds[j - 1], vs[j - 1], rfp, pj) == Ok(fs[j - 1]);
    assert RepoFold(ds[j], vs[j], rfp, Some(fs[j - 1].anchor)) == Ok(fs[j]);
    var mid := AcceptedOpens(ds[j - 1], vs[j - 1], rfp, pj);
    AcceptedExtends(ds[j - 1], vs[j - 1], pj, ds[j], vs[j], rfp, mid, ej);
    if i == j - 1 {
      OpensUnique(vs[i].entries, ei, mid);
    } else {
      NeverRollsBack(ds, vs, fs, rfp, first, i, j - 1, ei, mid);
      GrewTrans(fs[i].st, fs[j - 1].st, fs[j].st);
    }
  }
}
