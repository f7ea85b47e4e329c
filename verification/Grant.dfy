/**
 Granting a device with retries. Between folding the chain and sending the batch, other clients may
 do anything to the store; a lost round means the chain grew, so the retries end and the give-up
 against an unmoved tip is never reached.
 */
module Grant {
  import opened Prelude
  import opened Sigchain
  import opened StoreModel
  import opened StoreRuns
  import opened Roster
  import opened ColdStart
  import opened Rotation
  import opened Repo

  datatype GrantError = Refused(error: RepoError) | ServerLimit | RosterCasConflict

  /** The round that won: the tables it was applied to, what it had folded, and what it sent. */
  datatype Round = Round(mid: Tables, folded: Folded, tip: Entry, batch: RosterBatch)

  ghost predicate WonBy(w: Round, after: Tables, joiner: Device, me: DeviceId, ts: nat) {
    && BatchWins(w.mid, w.batch) && after == ApplyBatch(w.mid, w.batch) && |w.mid.roster| < MAX_TOTAL_SIGCHAIN
    && IsGrant(w.batch, TipTokenOf(w.mid), w.tip, w.folded.st, w.folded.mk.secret, joiner, me, ts)
  }

  /** An accepted chain's tip is a box for its own position, holding the last entry. */
  lemma TipAtItsPlace(dev: Device, v: View, rfp: Link, prev: Option<Anchor>)
    requires RepoFold(dev, v, rfp, prev).Ok?
    ensures 0 < |v.entries| <= MAX_TOTAL_SIGCHAIN
    ensures var f := RepoFold(dev, v, rfp, prev).value;
            && f.anchor == Anchor(|v.entries| - 1, v.entries[|v.entries| - 1])
            && f.anchor.tip.Box? && f.anchor.tip.plain.Some? && f.anchor.tip.seqNo == |v.entries| - 1
  {
    var n := |v.entries| - 1;
    hide Fold, PeelRoster;
    var f := RepoFold(dev, v, rfp, prev).value;
    OpensAtPlace(PeelRoster(RosterKey(f.mk.secret), f.mk.gen, v.hist).value, v.entries, n);
  }

  lemma {:induction false} OpensAtPlace(keys: map<nat, RosterKey>, stored: seq<SealedEntry>, i: nat)
    requires OpenAll(keys, stored).Ok? && i < |stored|
    ensures stored[i].Box? && stored[i].plain.Some? && stored[i].seqNo == i
    decreases |stored|
  {
    var n := |stored| - 1;
    if i < n {
      OpensAtPlace(keys, stored[..n], i);
    }
  }

  /** A grant can only lose to a longer chain. */
  lemma LostMeansGrown(view: Tables, mid: Tables, b: RosterBatch)
    requires Dense(view.roster) && Dense(mid.roster) && Extends(view.roster, mid.roster) && |view.roster| > 0
    requires b.expectedTip == TipTokenOf(view) && b.head.None? && b.keyhist.None? && b.rosterKeyhist.None?
    requires !BatchWins(mid, b)
    ensures |view.roster| < |mid.roster|
  {
    var n := |view.roster| - 1;
    assert n in view.roster && n in mid.roster && mid.roster[n] == view.roster[n];
  }

  /**
   `grant_device_remote`: fold, build, send, and again while the tip moves. `others(k)` is what other
   clients do to the store during round `k`; `limited(k)` says that the server's write or hourly
   budget refuses the batch of that round.
   */
  method GrantDevice(store: Store, dev: Device, rfp: Link, known: Option<Anchor>, joiner: Device, ts: nat,
                     others: nat -> seq<StoreOp>, limited: nat -> bool, salt: nat)
    returns (r: Result<Anchor, GrantError>, ghost won: Option<Round>)
    requires Dense(store.t.roster)
    modifies store
    ensures Dense(store.t.roster) && Extends(old(store.t.roster), store.t.roster)
    ensures r.Err? ==> r.error.Refused? || r.error.ServerLimit?
    ensures r == Err(ServerLimit) ==> |store.t.roster| >= MAX_TOTAL_SIGCHAIN || exists k :: limited(k)
    ensures r.Ok? ==> won.Some? && WonBy(won.value, store.t, joiner, dev.id, ts)
    ensures r.Ok? ==> r.value.maxSeq + 1 == |store.t.roster| && TipTokenOf(store.t) == Tip(r.value.tip)
  {
    hide RepoFold, Dense, Extends, StoreRuns.After, ApplyBatch, BatchWins, IsGrant, ViewOf;
    var prev := known;
    var last: Option<SealedEntry> := None;
    var round := 0;
    won := None;
    ExtendsSelf(store.t.roster);
    while true
      invariant Dense(store.t.roster) && Extends(old(store.t.roster), store.t.roster)
      invariant last.Some? ==> last.value.Box? && last.value.seqNo + 1 < |store.t.roster|
      decreases MAX_TOTAL_SIGCHAIN + 1 - |store.t.roster|
    {
      ghost var view := store.t;
      var n := |store.t.roster|;
      AllPresent(store.t.roster);
      var fold := RepoFold(dev, ViewOf(store.t, dev.id, n), rfp, prev);
      if fold.Err? {
        return Err(Refused(fold.error)), None;
      }
      var f := fold.value;
      ViewChain(store.t, dev.id, n);
      TipAtItsPlace(dev, ViewOf(store.t, dev.id, n), rfp, prev);
      prev := Some(f.anchor);
      var tip := f.anchor.tip.plain.value;
      var b := BuildGrant(Tip(f.anchor.tip), tip, f.st, f.mk.secret, joiner, dev.id, ts, salt + round);
      TipIs(store.t, f.anchor.tip);
      GrantShape(b, Tip(f.anchor.tip), tip, f.st, f.mk.secret, joiner, dev.id, ts);
      store.t := StoreRuns.After(store.t, others(round));
      RosterAppendOnly(view, others(round));
      ghost var mid := store.t;
      if |store.t.roster| >= MAX_TOTAL_SIGCHAIN || limited(round) {
        ExtendsOn(old(store.t.roster), view.roster, mid.roster);
        return Err(ServerLimit), None;
      }
      var first := store.ApplyRosterBatch(b);
      if first.Some? {
        GrantTip(mid, b);
        won := Some(Round(mid, f, tip, b));
        WinnersTip(mid, b);
        ExtendsOn(old(store.t.roster), view.roster, mid.roster);
        ExtendsOn(old(store.t.roster), mid.roster, store.t.roster);
        return Ok(Anchor(first.value, b.entries[0])), won;
      }
      LostSame(mid, b);
      LostMeansGrown(view, mid, b);
      ExtendsOn(old(store.t.roster), view.roster, mid.roster);
      if last == Some(f.anchor.tip) {
        return Err(RosterCasConflict), None;
      }
      last := Some(f.anchor.tip);
      round := round + 1;
    }
  }

  lemma ExtendsSelf(r: map<nat, SealedEntry>)
    ensures Extends(r, r)
  {
  }

  lemma AllPresent(r: map<nat, SealedEntry>)
    requires Dense(r)
    ensures forall i :: 0 <= i < |r| ==> i in r
  {
  }

  lemma ViewChain(t: Tables, d: DeviceId, n: nat)
    requires forall i :: 0 <= i < n ==> i in t.roster
    ensures |ViewOf(t, d, n).entries| == n && forall i :: 0 <= i < n ==> ViewOf(t, d, n).entries[i] == t.roster[i]
  {
  }

  lemma TipIs(t: Tables, tip: SealedEntry)
    requires Dense(t.roster) && |t.roster| > 0 && (|t.roster| - 1 in t.roster ==> t.roster[|t.roster| - 1] == tip)
    ensures TipTokenOf(t) == Tip(tip)
  {
  }

  lemma GrantShape(b: RosterBatch, tip: TipToken, last: Entry, st: State, secret: nat, joiner: Device, me: DeviceId,
                   ts: nat)
    requires IsGrant(b, tip, last, st, secret, joiner, me, ts)
    ensures b.expectedTip == tip && |b.entries| == 1 && b.keyhist.None? && b.rosterKeyhist.None? && b.head.None?
  {
  }

  lemma GrantTip(t: Tables, b: RosterBatch)
    requires BatchWins(t, b)
    ensures TipTokenOf(t) == b.expectedTip
  {
  }

  lemma WinnersTip(t: Tables, b: RosterBatch)
    requires Dense(t.roster) && BatchWins(t, b) && |b.entries| == 1
    ensures var after := ApplyBatch(t, b);
            && Dense(after.roster) && Extends(t.roster, after.roster) && |after.roster| == |t.roster| + 1
            && TipTokenOf(after) == Tip(b.entries[0])
  {
    AppendedDense(t.roster, b.entries);
    assert Appended(t.roster, b.entries)[|t.roster| + 0] == b.entries[0];
    hide WriteSlots, SlotsKept, Appended, BatchWins;
  }

  lemma LostSame(t: Tables, b: RosterBatch)
    requires !BatchWins(t, b)
    ensures ApplyBatch(t, b) == t
  {
  }

  /**
   A grant that wins on a healthy repository, from a fold of that very chain, leaves it healthy with
   the joiner in.
   */
  lemma GrantEnrolls(w: Round, after: Tables, rfp: Link, es: seq<Entry>, keys: seq<nat>, joiner: Device, me: DeviceId,
                     ts: nat)
    requires WonBy(w, after, joiner, me, ts) && Healthy(w.mid, rfp, es, keys)
    requires w.tip == es[|es| - 1] && Fold(es, rfp) == Ok(w.folded.st) && w.folded.mk.secret == Secret(keys, |keys|)
    requires me in w.folded.st.members
    ensures var e := AppendEntry(w.tip, GrantOp(w.folded.st, w.folded.mk.secret, joiner), me, ts);
            Healthy(after, rfp, es + [e], keys) && joiner.id in Fold(es + [e], rfp).value.members
  {
    var e := AppendEntry(w.tip, GrantOp(w.folded.st, w.folded.mk.secret, joiner), me, ts);
    GrantKeeps(w.mid, rfp, es, keys, w.batch, joiner, me, ts);
    assert (es + [e])[..|es|] == es && (es + [e])[|es|] == e;
    assert Fold(es + [e], rfp).Ok? by { hide Fold; }
    hide Healthy;
  }
}
