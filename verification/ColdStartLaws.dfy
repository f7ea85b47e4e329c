/** Exactly when a device accepts what a server shows it, and with which keys. */
module ColdStartLaws {
  import opened Prelude
  import opened Sigchain
  import opened Roster
  import opened RosterLaws
  import opened ColdStart

  // ---- key ladders ----

  /** One roster key per generation up to `g`, each wrapped under the next one's. */
  ghost predicate RosterLadder(rk: RosterKey, g: nat, hist: map<nat, RosterWrap>, keys: map<nat, RosterKey>) {
    && (forall k :: k in keys <==> k == g || 1 <= k < g) && keys[g] == rk
    && forall k :: 1 <= k < g ==> k in hist && hist[k] == RosterWrap(keys[k + 1], k, keys[k])
  }

  /** One master secret per generation up to `g`, each wrapped under the next one's. */
  ghost predicate DataLadder(secret: nat, g: nat, hist: map<nat, DataWrap>, keys: map<nat, nat>) {
    && (forall k :: k in keys <==> k == g || 1 <= k < g) && keys[g] == secret
    && forall k :: 1 <= k < g ==> k in hist && hist[k] == DataWrap(keys[k + 1], k, keys[k])
  }

  /** Peeling succeeds with exactly the ladder that the stored wraps form. */
  lemma {:induction false} PeelRosterExact(rk: RosterKey, g: nat, hist: map<nat, RosterWrap>, keys: map<nat, RosterKey>)
    ensures PeelRoster(rk, g, hist) == Some(keys) <==> RosterLadder(rk, g, hist, keys)
    decreases g
  {
    if g <= 1 {
      if RosterLadder(rk, g, hist, keys) { assert keys == map[g := rk]; }
    } else if g - 1 in hist && OpenRosterWrap(rk, g - 1, hist[g - 1]).Some? {
      var prev := OpenRosterWrap(rk, g - 1, hist[g - 1]).value;
      var low := keys - {g};
      PeelRosterExact(prev, g - 1, hist, low);
      if RosterLadder(rk, g, hist, keys) {
        RosterLower(rk, g, hist, keys);
        assert low[g := rk] == keys;
      }
      if PeelRoster(rk, g, hist) == Some(keys) {
        var found := PeelRoster(prev, g - 1, hist).value;
        PeelRosterTop(prev, g - 1, hist);
        assert found == low;
        RosterHigher(prev, rk, g, hist, low);
        assert low[g := rk] == keys;
      }
    }
  }

  lemma RosterLower(rk: RosterKey, g: nat, hist: map<nat, RosterWrap>, keys: map<nat, RosterKey>)
    requires g > 1 && RosterLadder(rk, g, hist, keys)
    ensures g - 1 in hist && hist[g - 1] == RosterWrap(rk, g - 1, keys[g - 1])
    ensures RosterLadder(keys[g - 1], g - 1, hist, keys - {g})
  {
  }

  lemma RosterHigher(prev: RosterKey, rk: RosterKey, g: nat, hist: map<nat, RosterWrap>, low: map<nat, RosterKey>)
    requires g > 1 && RosterLadder(prev, g - 1, hist, low)
    requires g - 1 in hist && hist[g - 1] == RosterWrap(rk, g - 1, prev)
    ensures RosterLadder(rk, g, hist, low[g := rk])
  {
  }

  lemma {:induction false} PeelDataExact(secret: nat, g: nat, hist: map<nat, DataWrap>, keys: map<nat, nat>)
    ensures PeelData(secret, g, hist) == Some(keys) <==> DataLadder(secret, g, hist, keys)
    decreases g
  {
    if g <= 1 {
      if DataLadder(secret, g, hist, keys) { assert keys == map[g := secret]; }
    } else if g - 1 in hist && OpenDataWrap(secret, g - 1, hist[g - 1]).Some? {
      var prev := OpenDataWrap(secret, g - 1, hist[g - 1]).value;
      var low := keys - {g};
      PeelDataExact(prev, g - 1, hist, low);
      if DataLadder(secret, g, hist, keys) {
        DataLower(secret, g, hist, keys);
        assert low[g := secret] == keys;
      }
      if PeelData(secret, g, hist) == Some(keys) {
        var found := PeelData(prev, g - 1, hist).value;
        PeelDataTop(prev, g - 1, hist);
        assert found == low;
        DataHigher(prev, secret, g, hist, low);
        assert low[g := secret] == keys;
      }
    }
  }

  lemma DataLower(secret: nat, g: nat, hist: map<nat, DataWrap>, keys: map<nat, nat>)
    requires g > 1 && DataLadder(secret, g, hist, keys)
    ensures g - 1 in hist && hist[g - 1] == DataWrap(secret, g - 1, keys[g - 1])
    ensures DataLadder(keys[g - 1], g - 1, hist, keys - {g})
  {
  }

  lemma DataHigher(prev: nat, secret: nat, g: nat, hist: map<nat, DataWrap>, low: map<nat, nat>)
    requires g > 1 && DataLadder(prev, g - 1, hist, low)
    requires g - 1 in hist && hist[g - 1] == DataWrap(secret, g - 1, prev)
    ensures DataLadder(secret, g, hist, low[g := secret])
  {
  }

  /** A data keyring is accepted if and only if it is the ladder and every key matches its commitment. */
  lemma DataKeyringExact(secret: nat, g: nat, hist: map<nat, DataWrap>, commits: map<nat, MkCommit>,
                         keys: map<nat, nat>)
    ensures DataKeyring(secret, g, hist, commits) == Ok(keys) <==>
            && DataLadder(secret, g, hist, keys)
            && forall k :: k in keys ==> k in commits && commits[k] == MkCommit(MasterKey(k, keys[k]))
  {
    PeelDataExact(secret, g, hist, keys);
    hide PeelData, DataLadder;
  }

  // ---- opening ----

  /** Each blob is the box, for its own position, of its entry under the key of the generation it names. */
  ghost predicate Opened(keys: map<nat, RosterKey>, stored: seq<SealedEntry>, es: seq<Entry>) {
    && |es| == |stored|
    && forall i :: 0 <= i < |stored| ==> OpenedAt(keys, stored[i], i, es[i])
  }

  ghost predicate OpenedAt(keys: map<nat, RosterKey>, blob: SealedEntry, i: nat, e: Entry) {
    blob.Box? && blob.gen in keys && blob == Box(keys[blob.gen], blob.gen, i, blob.salt, Some(e))
  }

  lemma {:induction false} OpenAllExact(keys: map<nat, RosterKey>, stored: seq<SealedEntry>, es: seq<Entry>)
    ensures OpenAll(keys, stored) == Ok(es) <==> Opened(keys, stored, es)
  {
    if stored != [] {
      var n := |stored| - 1;
      if es != [] { OpenAllExact(keys, stored[..n], es[..|es| - 1]); }
      if OpenAll(keys, stored) == Ok(es) {
        var init, e := OpenAll(keys, stored[..n]).value, OpenAt(keys, n, stored[n]).value;
        assert es == init + [e] && es[..|es| - 1] == init;
        assert OpenedAt(keys, stored[n], n, e);
        forall i | 0 <= i < |stored| ensures OpenedAt(keys, stored[i], i, es[i]) {
          if i < n { assert OpenedAt(keys, stored[..n][i], i, es[..n][i]); }
        }
      }
      if Opened(keys, stored, es) {
        forall i | 0 <= i < n ensures OpenedAt(keys, stored[..n][i], i, es[..n][i]) {
          assert OpenedAt(keys, stored[i], i, es[i]);
        }
        assert OpenedAt(keys, stored[n], n, es[n]);
        assert es == es[..n] + [es[n]];
      }
    }
  }

  // ---- the cold start ----

  /**
   What `fold` must find: a chain within the cap that still has the anchored entry where it was; a
   keyslot for this device and the tip's generation; under its secret a full ladder of roster keys; all
   entries opening at their places to an accepted chain; and on that chain the commitment to that secret.
   */
  ghost predicate Admissible(dev: Device, v: View, rfp: Link, prev: Option<Anchor>, secret: nat,
                             keys: map<nat, RosterKey>, es: seq<Entry>)
  {
    && 0 < |v.entries| <= MAX_TOTAL_SIGCHAIN
    && (prev.Some? ==> prev.value.maxSeq < |v.entries| && v.entries[prev.value.maxSeq] == prev.value.tip)
    && var tip := v.entries[|v.entries| - 1];
       && tip.Box? && tip.gen in v.slots && v.slots[tip.gen] == Slot(dev.xwing, tip.gen, dev.id, secret)
       && RosterLadder(RosterKey(secret), tip.gen, v.hist, keys) && Opened(keys, v.entries, es)
       && Accepted(es, rfp)
       && var st := Fold(es, rfp);
          && st.Ok? && st.value.minAlgo <= ALGO_XWING
          && tip.gen in st.value.mkCommits && st.value.mkCommits[tip.gen] == MkCommit(MasterKey(tip.gen, secret))
  }

  lemma AcceptsAdmissible(dev: Device, v: View, rfp: Link, prev: Option<Anchor>, secret: nat,
                          keys: map<nat, RosterKey>, es: seq<Entry>)
    requires Admissible(dev, v, rfp, prev, secret, keys, es)
    ensures var tip := v.entries[|v.entries| - 1];
            RepoFold(dev, v, rfp, prev) ==
            Ok(Folded(MasterKey(tip.gen, secret), Fold(es, rfp).value, Anchor(|v.entries| - 1, tip)))
  {
    var g := v.entries[|v.entries| - 1].gen;
    PeelRosterExact(RosterKey(secret), g, v.hist, keys);
    OpenAllExact(keys, v.entries, es);
    assert forall k: nat | 1 <= k < g :: k in v.hist;
    hide Fold, PeelRoster, OpenAll, Accepted, Opened;
  }

  lemma OnlyAdmissible(dev: Device, v: View, rfp: Link, prev: Option<Anchor>)
    returns (secret: nat, keys: map<nat, RosterKey>, es: seq<Entry>)
    requires RepoFold(dev, v, rfp, prev).Ok?
    ensures Admissible(dev, v, rfp, prev, secret, keys, es)
  {
    hide Fold, PeelRoster, OpenAll, Accepted, Opened;
    var g := FrameGen(v.entries[|v.entries| - 1]).value;
    secret := Unwrap(v.slots[g], g, dev).value;
    keys := PeelRoster(RosterKey(secret), g, v.hist).value;
    es := OpenAll(keys, v.entries).value;
    PeelRosterExact(RosterKey(secret), g, v.hist, keys);
    OpenAllExact(keys, v.entries, es);
    TipOpened(keys, v.entries, es);
    FoldExact(es, rfp);
  }

  lemma TipOpened(keys: map<nat, RosterKey>, stored: seq<SealedEntry>, es: seq<Entry>)
    requires Opened(keys, stored, es) && stored != []
    ensures stored[|stored| - 1].Box?
  {
    assert OpenedAt(keys, stored[|stored| - 1], |stored| - 1, es[|stored| - 1]);
  }

  /** `f` is read off an admissible view that opens to `es`. */
  ghost predicate ReadOff(dev: Device, v: View, rfp: Link, prev: Option<Anchor>, f: Folded,
                          keys: map<nat, RosterKey>, es: seq<Entry>)
  {
    && Admissible(dev, v, rfp, prev, f.mk.secret, keys, es)
    && f.mk.gen == v.entries[|v.entries| - 1].gen && Fold(es, rfp) == Ok(f.st)
    && f.anchor == Anchor(|v.entries| - 1, v.entries[|v.entries| - 1])
  }

  /** A device accepts a view with a result if and only if the view is admissible and the result is read off it. */
  lemma ColdStartExact(dev: Device, v: View, rfp: Link, prev: Option<Anchor>, f: Folded)
    ensures RepoFold(dev, v, rfp, prev) == Ok(f) <==> exists keys, es :: ReadOff(dev, v, rfp, prev, f, keys, es)
  {
    hide RepoFold, Fold, Admissible;
    if RepoFold(dev, v, rfp, prev) == Ok(f) {
      var secret, keys, es := OnlyAdmissible(dev, v, rfp, prev);
      AcceptsAdmissible(dev, v, rfp, prev, secret, keys, es);
      AdmissibleShape(dev, v, rfp, prev, secret, keys, es);
      assert ReadOff(dev, v, rfp, prev, f, keys, es);
    }
    if keys, es :| ReadOff(dev, v, rfp, prev, f, keys, es) {
      AdmissibleShape(dev, v, rfp, prev, f.mk.secret, keys, es);
      AcceptsAdmissible(dev, v, rfp, prev, f.mk.secret, keys, es);
    }
  }

  lemma AdmissibleShape(dev: Device, v: View, rfp: Link, prev: Option<Anchor>, secret: nat,
                        keys: map<nat, RosterKey>, es: seq<Entry>)
    requires Admissible(dev, v, rfp, prev, secret, keys, es)
    ensures v.entries != [] && v.entries[|v.entries| - 1].Box? && Fold(es, rfp).Ok?
  {
  }
}
