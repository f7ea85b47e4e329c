/** The roster sigchain: folding a chain to its state, the revoke closure, and what the fold keeps. */
module Roster {
  import opened Prelude
  import opened Sigchain

  const MIN_ALGO_ID: nat := 1

  datatype RosterError =
    | Empty | BadGenesis | RfpMismatch | DoubleGenesis | BadSeq | ChainBreak | NotMember
    | BadSignature | BadCommit | BadKey | SelfRevoke | Canon | NoSuchFrame | Aead | BadGeneration | MkCommitMismatch

  /** The folded roster. A device id stands for its public key. */
  datatype State = State(
    members: set<DeviceId>,
    ever: set<DeviceId>,
    generation: nat,
    minAlgo: nat,
    mkCommits: map<nat, MkCommit>,
    addedBy: map<DeviceId, DeviceId>,
    addedAt: map<DeviceId, nat>,
    enrolls: map<DeviceId, Enroll>,
    tipSeq: nat)

  predicate SigOk(key: DeviceId, e: Entry) {
    e.sig == SigBy(key, e.body)
  }

  function WithEnroll(enrolls: map<DeviceId, Enroll>, id: DeviceId, enroll: Enroll): map<DeviceId, Enroll> {
    if enroll == NoEnroll then enrolls - {id} else enrolls[id := enroll]
  }

  function FoldGenesis(g: Entry, rfp: Link): Result<State, RosterError> {
    if g.body.seqNo != 0 || g.body.prev != NoLink then Err(BadGenesis)
    else if LinkTo(g) != rfp then Err(RfpMismatch)
    else if !g.body.op.Genesis? then Err(BadGenesis)
    else
      var op := g.body.op;
      if op.pubkey == Malformed then Err(BadKey)
      else if g.body.signer != op.pubkey.id then Err(BadGenesis)
      else if !SigOk(op.pubkey.id, g) then Err(BadSignature)
      else
        var d := g.body.signer;
        Ok(State({d}, {d}, 1, MIN_ALGO_ID, map[1 := op.mkCommit], map[], map[],
                 WithEnroll(map[], d, op.enroll), 0))
  }

  /** One validated entry's effect. */
  function Apply(st: State, e: Entry): Result<State, RosterError> {
    match e.body.op
    case Genesis(_, _, _) => Err(DoubleGenesis)
    case AddDevice(pubkey, mkCommit, enroll) =>
      if st.generation !in st.mkCommits || st.mkCommits[st.generation] != mkCommit then Err(BadCommit)
      else if pubkey == Malformed then Err(BadKey)
      else
        // `addedBy` and `addedAt` describe the most recent grant only.
        Ok(st.(members := st.members + {pubkey.id},
               ever := st.ever + {pubkey.id},
               addedBy := st.addedBy[pubkey.id := e.body.signer],
               addedAt := st.addedAt[pubkey.id := e.body.seqNo],
               enrolls := WithEnroll(st.enrolls, pubkey.id, enroll),
               tipSeq := e.body.seqNo))
    case RevokeDevice(device) =>
      Ok(st.(members := st.members - {device},
             addedBy := st.addedBy - {device},
             addedAt := st.addedAt - {device},
             enrolls := st.enrolls - {device},
             tipSeq := e.body.seqNo))
    case Rotate(mkCommit) =>
      if st.generation >= U32_MAX then Err(BadSeq)
      else
        Ok(st.(generation := st.generation + 1,
               mkCommits := st.mkCommits[st.generation + 1 := mkCommit],
               tipSeq := e.body.seqNo))
    case SetMinAlgo(minAlgo) =>
      Ok(st.(minAlgo := Max(st.minAlgo, minAlgo), tipSeq := e.body.seqNo))
  }

  /** Entry `i`, following `prev`, on state `st`: order, link, succession, signature, effect. */
  function Step(st: State, prev: Entry, i: nat, e: Entry): Result<State, RosterError> {
    if e.body.seqNo != i then Err(BadSeq)
    else if e.body.prev != LinkTo(prev) then Err(ChainBreak)
    else if e.body.signer !in st.members then Err(NotMember)
    else if !SigOk(e.body.signer, e) then Err(BadSignature)
    else Apply(st, e)
  }

  /** The fold of a chain against the pinned genesis hash. */
  function Fold(es: seq<Entry>, rfp: Link): Result<State, RosterError> {
    if es == [] then Err(Empty)
    else if |es| == 1 then FoldGenesis(es[0], rfp)
    else
      var n := |es| - 1;
      match Fold(es[..n], rfp)
      case Err(x) => Err(x)
      case Ok(st) => Step(st, es[n - 1], n, es[n])
  }

  /** `fold` as the loop it is: the state is threaded through the entries in order. */
  method FoldChain(es: seq<Entry>, rfp: Link) returns (r: Result<State, RosterError>)
    ensures r == Fold(es, rfp)
  {
    if es == [] {
      return Err(Empty);
    }
    assert es[..1] == [es[0]];
    r := FoldGenesis(es[0], rfp);
    for i := 1 to |es|
      invariant r == Fold(es[..i], rfp)
    {
      assert es[..i + 1][..i] == es[..i];
      if r.Ok? {
        r := Step(r.value, es[i - 1], i, es[i]);
      }
    }
    assert es[..|es|] == es;
  }

  // ---- what every accepted chain keeps ----

  /** The later state only grew: no generation, floor, admitted device or commitment was lost. */
  ghost predicate Grew(a: State, b: State) {
    && a.generation <= b.generation && a.minAlgo <= b.minAlgo && a.ever <= b.ever && a.tipSeq <= b.tipSeq
    && forall g :: g in a.mkCommits && g <= a.generation ==> g in b.mkCommits && b.mkCommits[g] == a.mkCommits[g]
  }

  /** The shape of every folded state. */
  ghost predicate Shape(st: State) {
    && 1 <= st.generation <= U32_MAX
    && (forall g: nat :: g in st.mkCommits <==> 1 <= g <= st.generation)
    && st.members <= st.ever
    && st.addedBy.Keys == st.addedAt.Keys <= st.members
    && st.enrolls.Keys <= st.members
    && forall d :: d in st.enrolls ==> st.enrolls[d] != NoEnroll
  }

  lemma StepShape(st: State, prev: Entry, i: nat, e: Entry)
    requires Shape(st) && Step(st, prev, i, e).Ok? && st.tipSeq < i
    ensures Shape(Step(st, prev, i, e).value) && Grew(st, Step(st, prev, i, e).value)
    ensures Step(st, prev, i, e).value.tipSeq == i
  {
    if e.body.op.AddDevice? {
      AddShape(st, e);
    } else if e.body.op.Rotate? {
      RotateShape(st, e);
    }
  }

  lemma AddShape(st: State, e: Entry)
    requires Shape(st) && e.body.op.AddDevice? && Apply(st, e).Ok? && st.tipSeq < e.body.seqNo
    ensures Shape(Apply(st, e).value) && Grew(st, Apply(st, e).value)
  {
  }

  lemma RotateShape(st: State, e: Entry)
    requires Shape(st) && e.body.op.Rotate? && Apply(st, e).Ok? && st.tipSeq < e.body.seqNo
    ensures Shape(Apply(st, e).value) && Grew(st, Apply(st, e).value)
  {
  }

  lemma {:induction false} FoldShape(es: seq<Entry>, rfp: Link)
    requires Fold(es, rfp).Ok?
    ensures Shape(Fold(es, rfp).value) && Fold(es, rfp).value.tipSeq == |es| - 1
  {
    if |es| > 1 {
      var n := |es| - 1;
      FoldShape(es[..n], rfp);
      StepShape(Fold(es[..n], rfp).value, es[n - 1], n, es[n]);
    }
  }

  /** Every prefix of an accepted chain is accepted, and the longer fold only grew. */
  lemma {:induction false} FoldPrefix(es: seq<Entry>, rfp: Link, k: nat)
    requires Fold(es, rfp).Ok? && 1 <= k <= |es|
    ensures Fold(es[..k], rfp).Ok? && Grew(Fold(es[..k], rfp).value, Fold(es, rfp).value)
  {
    if k == |es| {
      assert es[..k] == es;
    } else {
      hide Step, Shape;
      var n := |es| - 1;
      FoldPrefix(es[..n], rfp, k);
      assert es[..n][..k] == es[..k];
      FoldShape(es[..n], rfp);
      StepShape(Fold(es[..n], rfp).value, es[n - 1], n, es[n]);
    }
  }

  /** Accepted chains are hash-linked: each entry but the first names its predecessor. */
  lemma {:induction false} FoldLinks(es: seq<Entry>, rfp: Link, i: nat)
    requires Fold(es, rfp).Ok? && i < |es|
    ensures es[i].body.prev == if i == 0 then NoLink else LinkTo(es[i - 1])
    ensures i == 0 ==> LinkTo(es[0]) == rfp
  {
    if |es| > 1 {
      var n := |es| - 1;
      if i < n {
        FoldLinks(es[..n], rfp, i);
      }
    }
  }

  // ---- the revoke closure ----

  predicate GrantedBy(st: State, a: DeviceId, d: DeviceId) {
    d in st.addedBy && st.addedBy[d] == a && d in st.addedAt
  }

  /** A chain of grants from `path[0]` down that never passes through `revoker`. */
  ghost predicate GrantPath(st: State, revoker: DeviceId, path: seq<DeviceId>) {
    && path != []
    && forall i :: 0 < i < |path| ==> GrantedBy(st, path[i - 1], path[i]) && path[i] != revoker
  }

  ghost predicate Descends(st: State, target: DeviceId, revoker: DeviceId, d: DeviceId) {
    exists path :: GrantPath(st, revoker, path) && path[0] == target && path[|path| - 1] == d
  }

  /** A revocation of `target` also evicts `d`: granted since `after` through a line of grants starting at `target`. */
  ghost predicate InClosure(st: State, target: DeviceId, after: nat, revoker: DeviceId, d: DeviceId) {
    && d != target && d != revoker && d in st.addedAt && st.addedAt[d] >= after
    && Descends(st, target, revoker, d)
  }

  lemma DescendsSelf(st: State, target: DeviceId, revoker: DeviceId)
    ensures Descends(st, target, revoker, target)
  {
    assert GrantPath(st, revoker, [target]);
  }

  lemma DescendsStep(st: State, target: DeviceId, revoker: DeviceId, a: DeviceId, d: DeviceId)
    requires Descends(st, target, revoker, a) && GrantedBy(st, a, d) && d != revoker
    ensures Descends(st, target, revoker, d)
  {
    var path :| GrantPath(st, revoker, path) && path[0] == target && path[|path| - 1] == a;
    assert GrantPath(st, revoker, path + [d]);
  }

  lemma {:induction false} PathInside(st: State, revoker: DeviceId, s: set<DeviceId>, path: seq<DeviceId>)
    requires GrantPath(st, revoker, path) && path[0] in s
    requires forall a, d :: a in s && GrantedBy(st, a, d) && d != revoker ==> d in s
    ensures path[|path| - 1] in s
  {
    if |path| > 1 {
      var n := |path| - 1;
      PathInside(st, revoker, s, path[..n]);
      assert GrantedBy(st, path[n - 1], path[n]) && path[n] != revoker;
    }
  }

  function SetOf(ds: seq<DeviceId>): set<DeviceId> {
    set d | d in ds
  }

  /** One closure level: the current members `adder` granted. */
  function AddedBy(st: State, adder: DeviceId): set<DeviceId> {
    set d | d in st.addedBy && st.addedBy[d] == adder && d in st.addedAt
  }

  /** The walk's state: everything seen descends from the target, and pending levels are on the list. */
  ghost predicate Walked(st: State, target: DeviceId, after: nat, revoker: DeviceId,
                         seen: set<DeviceId>, work: seq<DeviceId>, result: set<DeviceId>) {
    && target in seen && revoker in seen
    && (forall d :: d in seen && d != revoker ==> Descends(st, target, revoker, d))
    && (forall a :: a in work ==> a in seen && Descends(st, target, revoker, a))
    && (forall a, d :: a in seen && (a != revoker || a == target) && GrantedBy(st, a, d) ==> d in seen || a in work)
    && (forall d :: d in result <==>
          d in seen && d != target && d != revoker && d in st.addedAt && st.addedAt[d] >= after)
  }

  lemma WalkStarts(st: State, target: DeviceId, after: nat, revoker: DeviceId)
    ensures Walked(st, target, after, revoker, {target, revoker}, [target], {})
  {
    DescendsSelf(st, target, revoker);
  }

  /** Taking one device off the list, with its newly seen grantees put on it. */
  lemma WalkLevel(st: State, target: DeviceId, after: nat, revoker: DeviceId,
                  seen: set<DeviceId>, work: seq<DeviceId>, result: set<DeviceId>,
                  more: seq<DeviceId>, late: set<DeviceId>)
    requires work != [] && Walked(st, target, after, revoker, seen, work, result)
    requires forall d :: d in more <==> d in AddedBy(st, work[|work| - 1]) && d !in seen
    requires forall d :: d in late <==> d in more && d in st.addedAt && st.addedAt[d] >= after
    ensures Walked(st, target, after, revoker, seen + SetOf(more), work[..|work| - 1] + more, result + late)
  {
    hide Descends;
    var cur := work[|work| - 1];
    assert work == work[..|work| - 1] + [cur];
    forall d | d in more ensures Descends(st, target, revoker, d) {
      DescendsStep(st, target, revoker, cur, d);
    }
  }

  lemma WalkEnds(st: State, target: DeviceId, after: nat, revoker: DeviceId, seen: set<DeviceId>, result: set<DeviceId>)
    requires Walked(st, target, after, revoker, seen, [], result)
    ensures forall d :: d in result <==> InClosure(st, target, after, revoker, d)
  {
    forall d | InClosure(st, target, after, revoker, d) ensures d in result {
      var path :| GrantPath(st, revoker, path) && path[0] == target && path[|path| - 1] == d;
      var s := set x | x in seen && (x != revoker || x == target);
      PathInside(st, revoker, s, path);
    }
  }

  /** `revoke_closure`: exactly the later grants below the target, never the revoker or the target. */
  method RevokeClosure(st: State, target: DeviceId, after: nat, revoker: DeviceId) returns (result: set<DeviceId>)
    ensures forall d :: d in result <==> InClosure(st, target, after, revoker, d)
  {
    hide Walked, InClosure;
    result := {};
    var seen := {target, revoker};
    var work := [target];
    WalkStarts(st, target, after, revoker);
    while work != []
      invariant Walked(st, target, after, revoker, seen, work, result)
      decreases st.addedBy.Keys - seen, |work|
    {
      var cur := work[|work| - 1];
      var more, late := TakeLevel(st, cur, after, seen);
      WalkLevel(st, target, after, revoker, seen, work, result, more, late);
      ghost var was := seen;
      work := work[..|work| - 1] + more;
      seen := seen + SetOf(more);
      result := result + late;
      if more != [] {
        assert more[0] in more && more[0] in st.addedBy.Keys - was;
      }
    }
    WalkEnds(st, target, after, revoker, seen, result);
  }

  /** One pass over a device's grantees: those not yet seen, and which of them are late enough. */
  method TakeLevel(st: State, cur: DeviceId, after: nat, seen: set<DeviceId>)
    returns (more: seq<DeviceId>, late: set<DeviceId>)
    ensures forall d :: d in more <==> d in AddedBy(st, cur) && d !in seen
    ensures forall d :: d in late <==> d in more && d in st.addedAt && st.addedAt[d] >= after
  {
    more, late := [], {};
    var todo := AddedBy(st, cur);
    while todo != {}
      invariant todo <= AddedBy(st, cur)
      invariant forall d :: d in more <==> d in AddedBy(st, cur) - todo && d !in seen
      invariant forall d :: d in late <==> d in more && d in st.addedAt && st.addedAt[d] >= after
      decreases todo
    {
      var d :| d in todo;
      if d !in seen {
        more := more + [d];
        if d in st.addedAt && st.addedAt[d] >= after {
          late := late + {d};
        }
      }
      todo := todo - {d};
    }
  }
}
