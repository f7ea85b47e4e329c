/**
 The vocabulary of the roster sigchain and of the sealed values the server holds. Hashes and
 commitments are injective terms, an AEAD box opens only under the key and associated data it was
 sealed with, and a signature is a term naming its key and message.
 */
module Sigchain {
  import opened Prelude
  import Objects

  /** A device id is the hash of its public key, so the key and its id are one value. */
  type DeviceId = nat

  /** A canonical public-key field: a parsable key or bytes no parser accepts. */
  datatype PubKey = Canonical(id: DeviceId) | Malformed

  /** A device's enrolment key as the chain records it: none, usable, or unusable. */
  datatype Enroll = NoEnroll | XWing(key: nat) | BadEnroll

  /** A master key of one generation. */
  datatype MasterKey = MasterKey(gen: nat, secret: nat)

  /** `mk_commit_g`: a commitment binding generation and key. */
  datatype MkCommit = MkCommit(mk: MasterKey)

  /** The roster key a master secret derives. */
  datatype RosterKey = RosterKey(secret: nat)

  datatype Op =
    | Genesis(pubkey: PubKey, mkCommit: MkCommit, enroll: Enroll)
    | AddDevice(pubkey: PubKey, mkCommit: MkCommit, enroll: Enroll)
    | RevokeDevice(device: DeviceId)
    | Rotate(mkCommit: MkCommit)
    | SetMinAlgo(minAlgo: nat)

  /** The hash of a full entry, or the all-zero `prev` of genesis. */
  datatype Link = NoLink | LinkTo(entry: Entry)

  /** Everything about an entry that its signature covers. */
  datatype Signed = Signed(seqNo: nat, prev: Link, op: Op, ts: nat, signer: DeviceId)

  datatype Sig = SigBy(key: DeviceId, msg: Signed) | Forged

  datatype Entry = Entry(body: Signed, sig: Sig)

  /**
   What the server may hold as an entry: a box, something with only a frame, or neither. `plain` is
   the box's canonical content.
   */
  datatype SealedEntry =
    | Box(key: RosterKey, gen: nat, seqNo: nat, salt: nat, plain: Option<Entry>)
    | Framed(frame: nat, junk: nat)
    | NoFrame(bytes: nat)

  /** A keyslot: a master secret wrapped to one X-Wing key for one device and generation. */
  datatype Slot = Slot(to: nat, gen: nat, device: DeviceId, secret: nat) | JunkSlot(bytes: nat)

  /** A roster-key-history wrap of generation `g` under the next generation's roster key. */
  datatype RosterWrap = RosterWrap(under: RosterKey, g: nat, key: RosterKey) | JunkRosterWrap(bytes: nat)

  /** A data-key-history wrap of generation `g` under the next generation's master secret. */
  datatype DataWrap = DataWrap(under: nat, g: nat, secret: nat) | JunkDataWrap(bytes: nat)

  /** A sealed, signed head blob. */
  datatype HeadBlob = HeadBlob(gen: nat, ref: string, commit: Objects.CommitId, version: nat,
                               rosterSeq: nat, signer: DeviceId, nonce: nat)

  /** A stored object blob: the id it verifies against, if any, and its byte length. */
  datatype ObjBlob = ObjBlob(opens: Option<Objects.Id>, len: nat)

  /** `BLAKE3` of a stored roster entry, or the absent sentinel. */
  datatype TipToken = NoTip | Tip(entry: SealedEntry)

  /** `BLAKE3` of a stored head blob, or the absent sentinel. */
  datatype HeadToken = NoHead | HeadOf(blob: HeadBlob)

  /** The generation a blob announces in clear; a blob without a frame announces none. */
  function FrameGen(e: SealedEntry): Option<nat> {
    match e
    case Box(_, gen, _, _, _) => Some(gen)
    case Framed(frame, _) => Some(frame)
    case NoFrame(_) => None
  }
}
