# secsec, modelled and proved

secsec keeps folders in sync through a server that only ever sees sealed blobs. This project models
the parts of it where data could get lost or keys could go astray, and proves what they promise.

- **Objects and pushes** (`Objects`, `StoreModel`, `StoreRuns`, `KeyRanges`, `Push`, `Retention`,
  `RetentionLaws`, `Protocol`, `ProtocolHistory`): the server's tables as a class and as a state
  machine; clients stage objects, swap a head under a hash token and prune history, in any interleaving.
- **Roster and keys** (`Sigchain`, `Roster`, `RosterLaws`, `ColdStart`, `ColdStartLaws`, `Rotation`,
  `Repo`, `RepoLive`, `Grant`): the signed roster chain, key histories, revocation with rotation, and
  cold starts against an anchor.
- **Trees** (`Names`, `Utf8`, `Merge`, `MergeLaws`, `TreeCodec`, `TreeBuffers`, `Seal`, `SealLaws`,
  `Restore`, `Reconcile`, `RestoreLaws`, `RestoreExact`): the three-way merge, the tree codec,
  sealing and loading, and restoring onto a disk.
- **Graphs** (`Dag`, `Topo`, `Fetch`, `Diff`, `Paths`): ancestors, merge bases, history order,
  post-order fetch and the id-pruned diff, each against a path-based specification.
- **Fast forms** (`Chunking`, `Canon`, `Wire`, `WireBuffers`, `Layouts`, `Limits`, `Server`,
  `Rates`, `Budgets`, `Quotas`): streaming chunking, strict codecs, rate limits, idle sweeping, the
  hourly roster budget under interleaved requests and quota accounting.

`Prelude` and `Frame` hold shared vocabulary and the size limits.

How the world is modelled:

- Hashes. In the protocol, fetch, diff and roster parts an id or hash is the term that was hashed,
  so equal ids mean equal content and the object graph has no cycles. The tree codec works on real
  bytes; there the content id is a function of key generation, salt and plaintext, injective only on
  the finite set of those in play, and only where two trees must not be confused. A stored tree names
  its generation, loads under any generation of the key ring and is sealed under the current one.
- AEADs are boxes that open only under the key, generation and position they were sealed for;
  signatures are a predicate on signer and message.
- Clients run the code modelled here. A push's stages and its swap each come within the staging TTL
  of the push's previous stage; `Protocol.ReclaimedPushLosesData` shows that this is needed.
- Each push draws a push id that no earlier push and no staged row uses; the program draws 16 random bytes.
- Transactions are atomic steps. The disk is a tree of regular files with mtime and data,
  directories and special files; entry names are Unicode strings, with UTF-8 spelled out where
  lengths, order or bytes matter.
- Clocks, random salts, remote answers and reader chunk sizes are parameters, so each result holds
  for all of them.
- Saturating and truncating integer operations are written out where they matter: token buckets,
  windows, list counts, length prefixes and search counters.

Places where the code does less than its words. The window counter's expiry saturates, so at the
very last second of the 64-bit clock it forgets everything (`Limits.PruneDropsOnlyExpired` gives the
exact condition). A refund drops the counter's newest events, whosever they are: when requests of a key
overlap, a late refund can leave more entries standing in an hour than the budget allows
(`Budgets.LateRefundOverruns`); `Limits.RefundExact` gives the exact condition. The search for a local
conflict name never ends once the unnumbered name is too long (`Reconcile.NameLost`). `seal_nodes` checks sizes but neither names nor depth, so it accepts trees that cannot
be loaded again: `SealLaws.UnsafeNameSealsUnloadable` exhibits one and `SealLaws.SealedLoads` says
exactly which they are. The function is private to its crate and called on merge results only, and
`SealLaws.MergedTreeLoads` shows that a merge of loaded trees is never one of them.

`dafny verify dfyconfig.toml` checks the project.

## Model

| member | source | states |
|---|---|---|
| `Protocol.NoDataLoss` | crates/secsec-client/src/lib.rs:246-343 | in every interleaving of pushes, won and lost swaps, reclaims, prunes and roster batches, each ref's head has its whole commit history and full tree-and-chunk closure durable, and every durable blob verifies against its id |
| `Protocol.RunKeeps` | crates/secsec-store/src/lib.rs:319-371 | the inductive invariant behind it (in-flight pushes covered by old head plus staging, claims safe for their head) holds after every run |
| `Protocol.StepKeeps` | crates/secsec-store/src/lib.rs:443-460 | each single step of any client or of the server keeps that invariant |
| `Protocol.SwapCovers` | crates/secsec-client/src/lib.rs:319-343 | a swap that wins against its token finds everything its target needs in the old head's closure or in its own staging |
| `Protocol.PruneSpares` | crates/secsec-store/src/lib.rs:555-589 | a prune fires only against the one head its dead set was computed from, so no head loses content |
| `Protocol.IdleExactly` | crates/secsec-store/src/lib.rs:498-533 | a push is reclaimed exactly when its last stage is a whole TTL old (or was stamped zero) |
| `Protocol.ReclaimedPushLosesData` | crates/secsec-store/src/lib.rs:498-533 | the TTL assumption is needed: a first push reclaimed between its last stage and its swap leaves a head whose content is gone |
| `Push.Plan` | crates/secsec-client/src/lib.rs:246-317 | the push planner computes exactly the required and the optional ids of a target against the remote head, which together with what is known are the whole content of every new commit |
| `Push.PlanCovers` | crates/secsec-client/src/lib.rs:246-317 | everything a target needs is needed by the remote head already or required by the plan |
| `Push.PlanCoversHistory` | crates/secsec-client/src/lib.rs:246-317 | the whole content of the target's history is that of the remote head's history and the plan, required and optional |
| `Push.PlanSendsNew` | crates/secsec-client/src/lib.rs:246-317 | nothing the remote head needs is sent again, and nothing outside the target's history is sent |
| `ProtocolHistory.PushLands` | crates/secsec-client/src/lib.rs:246-343 | with nobody in between, a push that holds everything required wins, its target becomes the head and what it held is durable |
| `ProtocolHistory.WonPushKeepsHistory` | crates/secsec-client/src/lib.rs:284-317 | a push that wins leaves the whole content of every commit it adds durable, up to the optional ids it did not hold |
| `ProtocolHistory.HistoryStays` | crates/secsec-client/src/lib.rs:284-317 | in every reachable state each tree and chunk of each commit in a head's history is durable, or some push went past it without holding it, or some prune deleted it |
| `ProtocolHistory.TreesOnlySkipped` | crates/secsec-client/src/prune.rs:70-88 | prunes delete chunks only, so a missing tree was never held by some push |
| `Push.NewCommitSet` | crates/secsec-client/src/lib.rs:246-317 | the commits to send are exactly those of the target's history outside the remote head's |
| `Push.TreeClosureWalk` | crates/secsec-snapshot/src/lib.rs:1511-1541 | the worklist walk adds exactly tree and chunk ids under the root and misses nothing that is not behind a known subtree |
| `Push.LenientWalks` | crates/secsec-client/src/lib.rs:284-295 | walking older commits' trees collects their closures up to what is known |
| `Push.LoadCommitDag` | crates/secsec-engine/src/lib.rs:216-240 | the loaded parent map covers exactly the histories of the heads, and the only error is a missing commit |
| `Push.ReachIsHistory` | crates/secsec-engine/src/lib.rs:216-240 | path reachability in a loaded parent map is history membership |
| `StoreModel.Store.StageBlob` | crates/secsec-store/src/lib.rs:443-460 | staging touches only the push's key and its clock |
| `StoreModel.Store.StagedBytes` | crates/secsec-store/src/lib.rs:481-494 | the bytes staged under a push that are not yet durable |
| `StoreModel.Store.CasHead` | crates/secsec-store/src/lib.rs:319-371 | on a token match the ref moves and the push's staging is promoted first-write-wins, else nothing changes; the promoted bytes are the fresh ones |
| `StoreModel.Store.PromoteObjects` | crates/secsec-store/src/lib.rs:319-371 | the promote loop keeps durable blobs and adds the fresh staged ones |
| `StoreModel.Store.ReclaimStaging` | crates/secsec-store/src/lib.rs:498-533 | drops exactly the idle pushes and counts them |
| `StoreModel.Store.PruneIf` | crates/secsec-store/src/lib.rs:555-589 | deletes the dead set exactly when the claim about refs and roster length holds in that transaction |
| `StoreModel.Store.ApplyRosterBatch` | crates/secsec-store/src/lib.rs:212-296 | all of a batch's writes happen when the tip token and any head token match and no wrap it writes is already fixed, else none |
| `StoreRuns.RosterAppendOnly` | crates/secsec-store/src/lib.rs:212-296 | over every run roster entries never change and stay densely numbered |
| `StoreRuns.HeadsFormAChain` | crates/secsec-store/src/lib.rs:319-371 | every winning swap of a ref presented exactly the head the previous winner left |
| `StoreRuns.StagingProvenance` | crates/secsec-store/src/lib.rs:443-460 | every staged blob was put there by a stage call of its push |
| `StoreRuns.DurableProvenance` | crates/secsec-store/src/lib.rs:319-371 | every readable object was staged by a push and became readable when that push later won its swap |
| `StoreRuns.RevokeClearsExactly` | crates/secsec-store/src/lib.rs:212-296 | a winning batch clears exactly the revoked devices' keyslots except those it writes; genesis keeps only its own |
| `StoreRuns.WrapsFixed` | crates/secsec-store/src/lib.rs:212-296 | while appended generations do not go down, a wrap is fixed once the tip has passed its generation |
| `KeyRanges.StagingRangeExact` | crates/secsec-store/src/lib.rs:86-100 | the staging range covers exactly one push's keys, and keys determine push and id |
| `KeyRanges.KeyslotRangeExact` | crates/secsec-store/src/lib.rs:104-118 | the keyslot range covers exactly one device's keys across generations, and keys determine device and generation |
| `Roster.FoldChain` | crates/secsec-roster/src/lib.rs:631-724 | the fold loop, entry by entry, with every rejection in order |
| `Roster.FoldShape` | crates/secsec-roster/src/lib.rs:631-724 | an accepted chain's state is consistent and its tip is the last entry |
| `Roster.FoldPrefix` | crates/secsec-roster/src/lib.rs:631-724 | every prefix of an accepted chain is accepted and generation, algorithm floor and ever-members only grow |
| `Roster.FoldLinks` | crates/secsec-roster/src/lib.rs:631-724 | an accepted chain is hash-linked back to the fingerprint |
| `RosterLaws.FoldExact` | crates/secsec-roster/src/lib.rs:631-724 | a chain is accepted if and only if it is founded by the key it names and every later entry is numbered, linked, signed by its signer, signed by someone the chain so far makes a member, and allowed by its kind |
| `RosterLaws.FoldState` | crates/secsec-roster/src/lib.rs:631-724 | every field of the folded state read off the chain: members, everyone ever admitted, granters and grant positions, enrolment keys, generations with their commitments, the algorithm floor |
| `RosterLaws.FirstFault` | crates/secsec-roster/src/lib.rs:672-722 | a refused chain is refused for the first rule broken by its first bad entry, whatever follows |
| `RosterLaws.ClosureOnChain` | crates/secsec-roster/src/lib.rs:782-807 | the revoke closure is, on the chain itself, the standing grants from a position on that go back to the target by a line of grants avoiding the revoker |
| `Roster.RevokeClosure` | crates/secsec-roster/src/lib.rs:784-807 | the worklist returns exactly the members granted at or after the reference and reachable by grants from the target without passing the revoker; it ends on re-add cycles |
| `Rotation.RevokeRotateOps` | crates/secsec-roster/src/lib.rs:809-828 | the ops are the target, exactly its closure, then the rotation; refused exactly when a device revokes itself |
| `Rotation.RotateFolds` | crates/secsec-roster/src/lib.rs:576-588 | such ops signed by a member fold to the state with exactly those devices evicted and the generation raised by one |
| `Rotation.RevocationTakesEffect` | crates/secsec-roster/src/lib.rs:809-828 | after the batch the members are exactly those of the chain but the target and whoever holds a grant, from the given position on, that goes back to the target; the generation is one higher and the revoker stays |
| `ColdStart.PeelRosterKeys` | crates/secsec-roster/src/lib.rs:438-461 | the peel loop yields a key for every generation down to one, or fails where a wrap is missing or does not open |
| `ColdStart.PeelDataKeys` | crates/secsec-roster/src/lib.rs:494-525 | the data-key peel and its commitment check as loops |
| `ColdStart.OpenChain` | crates/secsec-roster/src/lib.rs:727-761 | each stored entry opens under the key of the generation in its frame, at its own position |
| `ColdStart.ColdStartChain` | crates/secsec-roster/src/lib.rs:727-761 | cold start is peel, open, fold, with the errors in that order |
| `ColdStartLaws.ColdStartExact` | crates/secsec-client/src/repo.rs:241-306 | a device accepts what it is shown if and only if the chain is within the cap and keeps the anchored entry, its keyslot for the tip's generation opens, the wraps form a full ladder of roster keys, every entry opens at its place to an accepted chain, and that chain commits to the very secret |
| `ColdStartLaws.DataKeyringExact` | crates/secsec-roster/src/lib.rs:494-525 | a data keyring is accepted if and only if the wraps form the ladder and every key matches its commitment |
| `ColdStart.AcceptedExtends` | crates/secsec-client/src/repo.rs:264-306 | a cold start accepted against an earlier anchor extends the earlier chain entry for entry |
| `ColdStart.NeverRollsBack` | crates/secsec-client/src/repo.rs:264-306 | along any sequence of accepted cold starts carrying the anchor, chains only extend and generation, floor and ever-members only grow |
| `Repo.BuildGenesis` | crates/secsec-client/src/repo.rs:203-230 | init sends the self-signed first entry and the founder's keyslot, nothing else |
| `Repo.BuildGrant` | crates/secsec-client/src/repo.rs:361-409 | a grant sends one AddDevice sealed at the current generation and the joiner's keyslot against the folded tip |
| `Grant.GrantDevice` | crates/secsec-client/src/repo.rs:361-409 | the retry loop against arbitrary interference: every lost round means the chain grew, so it ends, and the give-up against an unmoved tip is never reached; success means its batch won on the tip it folded, under the chain cap; the server's cap and budgets are error exits |
| `Grant.GrantEnrolls` | crates/secsec-client/src/repo.rs:361-409 | such a success on a healthy repository leaves it healthy with the joiner a member |
| `Repo.BuildRotation` | crates/secsec-client/src/repo.rs:446-537 | a rotation batch seals entries before Rotate at g and Rotate at g+1, wraps both key histories, rewraps every remaining member and revokes exactly the closure |
| `Repo.SealRun` | crates/secsec-client/src/repo.rs:446-537 | the sealing loop switches generation at the Rotate and not before |
| `Repo.RewrapSlots` | crates/secsec-client/src/repo.rs:446-537 | every remaining member gets the new secret, or the build fails on one without a usable key |
| `Repo.StartsCold` | crates/secsec-roster/src/lib.rs:727-761 | a healthy repository cold-starts to exactly the fold of its chain |
| `Repo.RingComplete` | crates/secsec-client/src/repo.rs:338-358 | the data keyring holds exactly every generation's key, each matching its commitment |
| `Repo.MembersColdStart` | crates/secsec-client/src/repo.rs:264-306 | in a healthy repository every member opens the chain under the current key and gets the whole keyring |
| `Repo.RotationKeeps` | crates/secsec-client/src/repo.rs:446-537 | a won rotation leaves the repository healthy under the new key, with exactly the batch's devices evicted |
| `Repo.GenesisFounds` | crates/secsec-client/src/repo.rs:203-230 | a won genesis founds a healthy repository whatever keyslots were squatted before |
| `Repo.GrantKeeps` | crates/secsec-client/src/repo.rs:361-409 | a won grant keeps the repository healthy with the joiner a member |
| `Repo.WinnerIsCurrent` | crates/secsec-store/src/lib.rs:212-296 | a batch can only win against the very chain and keys it was built from |
| `Repo.EveryRunHealthy` | crates/secsec-client/src/repo.rs:446-537 | over every run of grants, rotations and other store operations, built from however old a view, the repository stays healthy |
| `Repo.RevokedHoldNothing` | crates/secsec-client/src/repo.rs:446-537 | at every moment no device outside the membership has a keyslot at any generation |
| `RepoLive.CurrentGrantTaken` | crates/secsec-client/src/repo.rs:361-409 | a grant built by a member on the current chain is taken and its joiner is a member |
| `RepoLive.CurrentRotationTaken` | crates/secsec-client/src/repo.rs:446-537 | a rotation built on the current chain and head is taken: one more generation, and the members are those before but the ones it names |
| `Merge.SameSymmetric` | crates/secsec-sync/src/merge.rs:89-99 | content equality is symmetric |
| `Merge.SameTransitive` | crates/secsec-sync/src/merge.rs:89-99 | content equality is transitive |
| `Merge.SameReflexive` | crates/secsec-sync/src/merge.rs:89-99 | content equality is reflexive |
| `Merge.MergeInto` | crates/secsec-sync/src/merge.rs:184-263 | the recursive loop over sorted names computes the merge specification |
| `Merge.ThreeWayMerge` | crates/secsec-sync/src/merge.rs:170-182 | the entry point merges from the root |
| `Merge.DirShape` | crates/secsec-sync/src/merge.rs:184-263 | nothing is overwritten: each name holds what was settled for it, each diverged name of theirs has a copy of its own outside all names in play, and there is nothing else |
| `MergeLaws.OursSurvive` | crates/secsec-sync/src/merge.rs:184-263 | each file of ours that differs from the base is still at its path, up to its mode |
| `MergeLaws.TheirsSurvive` | crates/secsec-sync/src/merge.rs:184-263 | each file of theirs that differs from the base is at its path, or at the path with one component replaced by a conflict name where no side had a file |
| `MergeLaws.NothingInvented` | crates/secsec-sync/src/merge.rs:184-263 | every file of the result comes from ours or theirs there, or is a keep-both copy of theirs |
| `MergeLaws.PointwisePick` | crates/secsec-sync/src/merge.rs:184-263 | without conflicts the contents are the pointwise three-way pick and no path changed two ways |
| `MergeLaws.MergeSame` | crates/secsec-sync/src/merge.rs:184-263 | merging a tree with itself returns it exactly, whatever the base |
| `MergeLaws.TheirsUnchanged` | crates/secsec-sync/src/merge.rs:184-263 | merging in an unchanged side returns ours exactly |
| `MergeLaws.OursUnchanged` | crates/secsec-sync/src/merge.rs:184-263 | when ours did not move the result has their contents and modes throughout |
| `MergeLaws.SwapConflicts` | crates/secsec-sync/src/merge.rs:184-274 | swapping the sides reports the same conflicts, paths and kinds, in the same order |
| `MergeLaws.SwapContents` | crates/secsec-sync/src/merge.rs:184-263 | without conflicts swapping the sides gives the same contents |
| `MergeLaws.ConflictsExact` | crates/secsec-sync/src/merge.rs:249-274 | conflicts are reported at exactly the diverging paths, each with the kind of its divergence |
| `MergeLaws.PathsJoined` | crates/secsec-sync/src/merge.rs:160-166 | a reported path is its components joined by slashes |
| `MergeLaws.ModesPicked` | crates/secsec-sync/src/merge.rs:109-116 | where the sides do not diverge a mode changed on one side wins, else ours |
| `MergeLaws.MergeDepth` | crates/secsec-sync/src/merge.rs:184-263 | the result is no deeper than its two sides |
| `MergeLaws.MergeNamesGood` | crates/secsec-sync/src/merge.rs:118-158 | merging decodable trees only authors names the tree decoder accepts |
| `Names.ConflictNameFits` | crates/secsec-sync/src/merge.rs:118-142 | a conflict name fits the limit exactly when the marked label does, and is then a safe entry name |
| `Names.ConflictNameExact` | crates/secsec-sync/src/merge.rs:118-144 | the label goes between stem and extension; past the limit the stem is cut to the longest run of whole characters that fits, and an extension that leaves no room goes with it |
| `Names.DecimalReads` | crates/secsec-sync/src/merge.rs:147-158 | the counter is written in decimal without a leading zero |
| `Names.SearchBound` | crates/secsec-sync/src/merge.rs:144-158 | the free-name search is refused at most twice per taken name |
| `Names.UnsafeExactly` | crates/secsec-snapshot/src/lib.rs:246-253 | a name is refused exactly when it is empty, a dot or two, or holds a separator or a control character |
| `Names.FreeConflictName` | crates/secsec-sync/src/merge.rs:144-158 | the first attempt, unnumbered and then -2, -3 and so on, that collides with nothing, found within twice the number of taken names |
| `Names.CandidatesDiffer` | crates/secsec-sync/src/merge.rs:144-158 | numbered attempts that keep the same tail never repeat a name |
| `Utf8.Utf8Undone` | crates/secsec-snapshot/src/lib.rs:299-361 | the UTF-8 check gives back every encoded name |
| `Utf8.OrderAgrees` | crates/secsec-snapshot/src/lib.rs:299-361 | comparing names by character is comparing their bytes |
| `TreeCodec.TreeExact` | crates/secsec-snapshot/src/lib.rs:202-361 | a listing decodes from its encoding to itself exactly when its names are safe, short and strictly ascending and its counts are within the limits |
| `TreeCodec.TreeStrict` | crates/secsec-snapshot/src/lib.rs:299-361 | every accepted byte string is the encoding of such a listing |
| `TreeCodec.RegularTree` | crates/secsec-snapshot/src/lib.rs:299-361 | an ascending listing within the counts decodes exactly when every name is good |
| `TreeBuffers.EncodeTreeBytes` | crates/secsec-snapshot/src/lib.rs:202-243 | the writer loop produces the canonical bytes |
| `TreeBuffers.DecodeTreeBytes` | crates/secsec-snapshot/src/lib.rs:299-361 | the reader loop accepts and refuses exactly as specified, with the same error |
| `Seal.LoadNodes` | crates/secsec-engine/src/lib.rs:47-111 | the recursive loader: each level opens under the key of its own generation, refused when the ring lacks it; the first failing entry decides the error |
| `Seal.SealTree` | crates/secsec-snapshot/src/lib.rs:1455-1472 | a listing is refused exactly past the fan-out or blob limit, else stored under its id of the current generation |
| `Seal.SealNodes` | crates/secsec-engine/src/lib.rs:113-167 | sealing accepts exactly the trees whose every level is within the limits, returns their id, and leaves every level stored; the store only grows |
| `SealLaws.SealedLoads` | crates/secsec-engine/src/lib.rs:47-167 | what sealing accepts loads back to the same nodes exactly when its names are good and it is not too deep, and fails to load otherwise |
| `SealLaws.UnsafeNameSealsUnloadable` | crates/secsec-engine/src/lib.rs:113-167 | a folder with a slash in a name is accepted by sealing and can never be loaded again |
| `SealLaws.LoadReseals` | crates/secsec-engine/src/lib.rs:47-167 | a tree loaded from any generations re-seals at the current one to the id it was loaded from if and only if every stored level is of the current generation |
| `SealLaws.OldTreeResealsAnew` | crates/secsec-object/src/lib.rs:71-134 | a tree sealed at generation 1 still loads after a rotation to 2, and re-seals under another id |
| `SealLaws.LoadDecoded` | crates/secsec-engine/src/lib.rs:47-111 | whatever loads has good names, is within the fan-out at every level and not too deep |
| `SealLaws.OpenExact` | crates/secsec-object/src/lib.rs:107-134 | a listing opens if and only if a box sealed for this id stands under it, of a generation the ring holds, whose bytes hash to the id and encode the listing |
| `SealLaws.MergedTreeLoads` | crates/secsec-engine/src/lib.rs:371-430 | merging trees loaded from any generations of the ring: if sealing at the current one accepts the result it loads back to exactly the merged nodes |
| `Restore.RemoveTracked` | crates/secsec-snapshot/src/lib.rs:1085-1125 | deletes what the snapshot tracked and is unchanged; every exit keeps what is untracked or changed |
| `Restore.ClearedKept` | crates/secsec-snapshot/src/lib.rs:1085-1125 | a finished removal keeps every untracked or changed file except temps and the icon of an otherwise empty folder |
| `Reconcile.Assemble` | crates/secsec-snapshot/src/lib.rs:1354-1394 | a file is renamed into place only with the bytes of its chunk list at its declared size |
| `Reconcile.UnpadExact` | crates/secsec-object/src/lib.rs:152-168 | unpadding takes off exactly the last marker and the zeros after it, and fails where there is none |
| `Reconcile.PadUndone` | crates/secsec-object/src/lib.rs:136-168 | padding comes off again and makes the length a power of two less than twice as long |
| `Reconcile.DataOfPieces` | crates/secsec-object/src/lib.rs:136-168 | chunks that hold the padded pieces of a file stand for the file, in order |
| `Reconcile.LocalConflictName` | crates/secsec-snapshot/src/lib.rs:1067-1083 | the first labelled name that is creatable, not on disk and not in the target, as far as the 32-bit counter reaches |
| `Reconcile.LabelledExact` | crates/secsec-snapshot/src/lib.rs:1067-1083 | each attempt is the stem, the marker, the label, the number from 2 on, and the extension |
| `Reconcile.NameFound` | crates/secsec-snapshot/src/lib.rs:1067-1083 | while labelled names fit the platform limit the search finds one |
| `Reconcile.NameLost` | crates/secsec-snapshot/src/lib.rs:1067-1083 | once the unnumbered labelled name is past the platform limit no attempt is ever usable |
| `Reconcile.FreeNameExact` | crates/secsec-snapshot/src/lib.rs:1067-1083 | while the unnumbered name is not taken, the search finds a name if and only if that one is within the limit |
| `Reconcile.LongNameLost` | crates/secsec-snapshot/src/lib.rs:1067-1083 | a creatable name of the full length has no labelled name for any label |
| `Reconcile.PruneNames` | crates/secsec-snapshot/src/lib.rs:1149-1185 | the deletion pass, in any listing order |
| `Reconcile.RestoreFile` | crates/secsec-snapshot/src/lib.rs:1199-1265 | one file entry: written, kept, cleared for, or placed beside a local edit |
| `Reconcile.RestoreFolder` | crates/secsec-snapshot/src/lib.rs:1266-1324 | one directory entry: descended into, created, or placed beside a local file |
| `Reconcile.RestoreDir` | crates/secsec-snapshot/src/lib.rs:1127-1330 | every exit keeps what must be kept, and a finished run leaves exactly the specified folder |
| `RestoreLaws.RestoreTreeInto` | crates/secsec-snapshot/src/lib.rs:941-971 | on every exit a file stays untouched unless the snapshot records its length and mtime at its path; a finished restore of an undisturbed folder leaves exactly the target, whatever sizes it declares |
| `RestoreLaws.LocalFileKept` | crates/secsec-snapshot/src/lib.rs:1014-1018 | a regular file stays at its path with its data and mtime unless the snapshot records a file there with that length and that mtime |
| `RestoreLaws.LandsExactly` | crates/secsec-snapshot/src/lib.rs:1127-1330 | when the disk still equals the snapshot the result is exactly the target's creatable entries |
| `RestoreLaws.IncomingArrives` | crates/secsec-snapshot/src/lib.rs:1187-1325 | each creatable target file the snapshot lacks in that content arrives at its path or with one component labelled as a copy |
| `RestoreLaws.DeletionStays` | crates/secsec-snapshot/src/lib.rs:1214-1219 | a file deleted locally and unchanged upstream stays deleted |
| `RestoreLaws.IconStays` | crates/secsec-snapshot/src/lib.rs:1052-1065 | a folder the target keeps keeps its icon |
| `RestoreExact.RecordedGone` | crates/secsec-snapshot/src/lib.rs:1127-1205 | on any disk, a file with the recorded length and mtime at a path the target lacks is gone after the restore, unless a keep-both copy comes to stand there |
| `RestoreExact.ClearedExact` | crates/secsec-snapshot/src/lib.rs:1040-1125 | a tracked folder is removed whole if and only if it holds nothing but files as recorded, temps, a folder icon and folders like it |
| `RestoreExact.UnchangedStays` | crates/secsec-snapshot/src/lib.rs:1225-1245 | a file whose content is unchanged upstream keeps its bytes; only one still as recorded takes the target's mtime |
| `RestoreExact.FolderStaysGone` | crates/secsec-snapshot/src/lib.rs:1283-1330 | a folder deleted locally and unchanged upstream stays deleted |
| `RestoreExact.ArrivesInPlace` | crates/secsec-snapshot/src/lib.rs:1207-1330 | where no local work is in the way, a file with new content is written at its own path |
| `RestoreExact.EveryFileHasSource` | crates/secsec-snapshot/src/lib.rs:1127-1330 | each file after a restore has the bytes that stood at its path, or is a file of the target at its path or labelled in one component |
| `RestoreExact.TempsGone` | crates/secsec-snapshot/src/lib.rs:1036-1050 | no temp is left in a restored folder |
| `Dag.AncestorsOfAll` | crates/secsec-sync/src/dag.rs:12-25 | on any parent map, cycles included, the walk ends and equals reflexive-transitive reachability |
| `Dag.IsAncestor` | crates/secsec-sync/src/dag.rs:34-58 | answers exactly reachability |
| `Dag.NewCommits` | crates/secsec-sync/src/dag.rs:67-74 | exactly what the sibling reaches and we do not |
| `Dag.LowestCommonAncestors` | crates/secsec-sync/src/dag.rs:77-92 | on acyclic maps exactly the maximal common ancestors, on any map nothing else |
| `Dag.LowestAntichain` | crates/secsec-sync/src/dag.rs:77-92 | none of them reaches another |
| `Dag.LowestSymmetric` | crates/secsec-sync/src/dag.rs:77-92 | they do not depend on the order of the arguments |
| `Dag.LowestAboveEvery` | crates/secsec-sync/src/dag.rs:77-92 | every common ancestor lies under one of them |
| `Dag.LowestExists` | crates/secsec-sync/src/dag.rs:77-92 | there is one exactly when a common ancestor exists |
| `Dag.MergeBase` | crates/secsec-engine/src/lib.rs:364-369 | the least id among them, absent exactly for disjoint histories |
| `Topo.KahnOrder` | crates/secsec-client/src/history.rs:55-92 | lists distinct commits, each time the largest (timestamp, id) among the ready ones, and all of them on acyclic maps |
| `Topo.TopoOrder` | crates/secsec-client/src/history.rs:55-92 | every commit reachable from the head exactly once, children before parents, repeated parents and diamonds included |
| `Topo.LoadHistory` | crates/secsec-client/src/history.rs:55-92 | the loaded maps cover exactly what the head reaches |
| `Topo.ChildrenFirst` | crates/secsec-client/src/history.rs:55-92 | a greedy order puts every child before its parents |
| `Fetch.FetchCommits` | crates/secsec-client/src/lib.rs:391-417 | the missing history lands in one transaction or not at all, and a stored commit always has its parents stored |
| `Fetch.FetchTree` | crates/secsec-client/src/lib.rs:428-505 | at every write a stored tree has all its subtrees stored, also when the fetch fails; finished with chunks, the whole closure is local |
| `Fetch.FetchClosure` | crates/secsec-client/src/lib.rs:507-526 | finished, the whole history and content of the head are local; failed, the store is still closed |
| `Fetch.SeenStored` | crates/secsec-client/src/lib.rs:453-458 | a tree met a second time is already stored |
| `Fetch.PopStore` | crates/secsec-client/src/lib.rs:445-450 | when a tree is stored all its subtrees are |
| `Fetch.StoredTrees` | crates/secsec-client/src/lib.rs:419-426 | the trees-only shortcut is sound: a stored tree has every tree under it stored |
| `Fetch.StoredHistory` | crates/secsec-client/src/lib.rs:402-405 | a stored commit has its whole history stored |
| `Diff.DiffTrees` | crates/secsec-snapshot/src/lib.rs:1843-1913 | the id-pruned recursive diff lists exactly the paths below its prefix whose files differ |
| `Diff.ChangedPaths` | crates/secsec-snapshot/src/lib.rs:1831-1841 | each file path whose chunk list differs, exactly once, though equal subtree ids are skipped |
| `Retention.CollectTree` | crates/secsec-snapshot/src/lib.rs:1543-1583 | the recursive walk with its shared result collects everything under a tree though it skips trees met before, and fails only past the depth limit |
| `Retention.ChunksAt` | crates/secsec-snapshot/src/lib.rs:1678-1723 | a file's chunks, everything under a directory, or nothing |
| `Retention.DeadChunks` | crates/secsec-client/src/prune.rs:37-70 | exactly the chunks of the history outside the head and outside every path's latest kept versions; fails only on trees nested past the limit |
| `Retention.DeadAvoidsHead` | crates/secsec-client/src/prune.rs:37-70 | no dead chunk is needed by the head |
| `RetentionLaws.DeadExactly` | crates/secsec-client/src/prune.rs:37-70 | a chunk is dead if and only if some commit has it in a file, the head has it in none, and none of the latest commits that change a path against their first parent has it there or below |
| `Paths.JoinInjective` | crates/secsec-snapshot/src/lib.rs:1006-1012 | joined path strings determine their components, so per-path counters never merge two paths |
| `Chunking.FindCut` | crates/secsec-chunk/src/lib.rs:111-138 | the rolling loop computes the cut |
| `Chunking.CutExact` | crates/secsec-chunk/src/lib.rs:111-138 | the cut is the first position past the minimum whose fingerprint clears the strict mask up to the average, the loose one after it, or else the end of the window |
| `Chunking.EveryCut` | crates/secsec-chunk/src/lib.rs:153-164 | every slice ends at the cut of everything from its start on |
| `Chunking.CutIsLocal` | crates/secsec-chunk/src/lib.rs:111-138 | the cut depends only on the first max bytes |
| `Chunking.CutAll` | crates/secsec-chunk/src/lib.rs:153-164 | the in-memory cutting loop |
| `Chunking.ChunksPartition` | crates/secsec-chunk/src/lib.rs:153-164 | slices concatenate to the input, none exceeds max, and all but the last reach min |
| `Chunking.SharedSuffixSharesCuts` | crates/secsec-chunk/src/lib.rs:153-164 | inputs with a shared suffix cut identically after any shared boundary |
| `Chunking.ChunkStream` | crates/secsec-chunk/src/lib.rs:166-201 | whatever short reads the reader returns, the stream emits the in-memory slices, a prefix of them on an error |
| `Canon.Prims` | crates/secsec-canon/src/lib.rs:61-200 | each reader undoes its encoder and leaves what follows |
| `Canon.ListStrict` | crates/secsec-canon/src/lib.rs:141-200 | a counted list reader accepts only encodings of valid items |
| `Canon.Reader.ReadBytes` | crates/secsec-canon/src/lib.rs:176-184 | a length prefix over the maximum is refused before its body is read |
| `Canon.Writer.WriteBytes` | crates/secsec-canon/src/lib.rs:100-106 | length prefix, then the bytes |
| `Wire.RequestUndone` | crates/secsec-proto/src/wire.rs:331-604 | a request within its field bounds decodes from its encoding to itself |
| `Wire.RequestStrict` | crates/secsec-proto/src/wire.rs:500-604 | every accepted byte string re-encodes to itself and is within the field bounds |
| `Wire.RequestUnique` | crates/secsec-proto/src/wire.rs:500-604 | encodings are unique |
| `Wire.ValidateExact` | crates/secsec-proto/src/wire.rs:440-498 | validate admits exactly the requests that fit the length cap and decode to themselves |
| `Wire.AuthedUndone` | crates/secsec-proto/src/wire.rs:777-795 | every envelope of a valid request decodes to itself within the frame cap |
| `Wire.AuthedStrict` | crates/secsec-proto/src/wire.rs:786-794 | every accepted envelope is the encoding of a valid one |
| `Wire.UnenrolledFits` | crates/secsec-proto/src/wire.rs:19-36 | any genesis batch or pairing message is valid and fits the cap for unenrolled keys |
| `Wire.ResponseExact` | crates/secsec-proto/src/wire.rs:681-735 | a response round-trips exactly when it is within its bounds |
| `Wire.ResponseStrict` | crates/secsec-proto/src/wire.rs:709-735 | every accepted response re-encodes to itself |
| `Layouts.RequestBytes` | crates/secsec-proto/src/wire.rs:298-438 | every request byte for byte: tag, then fields in order |
| `Layouts.ResponseBytes` | crates/secsec-proto/src/wire.rs:652-707 | every response and error code byte for byte |
| `Layouts.TreeBytes` | crates/secsec-snapshot/src/lib.rs:202-243 | a tree listing byte for byte |
| `Layouts.NumberBytes` | crates/secsec-canon/src/lib.rs:82-98 | numbers are base-256 digits, least significant first |
| `WireBuffers.EncodeRequest` | crates/secsec-proto/src/wire.rs:333-438 | the writer produces the canonical bytes of every variant |
| `WireBuffers.DecodeRequest` | crates/secsec-proto/src/wire.rs:500-603 | the reader accepts and refuses exactly as specified, with the same error |
| `WireBuffers.DecodeEnvelope` | crates/secsec-proto/src/wire.rs:786-794 | the envelope reader, request errors before trailing bytes |
| `Limits.TokenBucket.TryTake` | crates/secsec-proto/src/server.rs:89-98 | refill to now, then take if available |
| `Limits.StretchBound` | crates/secsec-proto/src/server.rs:59-105 | over any stretch of any run with a forward clock the bytes granted are at most the burst plus the rate times the elapsed time, saturation included |
| `Limits.GrantExact` | crates/secsec-proto/src/server.rs:59-105 | an ask is granted if and only if it keeps every stretch of the run up to it within the burst plus the rate times the elapsed time |
| `Limits.AnyClockBound` | crates/secsec-proto/src/server.rs:79-98 | also when the clock runs back, no second is credited twice |
| `Limits.WindowCounter.TryRecord` | crates/secsec-proto/src/server.rs:136-145 | prune, then record all or nothing |
| `Limits.WindowCounter.RefundLast` | crates/secsec-proto/src/server.rs:152-157 | undo the most recent records |
| `Limits.WindowNeverOverfull` | crates/secsec-proto/src/server.rs:107-164 | however requests of a key interleave, while refunds come in order no trailing window holds more than max standing events |
| `Limits.RefundExact` | crates/secsec-proto/src/server.rs:152-157 | after a refund the counter still knows exactly the unexpired standing events if and only if none of them is newer than those given back |
| `Limits.EnterExact` | crates/secsec-proto/src/server.rs:136-145 | a request is let in if and only if it fits beside the unexpired standing events |
| `Budgets.BudgetHolds` | crates/secsec-server/src/lib.rs:495-541 | over every run of the server with refunds in order, no hour holds more than 60 standing roster entries of a key |
| `Budgets.LateRefundOverruns` | crates/secsec-server/src/lib.rs:495-541 | two overlapping requests of a key and a late refund leave 61 entries standing within one hour |
| `Limits.PruneDropsOnlyExpired` | crates/secsec-proto/src/server.rs:126-134 | pruning drops only expired events exactly when the clock is not at its last second or nothing unexpired is left |
| `Limits.ClockEndForgets` | crates/secsec-proto/src/server.rs:126-134 | at the clock's last second saturation makes every event read as expired |
| `Server.SweepInvisible` | crates/secsec-server/src/lib.rs:124-130 | sweeping idle state changes no later answer of any run |
| `Server.SweepForgets` | crates/secsec-server/src/lib.rs:124-130 | a sweep forgets exactly the buckets full by now, the windows with nothing unexpired and the expired mail |
| `Rates.RateExact` | crates/secsec-server/src/lib.rs:75-88 | after any run of the server, sweeps included, a key's ask is granted if and only if every stretch of its grants stays within the burst plus the rate times the elapsed time |
| `Server.SweepAnywhere` | crates/secsec-server/src/lib.rs:124-130 | a sweep put anywhere into any run of a fresh server leaves all other answers as they were |
| `Server.ServerState.SweepNow` | crates/secsec-server/src/lib.rs:124-130 | full buckets, empty windows and expired mail are forgotten, the rest refilled and pruned |
| `Server.ServerState.TakeWriteBytes` | crates/secsec-server/src/lib.rs:75-80 | a bucket is created full on first use |
| `Server.ServerState.SigchainRecord` | crates/secsec-server/src/lib.rs:90-100 | a window is created empty on first use |
| `Server.ServerState.PostMail` | crates/secsec-server/src/lib.rs:60-67 | expired slots go first; a full mailbox refuses new slots only |
| `Server.PostExact` | crates/secsec-server/src/lib.rs:60-67 | a post is taken if and only if its slot holds unexpired mail or fewer than 256 slots do, and other mail stays |
| `Server.ServerState.TakeMail` | crates/secsec-server/src/lib.rs:70-73 | a message is delivered once and not after its expiry |
| `Server.ServerState.ChargeQuota` | crates/secsec-server/src/lib.rs:108-116 | reserves only within the cap; no cap means no entry |
| `Server.MailExact` | crates/secsec-server/src/lib.rs:60-73 | over every run a taker finds exactly the message that the calls and answers so far leave pending, until its expiry |
| `Server.MailDelivered` | crates/secsec-server/src/lib.rs:60-73 | in any run a message posted with success goes to the first taker before its expiry, whatever other calls fall between |
| `Server.MailOnce` | crates/secsec-server/src/lib.rs:69-73 | in any run, after a take no later take of the slot finds anything until a new post |
| `Server.MailCapped` | crates/secsec-server/src/lib.rs:60-67 | in every reachable state the mailbox is within its cap |
| `Quotas.HandleCas` | crates/secsec-server/src/lib.rs:566-604 | run on the store, with other requests' operations between its two store calls: a won swap charges the lesser of the bytes staged at first and the bytes it made durable, anything else nothing, and no other key changes |
| `Quotas.SwapGains` | crates/secsec-store/src/lib.rs:319-371 | a won swap makes exactly the push's fresh staged bytes durable |
| `Quotas.ChargedIsGained` | crates/secsec-server/src/lib.rs:566-604 | with nothing in between a won swap charges exactly the bytes it made durable |
| `Quotas.LedgerBalances` | crates/secsec-server/src/lib.rs:566-604 | in every interleaving a key is charged exactly its reservations in flight plus min(staged, promoted) of each request it won, never above the cap |
| `Quotas.ReserveExact` | crates/secsec-server/src/lib.rs:108-116 | after every interleaving a reservation is granted if and only if in-flight, charged and new bytes are together within the cap |
| `Quotas.SettleMoves` | crates/secsec-server/src/lib.rs:564-604 | settling takes a request out of flight and leaves it charged for the lesser of staged and promoted bytes, or nothing |
| `Quotas.UncappedFree` | crates/secsec-server/src/lib.rs:108-122 | without a cap no key is ever charged |

## Left out

- Cryptography: sealing, key derivation, X-Wing wrapping, SSHSIG and BLAKE3 appear only through the assumptions above.
- QUIC, TLS, the handshake, framing, per-op authorization and the async plumbing around the handlers.
- The rollback gates and frontier sealing, and with them `sync_once` and the accept step before a merge.
- CLI, configuration, locks, status files, watcher and desktop UI.
- Taking a snapshot of a disk (scanning, fast path, oversize memo); restoring a single path; path history and logs.
- The overwrite mode of restore, file and directory permissions, directory mtimes, names that are not UTF-8, Windows name rules, case folding, and races with other processes; a file write is one step, its temp never visible.
- The report of a restore (its lists of conflict and skipped paths) and the directory named in a size error of sealing.
- The byte codecs of commits, roster entries, heads and pairing messages: same primitives as the modelled codecs, no new difficulty.
- The gear table and mask construction of the chunker; any table and masks are allowed.
- `retain`, `delete_objects`, `compact` and the local sweep of a client's store.
- Connection counters and admission; they only count up and down.
- Store and database errors inside a transaction; an operation that fails this way changes nothing.
- Sequence numbers beyond 64 bits: the server caps the chain at 10,000 entries, which the roster results assume.
- Seal.LoadNodes: stored blobs are well-formed tree boxes; a blob too short or framed as another object is not represented.
- Grant.GrantDevice: what one round reads from the server is taken from one moment.
- Repo.BuildRotation: one round of the retry loop, which has no bound while other devices keep moving the head; the re-signed head is a parameter.
- Reconcile.LocalConflictName: running out of 32-bit counters is an error here, where the program would overflow.
- Fetch.FetchTree: objects already stored locally are taken to be the ones their ids name.
