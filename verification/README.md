# Verification of the Vesl settlement core

A Dafny model of the five linked components that settle a job on chain: the tip5 commitment tree, lock Merkle
proofs, the escrow, bond and check notes, the output sets and witnesses of their spends, and the session layer's
replay cache and sign-in message. `dafny verify dfyconfig.toml` checks everything.

Loops, in-place writes and stateful objects of the source are methods and classes here, proved against
specification functions; the theorems are lemmas about those functions.

| files | what they model |
|---|---|
| `Field`, `LittleEndian`, `DigestEncoding`, `Belts`, `Merkle`, `MintGuard` | field screen, base-P digest encoding, seven-byte belts, the commitment tree and its stateful clients |
| `Locks`, `LockProof` | lock primitives and what the chain asks of them; lock roots and branch proofs |
| `JobLocks`, `CheckLocks`, `BondLocks`, `Notes`, `EscrowFlow` | the ten note constructors, what they promise together, and the escrow flow as a state machine |
| `Tx`, `Sums`, `OutputPin`, `ChainOutputs`, `Capture`, `BranchWitness`, `NoteWitness`, `SettleCache` | output sets and pins, the chain's merged outputs and their checks, conservation, witnesses, and the bounded settle window |
| `Nouns`, `Fee` | work-stack walks of nouns; fees before and after bythos |
| `ReplayCache`, `Caip122` | the nonce cache over every interleaving; the message printer and parser |

Hash functions, signature checking, the structural noun digest and the printed form of timestamps are parameters.
Wherever binding is claimed, the hypothesis is only that the inputs hashed by the very computations compared do not
collide: a collision-free hash on all inputs cannot exist, and none is assumed.

What the code does differently from its own comments, or from what a reader might expect:

- `replay_cache.rs:24-26` asks for `true` if and only if the nonce was observed within the ttl. A report of `true` is
  always right; `true` can be missing, in three ways: a replay does not renew its entry (`ReplayDoesNotRenew`), another
  caller sweeps with a shorter ttl (`ShortSweepForgets`), or a call is overtaken between its two lock sections by one
  that read the clock later (`OvertakenCallForgets`). `TraitHoldsExactly` and `TraitHoldsInOrder` say when it holds.
- `parse_caip122_message` accepts more bodies than `build_caip122_message` makes: with one final newline, with control
  characters other than line breaks, and with other spellings of a timestamp, such as an offset or fractions of a
  second. `ParsesExactly` says which, and `AcceptedIsBuilt` which of them the builder makes.
- The witness builder refuses two kinds of witness that the chain lets through: a repeated signer, and a signature on a
  branch that asks for none (`RepeatedSignerIsRefused`, `SuperfluousPartIsRefused`). On distinct labels these are the
  only ones (`BuilderAgreesWithChain`).
- Merging neither makes nor loses value, but the chain refuses a transaction in which a seed is repeated across spends,
  its pin included (`AssetsHoldExactly`). Captures are accepted exactly when no two of them pay equal lines from equal
  parents (`CapturesAcceptedExactly`), which distinct parent hashes guarantee.
- The digest encoding is exact for every five limbs; the field screen is the loosest bound on the limbs under which it
  is injective (`ScreenIsExact`).
- A tree's root does not bind the number of its leaves (`RootAlias`), though it binds what can be one of them
  (`AnyProofIsOfALeaf`).
- The provider and vouch notes remember the clawback's two keys only as a pair, a slice its slash keys likewise, and
  a vouch note not its verdict key (`AddressBinding`, `RolesForgotten`, `VerdictForgotten`). A check's funding note has
  the lock of the escrow flow's funding note over the same digests (`FundingNotesShareLocks`).

## Model

| member | source | states |
|---|---|---|
| `Field.CheckTip5Limbs` | crates/nockchain-tip5-rs/src/lib.rs:81-88 | succeeds exactly on digests whose five limbs are all field elements; the error is the first limb that is not |
| `DigestEncoding.MultiplyByPrime` | crates/nockchain-tip5-rs/src/lib.rs:120-133 | in place, the buffer's value is multiplied by P; everything past the new length is blank, so no carry is dropped and the length covers the value |
| `DigestEncoding.SpillCarry` | crates/nockchain-tip5-rs/src/lib.rs:127-133 | the guard that would drop a byte at the end of the buffer never fires: the whole carry is written |
| `DigestEncoding.AddLimb` | crates/nockchain-tip5-rs/src/lib.rs:135-150 | in place, the buffer's value grows by exactly the limb, the carry running past the length in use if it must |
| `DigestEncoding.GrowLength` | crates/nockchain-tip5-rs/src/lib.rs:145-150 | after the add pass the length covers every non-zero byte, by the jump to 8 and the scan |
| `DigestEncoding.RunningBound` | crates/nockchain-tip5-rs/src/lib.rs:114-151 | the running value after k limbs stays below 2^(64k), which is why 48 bytes are enough for every five limbs, in the field or not |
| `DigestEncoding.Accumulate` | crates/nockchain-tip5-rs/src/lib.rs:118-151 | Horner's loop leaves in the buffer exactly the polynomial of all limbs |
| `DigestEncoding.FiveLimbs` | crates/nockchain-tip5-rs/src/lib.rs:114-118 | that polynomial, limb by limb: the k-th limb stands under the k-th power of the prime |
| `DigestEncoding.Tip5ToAtomLeBytes` | crates/nockchain-tip5-rs/src/lib.rs:107-157 | the bytes' value is l0 + P*(l1 + P*(l2 + P*(l3 + P*l4))), each limb with its own power, without a trailing zero byte and in at most 40 bytes, for every digest |
| `DigestEncoding.EncodingInjective` | crates/nockchain-tip5-rs/src/lib.rs:107-157 | in-field digests have equal encodings if and only if they are equal |
| `DigestEncoding.OffFieldAlias` | crates/nockchain-tip5-rs/src/lib.rs:78-88 | a first limb at or past the prime can be traded for one more in the second: two digests, one encoding |
| `DigestEncoding.ScreenIsExact` | crates/nockchain-tip5-rs/src/lib.rs:78-88 | the exact screen: of all bounds on the limbs the prime is the largest under which the encoding is injective |
| `Belts.TrimmedLength` | crates/nockchain-tip5-rs/src/lib.rs:183-187 | the scan finds the position after the last non-zero byte |
| `Belts.ChunkToBelt` | crates/nockchain-tip5-rs/src/lib.rs:189-195 | a chunk of at most seven bytes becomes its little-endian value, below 2^56 |
| `Belts.AtomBytesToBelts` | crates/nockchain-tip5-rs/src/lib.rs:182-197 | the belts are the seven-byte words of the trimmed bytes, the single belt 0 for atom 0, and every belt is below 2^56 and so in the field |
| `Belts.ChunksInjective` | crates/nockchain-tip5-rs/src/lib.rs:182-197 | splitting into belts loses nothing of a string without a trailing zero |
| `Belts.BeltsIdentifyAtoms` | crates/nockchain-tip5-rs/src/lib.rs:182-209 | two byte strings are hashed from the same belts if and only if they agree up to trailing zero bytes |
| `Merkle.ComputeLeaf` | crates/nockchain-tip5-rs/src/lib.rs:202-209 | what a leaf is hashed from: first the number of words, which is one seventh of the trimmed length rounded up and 1 for atom 0, then the value of every seven-byte word in order |
| `Merkle.VerifyProof` | crates/nockchain-tip5-rs/src/lib.rs:226-278 | accepts exactly when the proof has at most 64 nodes, the root and every sibling are in the field, and the leaf folds to the root |
| `Merkle.PairUp` | crates/nockchain-tip5-rs/src/lib.rs:335-347 | one round of the build: node j of the next level is the hash of nodes 2j and 2j + 1, left one first, the last node of an odd level with a copy of itself |
| `Merkle.Build` | crates/nockchain-tip5-rs/src/lib.rs:326-350 | stores all levels: at the bottom the leaf digests of the data in order, each level paired up from the one below, the root on top; the empty leaf list is refused |
| `Merkle.Proof` | crates/nockchain-tip5-rs/src/lib.rs:370-401 | node k of the proof is the stored node beside the leaf's ancestor at level k, or a copy of that ancestor where none is stored, with the side on which it stands; an index out of bounds is named with the leaf count |
| `Merkle.PathReadsOff` | crates/nockchain-tip5-rs/src/lib.rs:370-401 | the path of the tree recursion is that one: at every level the neighbour of the ancestor, and its side |
| `Merkle.ClimbFolds` | crates/nockchain-tip5-rs/src/lib.rs:370-401 | the path of any node, through every odd level, folds that node to the root |
| `Merkle.ClimbLength` | crates/nockchain-tip5-rs/src/lib.rs:370-401 | the path is ceil(log2 n) long: at most k nodes if and only if there are at most 2^k leaves |
| `Merkle.Completeness` | crates/nockchain-tip5-rs/src/lib.rs:226-278 | the proof built for a leaf verifies against the root if and only if there are at most 2^64 leaves |
| `Merkle.FoldBinding` | crates/nockchain-tip5-rs/src/lib.rs:260-278 | folds along the same sides to one root start from one digest and use the same siblings, unless two pairs that they hash collide |
| `Merkle.PositionBinding` | crates/nockchain-tip5-rs/src/lib.rs:226-278 | a proof with the sides of leaf i that verifies has leaf i's siblings, and its data is leaf i up to trailing zero bytes, unless inputs of these very computations collide |
| `Merkle.AnyProofIsOfALeaf` | crates/nockchain-tip5-rs/src/lib.rs:226-278 | whatever the sides and the length of a proof, data that verifies against a committed root is one of the leaves up to trailing zero bytes, unless pairs collide or make leaf digests |
| `Merkle.RootAlias` | crates/nockchain-tip5-rs/src/lib.rs:326-350 | a root does not bind the number of leaves: an odd number of them, more than one, and the same with the last repeated have one root under every hash |
| `Merkle.AcceptsIsUpToTrailingZeros` | crates/nockchain-tip5-rs/src/lib.rs:182-209 | data that differs only in trailing zero bytes verifies alike under every hash: the exact limit of position binding |
| `MintGuard.Mint.Commit` | crates/vesl-core/src/mint.rs:55-61 | the stored tree, its root and its leaf count are those of the data given, whatever was committed before |
| `MintGuard.Mint.Proof` | crates/vesl-core/src/mint.rs:64-78 | the path of the last commit's leaf; no tree and an index out of range are refused |
| `MintGuard.Mint.Root` | crates/vesl-core/src/mint.rs:81-83 | the root of the last commit, none before the first |
| `MintGuard.Guard.RegisterRoot` | crates/vesl-core/src/guard.rs:53-59 | keeps at most 10000 roots; fails only for a new root on a full store, and then changes nothing |
| `MintGuard.Guard.RevokeRoot` | crates/vesl-core/src/guard.rs:62-64 | removes exactly that root and says whether it was there |
| `MintGuard.Guard.Check` | crates/vesl-core/src/guard.rs:67-69 | accepts exactly the proofs that verify against a registered root |
| `MintGuard.CommitThenCheck` | crates/vesl-core/src/mint.rs:55-78 | a client of both classes: after a commit and a registration every leaf's proof is accepted (up to 2^64 leaves), and after revocation none is |
| `Locks.PkhConjunctUsable` | crates/vesl-core/src/lock.rs:69-111 | a `%pkh` that the constructor accepts can be satisfied by somebody and not by the empty witness |
| `Locks.PkhConjunctRefusals` | crates/vesl-core/src/lock.rs:69-111 | and what it refuses is satisfied by the empty witness, or by nobody |
| `Locks.PkhConjunctExactly` | crates/vesl-core/src/lock.rs:88-111 | it builds exactly for thresholds from 1 to the number of different keys, over exactly those keys; threshold 0 and too high a one are told apart |
| `Locks.ZeroBoundsAreDropped` | crates/vesl-core/src/job_locks.rs:334-342 | the chain keeps every bound of a time range but zero, which it drops: what the constructors guard against |
| `LockProof.VerifyMerkProof` | crates/vesl-core/src/lock.rs:245-267 | the loop decides the fold by axis parity, for every axis and path, the axis and the path ending together |
| `LockProof.PathInRow` | crates/vesl-core/src/lock.rs:195-217 | the sibling taken in round j of the level loop is the hash of the subtree beside the branch at height j |
| `LockProof.HalveRow` | crates/vesl-core/src/lock.rs:203-217 | hashing one row of the tree in pairs gives the row above |
| `LockProof.PathByLevels` | crates/vesl-core/src/lock.rs:195-217 | the level-halving loop collects the path that the level recursion gives |
| `LockProof.LevelsAgree` | crates/vesl-core/src/lock.rs:195-217 | from any level on, that path is the rest of the path read off the tree |
| `LockProof.AxisAndPath` | crates/vesl-core/src/lock.rs:185-217 | the level loop's path with the arity tag at its end is the branch's path of the tree, at that branch's axis |
| `LockProof.AxisUnderIs` | crates/vesl-core/src/lock.rs:131-148 | walking down from axis a doubles at each step: leaf k under a tree of depth d has axis a*2^d + k |
| `LockProof.FoldTree` | crates/vesl-core/src/lock.rs:131-148 | a branch's path takes its digest from its axis to the tree's hash, inside any larger path |
| `LockProof.BranchFolds` | crates/vesl-core/src/lock.rs:131-240 | for every perfect lock of N branches and every branch, axis 3N + (k-1) and its log2(N) + 1 siblings (axis 1 and none for N = 1) fold to the lock root |
| `LockProof.SmallRoots` | crates/vesl-core/src/lock.rs:131-148 | the roots of one, two and four branches, written out: the bare branch digest, or the arity tag hashed with the branch digests in order |
| `LockProof.BuildLockProof` | crates/vesl-core/src/lock.rs:169-240 | refuses exactly a branch number out of range and a multi-branch lock before bythos, each by its own error, and else writes: the branch, the root, the full form exactly from bythos on, axis 1 and no sibling for one branch, axis 3N + (k-1), log2(N) siblings and the arity tag for N; the self-check at the end never fails |
| `LockProof.AxisBinding` | crates/vesl-core/src/lock.rs:245-267 | one axis and one root admit one leaf digest and one path, unless pairs hashed by these two folds collide |
| `LockProof.OnlyItsBranch` | crates/vesl-core/src/lock.rs:131-148 | at branch k's axis only branch k's own digest and path verify against the lock root |
| `LockProof.RootBinding` | crates/vesl-core/src/lock.rs:114-118 | two locks of several branches with one root are one lock, unless the pairs, arity tags or conditions hashed to make the roots collide |
| `LockProof.AnyAxisBinding` | crates/vesl-core/src/lock.rs:245-267 | at every axis: what folds to a lock's root is the digest of the node that stands at that axis of the lock, unless the digests hashed here collide |
| `LockProof.OnlyBranchesVerify` | crates/vesl-core/src/lock.rs:131-148 | at every axis: a condition that verifies against a lock's root is one of its branches, at that branch's own axis, unless digests collide or the condition's is one of the inner digests |
| `Notes.AsDrawn` | crates/vesl-core/src/job_locks.rs:132-218 | every constructor that accepts, of all ten, builds the branches its documentation draws: keys, bounds and fact sets in place, every fact named |
| `Notes.BuildsExactly` | crates/vesl-core/src/job_locks.rs:132-342 | which notes build, for all ten constructors: exactly those with pairwise different keys, windows from 1 up to below the prime with room for the block after or the absolute bound, deadlines in order, fields below the prime, and facts that are in-field digests, no two of them equal |
| `Notes.SlotWords` | crates/vesl-core/src/bond_locks.rs:94-140 | the slots that a demand and a slice carry beside their facts: the eight-byte cord of the kind or role, then the round or the index, then zeros |
| `Notes.PartiesDistinct` | crates/vesl-core/src/job_locks.rs:303-332 | where a note builds, its parties are pairwise different |
| `Notes.SpendTable` | crates/vesl-core/src/job_locks.rs:132-241 | for every accepted note, a signer set can use a branch at a height if and only if the protocol's own table says so, whatever preimages are published |
| `Notes.BranchIsolation` | crates/vesl-core/src/check_locks.rs:131-264 | no signature map satisfies the `%pkh` rule of two branches of one note, for the notes of all ten constructors |
| `Notes.SliceNeedsItsHolder` | crates/vesl-core/src/bond_locks.rs:141-170 | without the holder's key neither EXIT nor FALLBACK of a slice is satisfied, and before its life is over nobody moves it with one signature |
| `Notes.WindowsSplit` | crates/vesl-core/src/job_locks.rs:159-218 | the timed pairs (CAPTURE/RECOVER, PAY/CLAWBACK, ANSWER/EXPIRED, CLEAN/RETURN) split all heights without gap or overlap; CLAIM and RETURN overlap exactly between the two ticket deadlines |
| `Notes.VouchFollowsProvider` | crates/vesl-core/src/check_locks.rs:175-211 | wherever the vouch note lands, it pays and is clawed back at exactly the heights of the provider note it vouches for |
| `Notes.AddressBinding` | crates/vesl-core/src/check_locks.rs:117-264 | two accepted notes have equal locks if and only if they bind the same things: different kinds never, the two funding notes being one kind, bounds and fact sets always, and keys up to the pairs that a set forgets |
| `Notes.SlicesHaveOwnAddresses` | crates/vesl-core/src/bond_locks.rs:44-48 | two accepted slices under one terms digest that share a lock have the same role and index: slices of one posting, and a provider's and a checker's, never share an address |
| `Notes.FundingNotesShareLocks` | crates/vesl-core/src/check_locks.rs:115-124 | the one exception among the constructors: a check's funding note builds and is refused exactly as the escrow flow's over the same digests |
| `Notes.RolesForgotten` | crates/vesl-core/src/job_locks.rs:190-218 | the provider note's lock does not tell buyer from platform: exchanging them gives the same lock |
| `Notes.VerdictForgotten` | crates/vesl-core/src/check_locks.rs:175-211 | the vouch note's lock does not mention its verdict key |
| `EscrowFlow.RunKeeps` | crates/vesl-core/src/job_locks.rs:132-218 | if only the platform keeps to the flow's moves in what it signs, then as long as nobody has exited alone the buyer, the platform and the facts stay those of the funding note, whatever the others sign |
| `EscrowFlow.SpendsOfARun` | crates/vesl-core/src/job_locks.rs:132-241 | over every run in which any spend may write any accepted note: a spend of a funding, job or provider note carries the platform's signature and one other party's of that note, or comes at its deadline or later and is the lone party's |
| `EscrowFlow.LoneExitOverARun` | crates/vesl-core/src/job_locks.rs:132-241 | over every such run, in every state at a note of the flow, the lone party's signature by itself takes the money out if and only if the deadline has come and bythos is active |
| `EscrowFlow.FlowMovesForward` | crates/vesl-core/src/job_locks.rs:132-218 | and under that discipline of the platform alone the money never goes back a stage |
| `EscrowFlow.CaptureInTime` | crates/vesl-core/src/job_locks.rs:159-218 | and a provider note appears only inside the capture window of its own job note, signed by the platform and that job's provider |
| `OutputPin.GroupByRoot` | crates/vesl-core/src/settle.rs:544-550 | the groups are a partition of all indices by lock root |
| `OutputPin.WritePin` | crates/vesl-core/src/settle.rs:569-574 | writing a group's pin changes `output_source` of its own members only, and nothing else of any seed |
| `OutputPin.PinGroups` | crates/vesl-core/src/settle.rs:539-577 | in place, every seed claims the hash of the set of all seeds at its lock root with pins stripped, as a source that is no coinbase; no other field changes and old pins do not matter |
| `Tx.HashedAlike` | hoon/common/tx-engine-1.hoon:693-699 | two seeds are hashed alike if and only if lock root, gift, parent and note-data map agree: a pin never matters |
| `Tx.DataIsTheLastEntry` | hoon/common/tx-engine-1.hoon:620 | the note-data map keeps under each key the last entry of the list |
| `OutputPin.PinOutputSource` | crates/vesl-core/src/settle.rs:453-455 | the same for one spend's seeds |
| `OutputPin.PinOutputSourceAcross` | crates/vesl-core/src/settle.rs:505-531 | the same over the output sets of all spends, in one pass: every spend's seeds are pinned among all of them; the entry point over assembled spends passes the same seeds |
| `OutputPin.PinDependsOnOutputsOnly` | crates/vesl-core/src/settle.rs:505-577 | a seed gets the same pin for any order of the seeds, any split of them into spends, any repetition, any order of note-data entries that makes the same map, and any pins already present |
| `OutputPin.PinningIsIdempotent` | crates/vesl-core/src/settle.rs:539-577 | pinning changes only pins, and pinning again changes nothing |
| `OutputPin.PerSpendPin` | crates/vesl-core/src/settle.rs:453-492 | the per-spend pin is the right one for the transaction if and only if the other spends add no output at that lock root, or the two groups' hashes collide |
| `OutputPin.PerSpendPinWithoutSharedRoots` | crates/vesl-core/src/settle.rs:453-492 | so it agrees with the cross-spend pin whenever no lock root occurs in two spends |
| `ChainOutputs.OutputAt` | hoon/common/tx-engine-1.hoon:2333-2394 | the accumulator threaded across every spend holds at each lock root paid the set of all seeds there, pins kept, and the sum of all their gifts, repeats included |
| `ChainOutputs.MergedAssetsAreGifts` | hoon/common/tx-engine-1.hoon:2349-2393 | for every list of seeds, whatever roots they share and whatever is repeated, the merged notes hold the sum of all gifts |
| `ChainOutputs.AssetsHoldExactly` | hoon/common/tx-engine-1.hoon:1414-1420 | the assets check passes at every lock root if and only if no seed that carries a gift is repeated, its pin included |
| `ChainOutputs.ValidExactly` | hoon/common/tx-engine-1.hoon:1398-1420 | the outputs of any transaction are valid if and only if every pin claims the group of all seeds at its lock root, pins stripped, and no seed that carries a gift is repeated |
| `ChainOutputs.RepeatIsRefused` | hoon/common/tx-engine-1.hoon:1414-1420 | a seed met twice is counted twice in its note and the transaction refused: nothing is destroyed |
| `ChainOutputs.PinsTellSeedsApart` | hoon/common/tx-engine-1.hoon:1398-1420 | two seeds that differ in their pins alone are both paid and accepted |
| `ChainOutputs.GroupsIgnoreOrderAndPins` | hoon/common/tx-engine-1.hoon:2357-2365 | the groups that are hashed depend on the outputs only, not on the order of the seeds, nor on pins or repeats |
| `ChainOutputs.AuthoredTransactionIsValid` | crates/vesl-core/src/settle.rs:505-577 | for a transaction of exactly the pinned spends, in any order, every claim holds; and its outputs are valid if and only if no two spends pay an equal output, that carries a gift, from equal parents |
| `ChainOutputs.ForeignSeedBreaksThePin` | crates/vesl-core/src/settle.rs:466-504 | in any larger transaction a pinned seed still matches if and only if every seed at its root pays an authored output; one foreign output there makes every claim at that root fail, and the transaction with it (where the two group hashes do not collide) |
| `Capture.CheckOutputs` | crates/vesl-core/src/settle.rs:272-287 | succeeds exactly on non-zero amounts at pairwise different lock roots, with the total; otherwise it names the first faulty output |
| `Capture.BuildCaptureSeeds` | crates/vesl-core/src/settle.rs:259-328 | builds if and only if the outputs are non-empty, non-zero, at different lock roots and sum with the fee to the input; then seed i carries line i's lock root, note-data and amount, the given parent, and the pin of its own output alone |
| `Capture.RefuseDuplicateInputNames` | crates/vesl-core/src/tx_builder.rs:378-394 | succeeds exactly on pairwise different input names; the pair it names is a real collision |
| `Capture.SpendsMap` | crates/vesl-core/src/tx_builder.rs:361-394 | accepts exactly the non-empty lists with distinct input names, and returns the map of their insertion one by one |
| `Capture.LaterSpendsWin` | crates/vesl-core/src/tx_builder.rs:344-371 | what the refusal of equal names guards against: the entries of later spends replace those of earlier ones |
| `Capture.NothingReplaced` | crates/vesl-core/src/tx_builder.rs:344-371 | with distinct names that map has one entry a spend and no other: no spend is lost |
| `Capture.CaptureBalances` | hoon/common/tx-engine-1.hoon:795-803 | a built capture's spend, under any pins, passes the chain's check of gifts and fee against its note |
| `Capture.MergedTransactionConserves` | hoon/common/tx-engine-1.hoon:2333-2394 | for every list of spends of different notes, each balanced against its own, the merged outputs and the fees hold together what the notes held, whatever lock roots they share, however pinned and in whatever order |
| `Capture.CapturesAcceptedExactly` | crates/vesl-core/src/settle.rs:259-328 | the outputs of captures pinned across all of them are accepted if and only if no two captures pay equal lines from equal parents; so always when the parents differ, however many lock roots they share |
| `Capture.SentTransactionConserves` | crates/vesl-core/src/tx_builder.rs:361-394 | the accepted z-map of captures conserves: its merged outputs and its fees hold what the notes it names hold by the ledger, in whatever order the chain taps the map and its sets |
| `BranchWitness.CheckParts` | crates/vesl-core/src/settle.rs:779-820 | accepts exactly m parts by distinct named signers, every one verifying over the sig-hash; each refusal has its cause |
| `BranchWitness.CheckPreimages` | crates/vesl-core/src/settle.rs:845-866 | accepts exactly when the first preimage under every wanted label hashes to it; each refusal has its cause |
| `BranchWitness.CheckHax` | crates/vesl-core/src/settle.rs:829-867 | the preimages of every `%hax` of the branch are wanted, unless the branch carries a `%brn` |
| `BranchWitness.BuildBranchWitness` | crates/vesl-core/src/settle.rs:756-870 | builds if and only if the branch exists, a lock of several branches is past bythos, the parts are m different named signers that verify (none where no `%pkh` stands), and no conjunct is a `%brn` or every `%hax` digest has a first preimage that hashes to it; the witness carries the lock proof, every part under its key's hash, and the preimages as given |
| `BranchWitness.WantedMeans` | crates/vesl-core/src/settle.rs:756-870 | the same condition, of the value-level rule that the theorems below use |
| `BranchWitness.SignaturesAgree` | crates/vesl-core/src/lock.rs:69-111 | for distinct signers the builder's rule for a `%pkh` is the chain's rule on the signature map |
| `BranchWitness.PreimagesAgree` | crates/vesl-core/src/settle.rs:845-866 | with distinct labels, the first preimage under a label is the map's |
| `BranchWitness.LastPreimageIsKept` | crates/vesl-core/src/settle.rs:845-866 | the witness map keeps the last preimage under a label, where the builder looks at the first |
| `BranchWitness.ProofsRefused` | hoon/common/tx-engine-1.hoon:2230-2246 | what the chain refuses of a proof: another root, a stub at any axis but 1, the full form before bythos, a path that does not fold |
| `BranchWitness.BuilderAgreesWithChain` | crates/vesl-core/src/settle.rs:756-870 | on a burn-free branch inside its window with one `%pkh` at most, the builder accepts if and only if the chain accepts the witness and no part is one too many (no signer repeated, none on a branch without `%pkh`); this holds exactly when first preimages and the map's answer the branch alike once the parts are in order, and always for distinct labels |
| `BranchWitness.AcceptedVerdict` | hoon/common/tx-engine-1.hoon:2220-2257 | the chain's verdict on such a witness is that every signature of its map verifies and satisfies the branch, and that the preimage map answers it, each by itself |
| `BranchWitness.RepeatedSignerIsRefused` | crates/vesl-core/src/settle.rs:798-805 | the first way in which the builder is stricter: to whatever it builds add a part again, and the chain accepts while the builder refuses |
| `BranchWitness.SuperfluousPartIsRefused` | crates/vesl-core/src/settle.rs:821-827 | the second: on a branch without `%pkh` the chain asks of the signatures only that they verify, and the builder refuses every one |
| `BranchWitness.SuperfluousPartOnATimelock` | crates/vesl-core/src/settle.rs:821-827 | as on the branch of a bare open timelock, which the chain lets through with a verifying signature too many |
| `NoteWitness.BuilderFollowsTheTable` | crates/vesl-core/src/settle.rs:756-870 | for every accepted note of all ten constructors, the builder makes a witness of a burn-free branch in its window if and only if the protocol table allows the parts' signers and each signs once |
| `NoteWitness.AcceptedIsSpendable` | hoon/common/tx-engine-1.hoon:2220-2257 | the chain's checks of a map of verified signatures and of preimages accept a condition if and only if it is spendable by those signers with the facts that are answered, burns and time ranges included |
| `NoteWitness.AcceptedMeansAuthorized` | crates/vesl-core/src/lock.rs:245-267 | any witness, at any axis, that the chain accepts against a note's lock root carries one of the note's branches, at that branch's axis, and verified signatures of exactly a signer set that the table allows then, unless the digests hashed here collide |
| `NoteWitness.AuthorizedMeansAccepted` | crates/vesl-core/src/settle.rs:756-870 | and whatever the table allows, the chain accepts in the form the builder gives it |
| `NoteWitness.RootsBindNotes` | crates/vesl-core/src/check_locks.rs:131-264 | two accepted notes have one lock root if and only if they bind the same things, unless the pairs, tags or conditions hashed collide |
| `SettleCache.AdmitKeepsWindow` | crates/vesl-core/src/settle.rs:113-120 | admitting an id outside the window keeps the order the last CAP successes, and keeps equal ids CAP apart |
| `SettleCache.Settle.Settle` | crates/vesl-core/src/settle.rs:73-127 | succeeds exactly when the root is registered, the note is pending, the data verifies and the poke builds, and no earlier success among the last 1000000 has its id; a failure changes nothing; the window is at all times what the run of all calls so far leaves |
| `SettleCache.WindowOverRuns` | crates/vesl-core/src/settle.rs:73-127 | over every sequence of calls, the order is duplicate-free and is the last CAP successes, and two successes for one id have at least CAP others between them |
| `SettleCache.WindowForgets` | crates/vesl-core/src/settle.rs:113-120 | and no more than that: an id is still refused if and only if it is among the last CAP successes |
| `Nouns.NumOfLeaves` | crates/vesl-core/src/fee.rs:61-75 | the work-stack loop ends and counts the atoms of every noun: n of them among 2n - 1 nodes |
| `Nouns.NounDepth` | crates/vesl-core/src/tx_builder.rs:278-290 | the work-stack loop ends with the structural depth of every noun: at most its number of leaves n, which is at most 2^(depth - 1) |
| `Nouns.LeavesOfNodes` | crates/vesl-core/src/fee.rs:61-75 | a noun of n leaves has 2n - 1 nodes: what the walk visits |
| `Nouns.DepthAndLeaves` | crates/vesl-core/src/tx_builder.rs:278-290 | depth and leaves bound each other, by a chain of cells and by a full tree |
| `Fee.CountSeedWords` | crates/vesl-core/src/fee.rs:77-122 | past bythos, the words of note-data merged by lock root and key, the last entry under a key winning; before it, the words of each seed alone |
| `Fee.GroupIsData` | crates/vesl-core/src/fee.rs:90-107 | a merged group exists exactly where a seed pays, and holds for every key the leaves of the last value under it, of all note-data at that lock root in order |
| `Fee.LegacyCosts` | crates/vesl-core/src/fee.rs:90-130 | before bythos every seed pays by itself |
| `Fee.NoteDataCosts` | crates/vesl-core/src/fee.rs:124-130 | one word for the terminus, and for each entry one for the key and the leaves of the value |
| `Fee.GroupCosts` | crates/vesl-core/src/fee.rs:109-118 | and so for a merged group, an entry replaced paying the difference only |
| `Fee.GroupsCost` | crates/vesl-core/src/fee.rs:109-118 | the groups of different lock roots are added up |
| `Fee.WordsOfGroups` | crates/vesl-core/src/fee.rs:109-118 | the totals do not depend on the order in which the maps are walked |
| `Fee.CountWitnessWords` | crates/vesl-core/src/fee.rs:151-166 | the leaves of every spend's witness or signature noun |
| `Fee.WitnessCosts` | crates/vesl-core/src/fee.rs:151-166 | each input pays the leaves of its own witness noun, or of its signature noun if it spends an old note, and inputs add up |
| `Fee.CalculateMinFee` | crates/vesl-core/src/fee.rs:173-194 | the fee written out: seed words and witness words each priced at the base fee, which doubles before bythos; from bythos on the witness price alone is divided, by the divisor or by 1 for a zero one; every product and sum capped at 2^64 - 1; at least the floor |
| `Fee.MergedAtMostLegacy` | crates/vesl-core/src/fee.rs:77-130 | merged counting never exceeds per-seed counting, for any repeated lock roots and keys |
| `Fee.MergingSavesExactly` | crates/vesl-core/src/fee.rs:77-130 | and equals it if and only if nothing is repeated: no lock root in two seeds and no key in one |
| `Fee.BythosNeverRaisesTheFee` | crates/vesl-core/src/fee.rs:173-194 | the fee of the same spends at any height from bythos on never exceeds their fee at any height before it, saturation included |
| `Fee.PinsAreFree` | crates/vesl-core/src/fee.rs:90-194 | changing `output_source` of any seeds, in any way, changes the fee at no height |
| `ReplayCache.InMemoryReplayCache.Sweep` | crates/vesl-signing/src/replay_cache.rs:67-73 | keeps exactly the entries recorded no more than the calling ttl before now, a later reading than now included |
| `ReplayCache.InMemoryReplayCache.CheckAndInsert` | crates/vesl-signing/src/replay_cache.rs:80-88 | reports seen exactly for a key recorded no more than the ttl before now, and records it at this instant exactly when not |
| `ReplayCache.InMemoryReplayCache.Seen` | crates/vesl-signing/src/replay_cache.rs:77-89 | an uninterrupted call is the sweep, then the check |
| `ReplayCache.SeenExactly` | crates/vesl-signing/src/replay_cache.rs:67-89 | for any ttls, clock readings and interleaving of the atomic steps: a key is reported seen if and only if an earlier check recorded it and nothing up to this check found that entry older than its own ttl |
| `ReplayCache.FreshTwiceMeansForgotten` | crates/vesl-signing/src/replay_cache.rs:67-89 | so a key reported fresh twice was, in between, too old for some sweep's or check's own ttl |
| `ReplayCache.SeenByAge` | crates/vesl-signing/src/replay_cache.rs:67-89 | where no earlier section had a later clock reading or a shorter ttl, seen means recorded no more than the ttl before |
| `ReplayCache.TraitHoldsExactly` | crates/vesl-signing/src/replay_cache.rs:24-28 | the trait's contract, seen if and only if observed within the ttl, holds at a check exactly when being observed there implies a record that was kept; a report of seen is never wrong |
| `ReplayCache.TraitHoldsInOrder` | crates/vesl-signing/src/replay_cache.rs:24-28 | and where nothing ran out of order, exactly when every replay within the ttl has a record within the ttl |
| `ReplayCache.LateCallsAreInOrder` | crates/vesl-signing/src/replay_cache.rs:77-89 | a call that reads the clock after the other calls' sections, with the shortest ttl so far, has nothing out of order before it |
| `ReplayCache.FreshReportsAreApart` | crates/vesl-signing/src/replay_cache.rs:77-89 | over every schedule of calls that read the clock once and run two sections later, with ttls of at least T: two fresh reports of a key are more than T apart, from the first call's clock reading to the instant of the second report |
| `ReplayCache.ReplayDoesNotRenew` | crates/vesl-signing/src/replay_cache.rs:24-28 | the trait's contract fails on three calls one after another: a key observed one tick ago is reported fresh, for every ttl |
| `ReplayCache.ShortSweepForgets` | crates/vesl-signing/src/replay_cache.rs:67-73 | it fails when another caller sweeps with a shorter ttl |
| `ReplayCache.OvertakenCallForgets` | crates/vesl-signing/src/replay_cache.rs:77-89 | and with one ttl it fails for a call that is overtaken: both reports are fresh, though the two clock readings are one tick apart |
| `ReplayCache.OvertakenRun` | crates/vesl-signing/src/replay_cache.rs:77-89 | which is a run of three calls |
| `ReplayCache.PrefixedSeparatesDomains` | crates/vesl-signing/src/replay_cache.rs:46-52 | prefixed keys of colon-free domains are equal only for equal domains and equal nonces |
| `Caip122.BuildsExactly` | crates/vesl-signing/src/caip122.rs:104-125 | a body builds if and only if none of its six fields carries a C0 control character, DEL or a C1 control character |
| `Caip122.MessageText` | crates/vesl-signing/src/caip122.rs:119-150 | the body is these nine lines: the header over the domain, the address, an empty line, and six labelled fields in this order |
| `Caip122.PopField` | crates/vesl-signing/src/caip122.rs:210-219 | takes one line off the iterator and strips its label, or names the field |
| `Caip122.ParseMessage` | crates/vesl-signing/src/caip122.rs:157-208 | the line-by-line parser accepts and refuses as the layout of the whole body says |
| `Caip122.LinesOfJoin` | crates/vesl-signing/src/caip122.rs:163-190 | one-line texts joined by newlines split back into themselves, with or without a final newline |
| `Caip122.JoinOfLines` | crates/vesl-signing/src/caip122.rs:163-190 | and every text is its own lines joined, up to one final newline |
| `Caip122.MessagesParse` | crates/vesl-signing/src/caip122.rs:119-190 | every message of one-line texts parses to those texts, empty fields and fields holding a label or the header suffix included, with or without a final newline |
| `Caip122.RoundTrip` | crates/vesl-signing/src/caip122.rs:119-208 | parse after build is the identity on everything that builds with timestamps in whole seconds |
| `Caip122.BuildInjective` | crates/vesl-signing/src/caip122.rs:119-150 | equal bodies come from equal parameters, timestamps in whole seconds |
| `Caip122.ParsesExactly` | crates/vesl-signing/src/caip122.rs:152-208 | a body parses to given parameters if and only if it is the message of one-line texts that read so, or that message and one newline |
| `Caip122.AcceptedIsBuilt` | crates/vesl-signing/src/caip122.rs:119-208 | an accepted body is the one the builder makes of what was parsed if and only if it has no final newline, no control character in the six fields, and timestamps spelled as the builder spells them |
| `Caip122.OtherSpellingIsAccepted` | crates/vesl-signing/src/caip122.rs:184-190 | a message with another spelling of a timestamp parses to the same parameters, and the builder does not make it |
| `Caip122.ControlCharactersAreAccepted` | crates/vesl-signing/src/caip122.rs:152-190 | and with a tab in a field the builder refuses and the parser reads |

## Left out

- Tip5, the Cheetah curve and Schnorr signatures: hashing and signature checking are parameters, so nothing is claimed about their strength.
- Hash and encoding failures: the source's `Result` from hashing a spend condition or a noun is taken as `Ok`.
- Error texts: errors are datatypes that keep the cause and the indices or values named, not the wording.
- Integer width: heights, word counters, the proof axis and the running total of outputs are unbounded, where the source uses u64 or u128; the note bounds, fees, gifts and limbs keep their u64 range, and fee saturation is explicit.
- Locks: any perfect tree of branches is allowed, the source's five arities among them.
- The protocol fund's notes: the chain routes one fixed lock root to a multisig rule of its own; that exception is not part of the chain's check here.
- ClaimHolds: a pin is compared with its group's source as a value, where the chain compares their digests.
- `jam_spends_canonical`: the z-map is a map; its tree order and the noun encoding are not modelled.
- `noun_depth` as a guard: the depth limit that the encoders compare it with, and the encoders themselves, are not modelled.
- Typed note-data payloads: a value's leaf count is that of its noun; reading the payload out of its encoding is not modelled.
- BuilderAgreesWithChain: does not cover branches with two different `%pkh` conjuncts, which no constructor here makes.
- Signing sessions: that a signature over one note's sig-hash is not valid for another note is the signature scheme's, not shown here.
- EscrowFlow.Follows: the platform's discipline is that of the funding, job and provider notes; a check's funding note is spent freely in the runs, and its ticket's own flow is not followed.
- Order of hash-map and set walks: refusals among several missing preimages may name any one of them, as in the source.
- ReplayCache: the mutex is modelled by its two atomic sections; its poisoning is not modelled.
- Caip122: calendar dates are taken as numbers with a printed form; header encoding, `verify` and the signer are not modelled.
- Guard.check_with_reason: the same decision as `Guard.Check`, with a text.
- `build_seeds`, `build_witness`, `cosign`, `bounty_lock`: single-output and single-signer forms that would add only easy members.
- Chain and wallet clients, the HTTP hull, kernel pokes, checkpoints, configuration, templates and build scripts: input and output, with no property to prove.
