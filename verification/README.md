# Ignite Pay: a verified model

A Dafny 4.11 model of the state-keeping cores of Ignite Pay, with proofs of what they promise over all
inputs and all runs. `dafny verify dfyconfig.toml` checks the whole project.

| part | files | what is modelled |
|---|---|---|
| State-channel settlement | `Channel`, `ChannelAccounts`, `ChannelRuns`, `ChannelSettlement`, `ChannelPayouts`, `ChannelEscrow`, `ChannelRoots`, `ProRata` | the ten instructions over one channel account, token transfers, whole runs |
| The same, instruction by instruction | `ChannelDeposits`, `ChannelDisputes`, `ChannelClaims`, `ChannelClosing` | exactly when each instruction commits and what it does, stated without the program's own checks |
| Introspection | `Introspection`, `Acceptance`, `ProgramIds` | the byte parser of the instructions sysvar, against a serializer of its documented layout; what its acceptance says about the transaction; program ids as base58 texts |
| Merkle trees | `MerkleProof`, `AuditMerkle` | sorted-pair proofs; the level-by-level audit tree, against the top-down tree of section 2.1 of RFC 6962 |
| Encrypted audit log | `AuditProto`, `LogChunks`, `LogSync`, `LogSyncRuns`, `LogSyncClient` | building and opening chunks, the hash chain, syncing to IPFS and restoring |
| Session keys | `Session`, `SessionAccounts`, `SessionRuns`, `SessionPayments`, `SessionRate` | registration, SOL and token payments, withdrawal, revocation, closing |
| Vouchers | `VoucherStore`, `VoucherIssuing`, `VoucherContents` | the byte-keyed voucher store; payment tasks that share a mutex and the vault |
| Audit queries | `AuditQuery` | the reverse scan with early exits |
| Pairing | `Pairing`, `PairingAddress` | the three-step handshake of the merchant mediator, its two handlers, restarts, whose address is stored |
| Shared | `Bytes`, `Arithmetic`, `Permutations`, `StableSort`, `OrderedTree`, `TokenLedger` | encodings and byte order, sorting, ordered trees, token accounts |

Each on-chain instruction appears twice: as a function from the old state to a new state or an error,
and as a method that assigns the fields of the account in the order of the program, proved equal to that
function. `Process` adds the runtime, which undoes everything a failed instruction wrote. Properties of
whole runs are proved about the functions.

## Assumptions

- SHA-256 is a parameter. Nothing is assumed of it in general; where binding is claimed, the strings that
  the computation really hashes are assumed to be free of collisions, and only those.
- Protobuf decodes what it encodes; zstd and AES-256-GCM give back what they were given. Compression and
  encryption may fail; the random nonce is a parameter.
- The account passed as `instruction_sysvar` is any account with any data: the program never compares its
  address. The runtime is assumed to make the call an instruction of its transaction and to keep the
  documented layout of that transaction in the real sysvar (`Acceptance.RuntimeRule`), and nothing about other
  accounts. Statements about the transaction's own
  instructions name this condition (`Genuine`).
- `token::transfer` moves exactly the amount, under the authority of the owner or of a delegate, or fails.
  Between instructions other programs may change token accounts in any way
  (`ChannelRuns.Outside`), and anybody may also move lamports (`SessionRuns.Surroundings`). A derived
  escrow address signs nothing by itself.
- An instruction, and a message handler, is atomic. An unchecked addition that overflows reverts on chain,
  where the programs are built with overflow checks; the voucher numbers wrap, as in a release build.
- The session clock never goes back. The channel theorems need no assumption on slots.
- Database reads and writes succeed. Off-chain signatures are an opaque predicate; nothing
  says that a message was written by the sender it names.

## Where the code does not do what one would expect

The code was kept as it is; each finding is a lemma.

- The acceptance checks read whatever account is passed. Two accepted parties mean two instructions of the
  transaction exactly when that account is the instructions sysvar (`SettlingIsCarriedIff`); with any other
  account an Open channel can settle in whatever transaction (`SettlesWhateverTheTransaction`).
- A payout or a refund may name the escrow itself as vault: it counts as paid and moves nothing
  (`PayoutToEscrowMovesNothing`, `ClaimToEscrowCommitsIff`), so a channel can be Closed with its whole deposit
  still in the escrow (`ClosedWithNothingReleased`). What left the escrow is what the program accounts for
  exactly when this did not happen (`EscrowReleasedIff`).
- The program id that the walk looks for is not the one of the ed25519 precompile: it is base58 of
  Ed25519SigVerify followed by 28 ones instead of 27 (`ExpectedProgramIsNotThePrecompile`,
  `ExpectedIdDecodes`, `PrecompileIdDecodes`). Instructions of the precompile are never accepted, and runs whose
  transactions name no other program for their signatures open no channel (`PrecompileInstructionsOpenNothing`).
- A claim binds neither the owner of a plain leaf nor its index (`ClaimBindsNoOwner`, `ClaimBindsNoIndex`). An
  HTLC payout takes hash lock and time lock from the caller (`HtlcTermsAreTheCallers`): a refund with time lock 0
  and, while Settling, a plain claim pay the same leaf without a preimage (`RefundPaysWithoutPreimage`,
  `ClaimPaysHtlcLeaf`). What is bounded is one payout per index (`AtMostOncePerIndex`) and the sum of the
  deposits.
- The user's acceptance of an opening holds neither the provider nor the vaults, the open slot, the duration and the
  delay: it serves for any others of them (`OpeningBindsNoProvider`), so the minimum delay counts from a slot that the
  caller names (`ChallengeWaits`).
- A challenge sets any root on acceptance of its challenger alone, and its message does not hold the sequence
  (`ChallengeBindsNoSequence`); one at u64::MAX can never be countered (`HighestSequenceIsFinal`).
- The settle window may be zero, and the final refund goes to whatever two vaults its caller names
  (`WindowOfSettling`, `FinalizeBindsNoVault`, `RefundBalance`).
- A challenge whose end, challenge slot plus duration, does not fit u64 has neither an HTLC window nor a
  timeout: the channel stays Challenged in every run (`ChallengeWindows`, `ChallengedCanSettle`,
  `OverlongChallengeIsStuck`), and such a state is reachable (`OverlongChallengeIsReachable`). With an end
  that fits, every slot has exactly one of the two windows.
- The saturating capacity check lets the vouchers outgrow a vault that has all of u64 available
  (`FullVaultCanBeOverdrawn`); `IssueSolventIff` gives the exact condition.
- After a voucher numbered u64::MAX the numbering wraps to 0; the next key is taken exactly when it wraps
  onto a voucher numbered 0, which is then replaced (`NextNumberIsFresh`). Solvency survives this.
- The comment in `ignite-pay-mcp/src/audit.rs:119` says that key order is time order. The query keeps its
  promise exactly when it is (`QueryCorrectIff`), which holds for times of one decimal width
  (`QueryCorrect`) and fails otherwise (`DifferentWidthsBreakQuery`).
- The plaintext and the encrypted pairing handler test message types in different orders; they agree
  exactly on types that do not name an update and a pairing step at once (`HandlersAgreeIff`).
- Anybody who writes an update naming the paired phone moves the stored address (`AnyAuthorMovesAddress`); only
  the phone itself can exactly when every update that arrives names its author (`OnlyAuthorMovesAddressIff`).
  The address can also be that of another phone whose request came earlier (`AnotherPhonesAddress`,
  `AddressNamesPhoneIff`).
- The first chunk's predecessor is never checked, so the last hash binds the log only together with the
  number of chunks (`OldestChunkCanBeDropped`).
- The Merkle root does not bind sibling order, cannot tell a 64-byte leaf from a pair, and is the same for
  no leaves and for one empty leaf (`BindingIsSharp`).

## Model

| member | source | states |
|---|---|---|
| `Introspection.VerifyEd25519` | ignite-pay-program/src/lib.rs:942-1049 | for arbitrary bytes: no read is out of bounds, and the walk succeeds exactly when some entry before the current index, found through the offset table, matches key and message |
| `Introspection.CheckRecord` | ignite-pay-program/src/lib.rs:968-1016 | the moving-position parse of one record accepts exactly the records that lie before the last two bytes, name the expected program id and carry matching data |
| `Introspection.CheckData` | ignite-pay-program/src/lib.rs:1018-1045 | the header checks accept exactly single-signature, self-referencing data with this key and message |
| `Introspection.DataMatchesMeaning` | ignite-pay-program/src/lib.rs:1018-1045 | the byte checks hold exactly when some well-formed signature header stands in front and points at key and message |
| `Introspection.LayoutEntry` | ignite-pay-program/src/lib.rs:932-941 | in every buffer laid out as documented, following table entry i gives back program id and data of instruction i |
| `Introspection.SysvarParserCorrect` | ignite-pay-program/src/lib.rs:915-1049 | over every instruction list that fits 16-bit offsets: the stored index is read back, and verification succeeds exactly when an earlier instruction of the expected program id, which is not the id of the ed25519 precompile, carries this key and message |
| `Acceptance.GenuineMeansCarried` | ignite-pay-program/src/lib.rs:942-1049 | when the sysvar itself is passed, acceptance holds exactly when an earlier instruction of the transaction carries key and message |
| `Acceptance.SettlesWhateverTheTransaction` | ignite-pay-program/src/lib.rs:194-245 | for every Open channel, slot, window that fits, transaction, call in it and address other than the sysvar there is account data with which the channel settles |
| `Acceptance.SettlingIsCarriedIff` | ignite-pay-program/src/lib.rs:204-239 | for every call: two accepted parties mean two earlier instructions of its transaction exactly when the passed address is the instructions sysvar |
| `Acceptance.ExpectedProgramIsNotThePrecompile` | ignite-pay-program/src/lib.rs:993-1003 | the id in the code differs from the id of the ed25519 precompile |
| `ProgramIds.ExpectedIdDecodes` | ignite-pay-program/src/lib.rs:993-1000 | the bytes compared with are the base58 decoding of Ed25519SigVerify and 28 ones, the text beside them |
| `ProgramIds.PrecompileIdDecodes` | ignite-pay-program/src/lib.rs:993-1000 | the id of the precompile is that of the same name and 27 ones |
| `ProgramIds.DecodingIsUnique` | ignite-pay-program/src/lib.rs:993-1000 | a text has at most one base58 decoding of a given length |
| `Acceptance.PrecompileIsNeverAccepted` | ignite-pay-program/src/lib.rs:993-1003 | no instruction of the precompile is accepted, whatever it carries |
| `Acceptance.OpensIff` | ignite-pay-program/src/lib.rs:88-140 | with the sysvar passed, opening succeeds exactly when its checks pass and an earlier instruction of the expected program id carries the user's message |
| `ChannelSettlement.PrecompileInstructionsOpenNothing` | ignite-pay-program/src/lib.rs:88-140 | a run that always passes the sysvar and whose transactions never name the expected program id opens no channel |
| `MerkleProof.VerifyMerkleProof` | ignite-pay-program/src/utils/merkle.rs:14-29 | accepts exactly when folding the leaf with the siblings gives the root |
| `MerkleProof.SortedPairInjective` | ignite-pay-core/src/audit_merkle.rs:71-76 | the 64 hashed bytes determine the two siblings up to order |
| `MerkleProof.SortedPairIsOrdered` | ignite-pay-program/src/utils/merkle.rs:17-26 | the 64 hashed bytes are the two siblings, and the second half is not before the first in byte order |
| `AuditMerkle.LevelUpKeepsRoot` | ignite-pay-core/src/audit_merkle.rs:66-84 | pairing neighbours and promoting an odd node keeps the root of the top-down tree |
| `AuditMerkle.NextLevel` | ignite-pay-core/src/audit_merkle.rs:67-83 | the inner loop computes the next level |
| `AuditMerkle.ComputeRoot` | ignite-pay-core/src/audit_merkle.rs:57-87 | the level-by-level loop computes the root of the tree that splits at the largest power of two below n |
| `AuditMerkle.NewTree` | ignite-pay-core/src/audit_merkle.rs:23-39 | the tree's root is the reference root of the leaf data, the hash of the empty string for no leaves |
| `AuditMerkle.MerkleBinding` | ignite-pay-core/src/audit_merkle.rs:23-98 | two non-empty leaf lists without 64-byte leaves and with equal roots have the same leaves with the same multiplicities, hence the same length |
| `AuditMerkle.BindingIsSharp` | ignite-pay-core/src/audit_merkle.rs:23-98 | each hypothesis of the binding theorem is needed, for every hash function |
| `AuditMerkle.PathFoldsToRoot` | ignite-pay-program/src/utils/merkle.rs:14-29 | every leaf has a sibling path that the proof check accepts against the audit root |
| `AuditMerkle.PathIsShort` | ignite-pay-core/src/audit_merkle.rs:57-87 | that path has at most ceil(log2 n) siblings, although odd nodes are promoted |
| `AuditMerkle.CeilLog2IsLeast` | ignite-pay-core/src/audit_merkle.rs:57-87 | the bound on the path length is the least d with n at most 2 to the d |
| `AuditMerkle.AcceptedProofProvesMembership` | ignite-pay-program/src/utils/merkle.rs:14-29 | an accepted proof, of any length, for data that is not 64 bytes long proves that the data is a leaf |
| `TokenLedger.TokenProgram.Transfer` | ignite-pay-program/src/lib.rs:486-502 | a transfer moves exactly the amount between two unfrozen accounts of one mint under the authority of the owner, or of the delegate within its allowance, or fails and changes nothing |
| `TokenLedger.TransferConserves` | ignite-pay-program/src/lib.rs:486-502 | over any accounts that include both ends a transfer keeps the total balance, also from an account to itself |
| `TokenLedger.TransferConservesMints` | ignite-pay-program/src/lib.rs:486-502 | the supply of every single mint stays, and a frozen account keeps its balance |
| `TokenLedger.AllowanceShrinks` | ignite-pay-program/src/lib.rs:486-502 | what a delegate moves is taken off its allowance, which ends at zero; otherwise the mover is the owner |
| `Channel.StateMessageInjective` | ignite-pay-program/src/lib.rs:220-223 | the signed text determines channel, number and root |
| `Channel.StateMessageLayout` | ignite-pay-program/src/lib.rs:220-223 | the signed text has 72 bytes: channel id, the number in little-endian order, root |
| `Channel.OpenMessageLayout` | ignite-pay-program/src/lib.rs:124-128 | the text signed for opening has 76 bytes: channel id, deposit and depth in little-endian order, root |
| `ChannelAccounts.ChannelAccount.VerifyIntrospection` | ignite-pay-program/src/lib.rs:131-137 | true exactly when the data of the passed account, whichever account that is, is accepted for this key and message |
| `ChannelAccounts.ChannelAccount.OpenChannel` | ignite-pay-program/src/lib.rs:88-140 | the account after opening, or the first failing check, as specified; nothing claimed, no automatic closing slot |
| `ChannelAccounts.ChannelAccount.FundChannel` | ignite-pay-program/src/lib.rs:144-190 | one deposit by the provider, in transfer and in counters, or the first failing check |
| `ChannelAccounts.ChannelAccount.CooperativeSettle` | ignite-pay-program/src/lib.rs:194-245 | Settling with the window's deadline, when both parties are accepted with the current root |
| `ChannelAccounts.ChannelAccount.TriggerChallenge` | ignite-pay-program/src/lib.rs:249-301 | Challenged at this slot with the submitted root and a larger sequence |
| `ChannelAccounts.ChannelAccount.SubmitCounterState` | ignite-pay-program/src/lib.rs:305-348 | root and sequence replaced by a later state for which both parties are accepted, the rest kept |
| `ChannelAccounts.ChannelAccount.SettleAfterTimeout` | ignite-pay-program/src/lib.rs:352-390 | Settling once the challenge period is over |
| `ChannelAccounts.ChannelAccount.VerifyLeaf` | ignite-pay-program/src/lib.rs:459-475 | proof under the current root, then acceptance of the claimer with slot and root |
| `ChannelAccounts.ChannelAccount.PayOut` | ignite-pay-program/src/lib.rs:477-502 | counter, claimed list and transfer of one payout, or the first failing check |
| `ChannelAccounts.ChannelAccount.Claim` | ignite-pay-program/src/lib.rs:394-505 | the whole claim with its checks in the order of the program |
| `ChannelAccounts.ChannelAccount.VerifyHtlc` | ignite-pay-program/src/lib.rs:509-643 | the hash-locked claim, inside its deadline and before its time lock |
| `ChannelAccounts.ChannelAccount.HtlcRefund` | ignite-pay-program/src/lib.rs:647-777 | the refund of a hash-locked leaf, inside its deadline and after its time lock |
| `ChannelAccounts.ChannelAccount.RefundBoth` | ignite-pay-program/src/lib.rs:844-900 | the two pro-rata transfers with every checked operation of the computation |
| `ChannelAccounts.ChannelAccount.FinalizeSettlement` | ignite-pay-program/src/lib.rs:781-905 | the final refund and Closed, or the first failing check |
| `ChannelAccounts.ChannelAccount.Process` | ignite-pay-program/src/lib.rs:88-905 | one instruction under a runtime that reverts failures: account and token state are exactly the next state of the run |
| `ChannelDeposits.OpenCommitsIff` | ignite-pay-program/src/lib.rs:34-140 | an opening commits exactly on a new account, for a user signing for itself, with two vaults of the mint, depth at most 12, a positive deposit, and the user accepted with id, deposit, depth and root |
| `ChannelDeposits.OpenEffect` | ignite-pay-program/src/lib.rs:99-121 | the terms an opening records, key by key, in an otherwise empty Open channel; no token moves |
| `ChannelDeposits.OpenedWith` | ignite-pay-program/src/lib.rs:99-121 | in every reachable state parties, mint, vaults, first deposit, open slot, duration and delay are those of the one opening of the run |
| `ChannelDeposits.OpeningBindsNoProvider` | ignite-pay-program/src/lib.rs:123-137 | an opening that commits also commits in the same transaction with any other provider, open slot, duration and delay, and exactly the vaults that hold the mint |
| `ChannelDeposits.FundingOfRun` | ignite-pay-program/src/lib.rs:144-190 | a fund step of a run commits exactly on an Open channel without a second deposit, by the provider and into the second vault that the opening recorded, with a transfer that can be made; it is one transfer of exactly what is added to the total, out of an account that the provider controls, and no other balance moves |
| `ChannelDeposits.FundedAtMostOnce` | ignite-pay-program/src/lib.rs:144-190 | at most one fund step of a run commits |
| `ChannelDisputes.ChallengeCommitsIff` | ignite-pay-program/src/lib.rs:249-301 | a challenge commits exactly on an Open channel, by a party, from open slot plus delay on, with a larger sequence, accepted with slot and root |
| `ChannelDisputes.ChallengeWaits` | ignite-pay-program/src/lib.rs:278-280 | in a run no challenge commits before the open slot plus the delay that its opening named |
| `ChannelDisputes.CounterStateCommitsIff` | ignite-pay-program/src/lib.rs:305-348 | while Challenged every later state that both parties accepted is taken, and no other |
| `ChannelDisputes.OnlyLaterAgreedStatesReplace` | ignite-pay-program/src/lib.rs:305-348 | in a reachable Challenged state root and sequence change only to a later state that both parties accepted |
| `ChannelDisputes.CooperativeSettleCommitsIff` | ignite-pay-program/src/lib.rs:194-245 | a cooperative settle commits exactly on an Open channel with its current root, no smaller sequence, both parties accepted and a deadline that fits; the deadline is slot plus window |
| `ChannelDisputes.TimeoutCommitsIff` | ignite-pay-program/src/lib.rs:352-390 | in a reachable state it commits exactly when Challenged for more than the duration and the deadline fits |
| `ChannelClaims.PayoutCommitsIff` | ignite-pay-program/src/lib.rs:394-777 | each of the three payouts commits exactly when the claimer is an accepted party, the data hashes to a leaf that folds to the current root and states the amount, the index is unclaimed, the slot is in its window, hash lock and time lock hold, and the escrow can pay within the deposits |
| `ChannelClaims.PayoutsOfRun` | ignite-pay-program/src/lib.rs:394-777 | the same for every payout step of every run; what commits claims the index and moves exactly the amount in the data from the escrow to the vault |
| `ChannelClaims.PaidUnderAcceptedRoot` | ignite-pay-program/src/lib.rs:459-475 | every paid leaf folds to a root that an earlier step of the run set with its acceptance |
| `ChannelClaims.PaidDataIsALeaf` | ignite-pay-program/src/lib.rs:459-462 | when the root is that of a list of leaves, the paid data is one of them, if the hashed strings do not collide |
| `ChannelClosing.FinalizeCommitsIff` | ignite-pay-program/src/lib.rs:781-905 | in a reachable state a final refund commits exactly while Settling, from the deadline on, for an accepted party, into existing accounts, when the escrow can send both parts of a fair split one after the other; it then sends exactly these |
| `ChannelClosing.ClosedAfterDeadline` | ignite-pay-program/src/lib.rs:823-825 | no step of a run closes a channel before the slot in which Settling was entered plus the window named then |
| `ChannelClosing.ClaimsComeFirst` | ignite-pay-program/src/lib.rs:427-825 | before the deadline no final refund commits and every entitled, payable claim does |
| `ChannelRuns.PayoutInstructions` | ignite-pay-program/src/lib.rs:427-777 | all three payout instructions have one effect, on a leaf index not claimed before, and only while Challenged or Settling |
| `ChannelRuns.FinalizeKeepsInv` | ignite-pay-program/src/lib.rs:840-902 | finalizing makes the escrow's transfers, to itself and to others, add up to the deposits |
| `ChannelRuns.RunKeepsInv` | ignite-pay-program/src/lib.rs:88-905 | every run keeps the channel invariant: deposits add up, claims are covered, the escrow's transfers add up to what is accounted for, claimed indices do not repeat |
| `ChannelRuns.EscrowConservation` | ignite-pay-program/src/lib.rs:477-502 | in every reachable state total_deposited is the sum of the deposits; before Closed the escrow's transfers, to itself and to others, add up to total_claimed, at most total_deposited; on Closed to total_deposited |
| `ChannelEscrow.EscrowReleased` | ignite-pay-program/src/lib.rs:477-502 | what left the escrow, plus what payouts and refunds of the run paid to the escrow itself, is total_claimed before Closed and total_deposited on Closed |
| `ChannelEscrow.EscrowReleasedIff` | ignite-pay-program/src/lib.rs:840-902 | what left the escrow is exactly that if and only if no committed payout or refund of the run named the escrow with a positive amount |
| `ChannelEscrow.PayoutBalance` | ignite-pay-program/src/lib.rs:486-502 | after any payout, whatever vault it names, the balance of every account: the vault gained and the escrow lost the amount |
| `ChannelEscrow.RefundBalance` | ignite-pay-program/src/lib.rs:868-898 | after any final refund, whatever vaults it names, the balance of every account: each vault gained its share and the escrow lost both |
| `ChannelEscrow.PayoutLosesOutflow` | ignite-pay-program/src/lib.rs:486-502 | a payout takes from the escrow's balance exactly what it adds to the outflow |
| `ChannelEscrow.RefundLosesOutflow` | ignite-pay-program/src/lib.rs:868-898 | so does the final refund |
| `ChannelEscrow.PayoutToEscrowMovesNothing` | ignite-pay-program/src/lib.rs:477-502 | a payout that names the escrow counts as claimed and leaves every token account as it was |
| `ChannelEscrow.ClaimToEscrowCommitsIff` | ignite-pay-program/src/lib.rs:409-505 | an admitted claim that names the escrow commits exactly when it is within the deposits and the escrow could pay it |
| `ChannelEscrow.ClosedWithNothingReleased` | ignite-pay-program/src/lib.rs:796-902 | a run from the start, with the sysvar passed in every call, that closes a channel with a deposit and leaves every token account as it was |
| `ChannelRuns.ClosedIsFinal` | ignite-pay-program/src/lib.rs:781-905 | after Closed the account never changes and nothing more leaves the escrow |
| `ChannelRuns.RunGoesForward` | ignite-pay-program/src/lib.rs:88-905 | between any two states of a run: parties, terms, sequence, status, claims and deposits only move forward |
| `ChannelRuns.RootIsFunctionOfSequence` | ignite-pay-program/src/lib.rs:280-345 | along a run the sequence never decreases, equal sequences have equal roots, and both are frozen from Settling on |
| `ChannelRoots.RootProvenance` | ignite-pay-program/src/lib.rs:88-348 | in every reachable state root and sequence were set by an earlier step of the run: opening accepted for the user, a challenge accepted for the challenger with slot and root, or a counter state accepted for both with sequence and root |
| `ChannelRoots.ChallengeBindsNoSequence` | ignite-pay-program/src/lib.rs:278-293 | a challenge that passes also passes with exactly the sequences above the channel's |
| `ChannelRoots.HighestSequenceIsFinal` | ignite-pay-program/src/lib.rs:317-348 | from a state with sequence u64::MAX on no counter state is accepted and the root never changes |
| `ChannelRuns.PayoutsAreAccounted` | ignite-pay-program/src/lib.rs:443-484 | the claimed list is the list of paid indices and total_claimed the sum of the paid amounts |
| `ChannelRuns.AtMostOncePerIndex` | ignite-pay-program/src/lib.rs:443-756 | over claims, HTLC claims and HTLC refunds together each leaf index is paid at most once, even when the root is replaced in between |
| `ChannelPayouts.ClaimBindsNoOwner` | ignite-pay-program/src/lib.rs:442-457 | an admitted claim is admitted for another party that names itself exactly when that party is one of the two and is accepted with slot and root |
| `ChannelPayouts.ClaimBindsNoIndex` | ignite-pay-program/src/lib.rs:443-484 | after a claim the same leaf is admitted again in the same transaction under exactly the indices that are not claimed yet |
| `ChannelPayouts.HtlcTermsAreTheCallers` | ignite-pay-program/src/lib.rs:593-595 | any two choices of preimage, lock and time lock that fit each other have one outcome |
| `ChannelPayouts.RefundPaysWithoutPreimage` | ignite-pay-program/src/lib.rs:682-777 | whatever a hash-locked claim pays after slot 0, the refund with time lock 0 pays identically |
| `ChannelPayouts.ClaimPaysHtlcLeaf` | ignite-pay-program/src/lib.rs:427-505 | whatever a hash-locked claim pays while Settling, a plain claim pays identically |
| `ChannelPayouts.WindowOfSettling` | ignite-pay-program/src/lib.rs:241-242 | finalizing in the slot of settling is open exactly for a zero window, and claims and finalize are open together exactly at the deadline |
| `ChannelPayouts.FinalizeBindsNoVault` | ignite-pay-program/src/lib.rs:796-800 | the checks of the final refund are the same for any two pairs of token accounts |
| `ChannelSettlement.SettlementReachability` | ignite-pay-program/src/lib.rs:208-390 | a channel enters Settling only when the passed account is accepted for both parties with the current root, and then its transaction carries both if that account is the sysvar, or more than challenge_duration slots after a challenge that happened earlier in the run |
| `ChannelSettlement.ChallengeHappened` | ignite-pay-program/src/lib.rs:295-298 | a recorded challenge slot is the slot of an earlier successful challenge |
| `ChannelSettlement.StatusNeverMovesBack` | ignite-pay-program/src/lib.rs:106-123 | the status never moves backwards and auto_close_slot is None in every reachable state |
| `ChannelSettlement.ChallengeWindows` | ignite-pay-program/src/lib.rs:559-568 | while Challenged no slot has both the HTLC window and the timeout, and a slot has one of them exactly when the end of the challenge fits u64 |
| `ChannelSettlement.OverlongChallengeIsReachable` | ignite-pay-program/src/lib.rs:270-301 | a run from the start, with the sysvar passed in every call, that reaches a challenge for which no slot has either window |
| `ChannelSettlement.ChallengedCanSettle` | ignite-pay-program/src/lib.rs:366-390 | some instruction at some slot leaves Challenged exactly when the challenge ends before the last u64 slot |
| `ChannelSettlement.OverlongChallengeIsStuck` | ignite-pay-program/src/lib.rs:352-390 | otherwise the channel stays Challenged in every run |
| `ChannelSettlement.ProRataRefund` | ignite-pay-program/src/lib.rs:840-863 | in every reachable Settling state no checked operation of the refund fails, the cast is lossless and the refunds are a fair split of what is unclaimed |
| `ChannelSettlement.RefundsPay` | ignite-pay-program/src/lib.rs:868-898 | the logged transfers are the first refund to the first vault, then the second to the second, none for zero |
| `ChannelSettlement.FinalizePays` | ignite-pay-program/src/lib.rs:817-905 | every finalize that commits in a run pays a fair split of exactly what was unclaimed, the user's part first, to the vaults it names, in at most two logged transfers, and closes the channel |
| `ProRata.RefundNearExactShare` | ignite-pay-program/src/lib.rs:849-860 | the user's refund never exceeds unclaimed * deposit_a / total and falls short by less than unclaimed / 10^6 + 1; a sole funder gets everything |
| `ProRata.RefundArithmeticNeverFails` | ignite-pay-program/src/lib.rs:844-863 | for all u64 deposits with a positive u64 sum the u128 steps succeed, the cast truncates nothing and the refunds add up |
| `ProRata.RefundsAreFair` | ignite-pay-program/src/lib.rs:844-863 | both refunds together are a fair split |
| `SessionAccounts.SessionKeyAccount.RegisterSessionKey` | ignite-pay-session-program/src/lib.rs:31-94 | the new session, or the first failing check; every scope must hold a colon, and the scopes must fit the account |
| `SessionAccounts.SessionKeyAccount.CheckAuthorized` | ignite-pay-session-program/src/lib.rs:204-221 | first failing check on key, revocation, expiry, scope, mint and per-payment limit |
| `SessionAccounts.SessionKeyAccount.RollAndCheck` | ignite-pay-session-program/src/lib.rs:133-148 | restart of the daily window, then the first failing limit |
| `SessionAccounts.SessionKeyAccount.MoveLamports` | ignite-pay-session-program/src/lib.rs:154-163 | debit before credit, also when both accounts are one |
| `SessionAccounts.SessionKeyAccount.ExecutePayment` | ignite-pay-session-program/src/lib.rs:98-171 | lamports and counters after a SOL payment, or the first failing check |
| `SessionAccounts.SessionKeyAccount.ExecuteSplPayment` | ignite-pay-session-program/src/lib.rs:175-264 | token accounts and counters after a token payment, or the first failing check |
| `SessionAccounts.SessionKeyAccount.WithdrawRemaining` | ignite-pay-session-program/src/lib.rs:268-298 | everything above the rent-exempt minimum goes to the recipient |
| `SessionAccounts.SessionKeyAccount.WithdrawSplRemaining` | ignite-pay-session-program/src/lib.rs:302-338 | the owner moves tokens under the session's authority |
| `SessionAccounts.SessionKeyAccount.RevokeSession` | ignite-pay-session-program/src/lib.rs:342-357 | the owner revokes once |
| `SessionAccounts.SessionKeyAccount.CloseSession` | ignite-pay-session-program/src/lib.rs:361-377 | a revoked or expired session is removed and its lamports go to the owner |
| `SessionAccounts.SessionKeyAccount.Process` | ignite-pay-session-program/src/lib.rs:62-377 | one instruction under a runtime that reverts failures is exactly one step of a run |
| `SessionPayments.RegisterCommitsIff` | ignite-pay-session-program/src/lib.rs:31-94 | a registration commits exactly without a session, for a key that is not the default, a future expiry, and scopes that all hold a colon and fit the account; it records its terms |
| `SessionPayments.PaymentsOfLife` | ignite-pay-session-program/src/lib.rs:98-264 | every payment of every life, in the terms of its registration: it commits exactly when the registered key signs, in time, not revoked, with a registered scope, within the per-payment limit, for the registered mint other than the default key, with room in the daily count and the spending limit, and the session can pay; it then moves exactly the amount from the session to the recipient and is charged |
| `SessionPayments.OnlyTheOwnerActs` | ignite-pay-session-program/src/lib.rs:268-377 | every other call of a life commits exactly for the registered owner under the conditions of its kind, and moves exactly what it names |
| `SessionRuns.RegisterStartsALife` | ignite-pay-session-program/src/lib.rs:72-91 | a successful registration leaves an unspent, unexpired session whose window starts now: where the theorems about one life begin |
| `SessionRuns.CallEffect` | ignite-pay-session-program/src/lib.rs:114-377 | whatever surroundings a call finds: a payment is charged to a live, unexpired session within its limit; any other call leaves the counters alone, revokes or closes |
| `SessionRuns.SpendLedger` | ignite-pay-session-program/src/lib.rs:145-169 | from registration on, with lamports and tokens coming and going in between, current_spent is the sum of all successful SOL and token payments and never exceeds spending_limit |
| `SessionRuns.NoPaymentAfterRevocationOrExpiry` | ignite-pay-session-program/src/lib.rs:124-125 | on a revoked or expired session no call sequence makes a payment succeed |
| `SessionRuns.PaymentsFromWindow` | ignite-pay-session-program/src/lib.rs:133-144 | from a window with c payments made: at most the rest of its limit, plus the limit for each window that can still start |
| `SessionRuns.RateBound` | ignite-pay-session-program/src/lib.rs:133-169 | with a daily limit L, in every interval of k days at most (k + 1) * L payments succeed, both kinds together and whatever arrives in between |
| `SessionRate.RateBoundIsTight` | ignite-pay-session-program/src/lib.rs:135-144 | for all parties, every limit L and every number k of days that the clock can count: a registered session and an interval of k days in which exactly (k + 1) * L payments succeed |
| `SessionRuns.LamportsConserved` | ignite-pay-session-program/src/lib.rs:154-163 | every instruction keeps the total lamports of any accounts that include the session and its counterparty, even if they are the same account |
| `LogChunks.ExtremeTimestamp` | ignite-pay-core/src/log_chunk.rs:89-90 | the least or greatest timestamp: it occurs, and it bounds all others |
| `LogChunks.BuiltMetadata` | ignite-pay-core/src/log_chunk.rs:87-109 | a built chunk names its id and predecessor, carries the root of its entries, and its nonces and times are the first and last, the least and greatest |
| `LogChunks.BuiltIsSealed` | ignite-pay-core/src/log_chunk.rs:34-116 | a chunk is built exactly from entries that compress and seal; payload and tag are the nonce and the entries compressed and sealed under it with the chunk id as context |
| `LogChunks.DecryptBuild` | ignite-pay-core/src/log_chunk.rs:34-172 | opening a built chunk with its key gives the entries back in order |
| `LogChunks.AlteredChunkOpensIff` | ignite-pay-core/src/log_chunk.rs:117-172 | a built chunk whose root and clear metadata, all but the chunk id, are replaced opens to its entries exactly when the root is that of its entries |
| `LogChunks.RootCommitsToEntries` | ignite-pay-core/src/log_chunk.rs:154-169 | two chunks that open, under whatever keys, and carry one root hold the same transactions |
| `LogSync.UploadOnlyAdds` | ignite-pay-core/src/ipfs.rs:60-68 | an upload gets an identifier not in use, stores exactly the data there and changes nothing else |
| `LogSync.OpenEntryIff` | ignite-pay-core/src/log_sync.rs:126-154 | an entry is accepted exactly when its chunk is there, links to its predecessor, hashes to the recorded value and decrypts |
| `LogSync.ChunksMatch` | ignite-pay-core/src/log_sync.rs:129-148 | two intact chains with one last hash hold the same chunks, counted from the end |
| `LogSync.ShorterChainIsSuffix` | ignite-pay-core/src/log_sync.rs:126-157 | for chains of different lengths what the shorter one restores is the end of what the longer one restores |
| `LogSync.HashChainBinding` | ignite-pay-core/src/log_sync.rs:107-160 | two successful restores, from whatever stores and manifests, with one key, the same number of chunks and the same last chunk hash return the same list |
| `LogSync.OldestChunkCanBeDropped` | ignite-pay-core/src/log_sync.rs:129-142 | the number of chunks has to be compared: without its oldest entry a manifest still restores and keeps its last hash |
| `LogSyncRuns.SuccessRecorded` | ignite-pay-core/src/log_sync.rs:83-104 | after a successful sync in any history the manifest describes exactly the chunks of the successful syncs so far, the store holds them, the last under the answered chunk identifier, and the manifest is stored as it is |
| `LogSyncRuns.AnswersStayStored` | ignite-pay-core/src/log_sync.rs:83-104 | what a successful sync answered leads to its own chunk and to the manifest after it for the rest of the history |
| `LogSyncRuns.SyncRestore` | ignite-pay-core/src/log_sync.rs:83-160 | for every history of syncs, failed ones and other uploads among them, and any chunk ids: from the manifest of any successful sync restoring succeeds at the end exactly when the chain of the successful jobs so far is intact in id order, returns all their transactions by nonce, and reports a broken chain otherwise |
| `LogSyncRuns.RoundTrip` | ignite-pay-core/src/log_sync.rs:83-160 | with chunk ids in order: restore succeeds exactly when each successful job names the chunk before it; the result is a stable permutation by nonce, and the plain concatenation if the nonces were in order |
| `LogSyncRuns.OldManifestsStillRestore` | ignite-pay-core/src/log_sync.rs:83-160 | what restored once, from whatever manifest, restores to the same transactions after any later syncs and uploads |
| `LogSyncClient.MockIpfsClient.UploadData` | ignite-pay-core/src/ipfs.rs:60-68 | counter and store after an upload |
| `LogSyncClient.MockIpfsClient.DownloadData` | ignite-pay-core/src/ipfs.rs:70-76 | the stored data, or an error for an unknown identifier |
| `LogSyncClient.ManifestRecord.AddManifestEntry` | ignite-pay-core/src/log_sync.rs:56-71 | the manifest grows by one entry with the chunk's hash and root |
| `LogSyncClient.SyncChunkToIpfs` | ignite-pay-core/src/log_sync.rs:83-104 | answer, store and manifest after a sync, including what a failing sync leaves behind |
| `LogSyncClient.RestoreEntry` | ignite-pay-core/src/log_sync.rs:127-153 | the checks of one round of the loop, in their order |
| `LogSyncClient.RestoreAll` | ignite-pay-core/src/log_sync.rs:122-157 | the loop with its moving previous hash returns all transactions in manifest order, or the first error |
| `LogSyncClient.RestoreFromIpfs` | ignite-pay-core/src/log_sync.rs:107-160 | the whole restore flow meets its specification |
| `StableSort.SortByFacts` | ignite-pay-core/src/log_sync.rs:116-117 | sorting by a key gives a sorted permutation |
| `StableSort.SortByStable` | ignite-pay-core/src/log_sync.rs:157 | equal keys keep their order |
| `VoucherStore.KeyOrder` | ignite-pay-mcp/src/voucher_store.rs:58-62 | the 40-byte key determines channel and number, and its byte order is the order of channels, then of numbers |
| `VoucherStore.SortChangesNothing` | ignite-pay-mcp/src/voucher_store.rs:70-83 | the prefix scan already returns exactly the channel's vouchers in ascending number |
| `VoucherStore.OfChannelAscending` | ignite-pay-mcp/src/voucher_store.rs:70-83 | the numbers of one channel come out strictly increasing |
| `VoucherStore.NextNumberIsFresh` | ignite-pay-mcp/src/main.rs:446-452 | the key of the next number is taken exactly when the numbering wrapped past u64::MAX onto a voucher numbered 0 |
| `VoucherStore.StoringNewAddsAmount` | ignite-pay-mcp/src/voucher_store.rs:58-67 | storing adds the amount less what it replaces, and exactly the amount under a new key |
| `VoucherStore.Store.StoreVoucher` | ignite-pay-mcp/src/voucher_store.rs:58-67 | the tree with the voucher under its key, in key order |
| `VoucherStore.Store.GetVouchersForChannel` | ignite-pay-mcp/src/voucher_store.rs:70-83 | exactly the channel's vouchers, ascending |
| `VoucherStore.Store.TotalOutstanding` | ignite-pay-mcp/src/voucher_store.rs:86-95 | the exact sum of all amounts, cut off at u64::MAX |
| `VoucherIssuing.NextSeq` | ignite-pay-mcp/src/main.rs:446-452 | one more than the channel's last number, 1 for a new channel, 0 past u64::MAX |
| `VoucherIssuing.TryMbVoucherPayment` | ignite-pay-mcp/src/main.rs:405-488 | one call issues exactly when the new sum is within what is available or all of u64 is; the voucher holds channel, merchant, next number, amount and the signature of its own fields, is the only key that changes, and nothing changes otherwise |
| `VoucherIssuing.StepsAreIssue` | ignite-pay-mcp/src/main.rs:417-471 | the steps of one payment, taken in a row, are that call |
| `VoucherIssuing.ApplyKeepsInv` | ignite-pay-mcp/src/main.rs:2222-2256 | every step of every task keeps mutual exclusion and what the holder of the mutex has learned |
| `VoucherIssuing.VoucherSolvency` | ignite-pay-mcp/src/main.rs:405-488 | under every interleaving in which no capacity check saturates, the exact sum of stored vouchers stays within total_deposited - total_allocated and the saturating sum never saturates |
| `VoucherIssuing.IssuingIsExact` | ignite-pay-mcp/src/main.rs:446-474 | a stored voucher adds at most its amount; unless the numbering wrapped onto the first voucher its key is fresh and it adds exactly that; no other step touches the store |
| `VoucherContents.StoredAsAsked` | ignite-pay-mcp/src/main.rs:446-474 | under every interleaving a store step changes exactly the key of the asked channel and its next number, and puts there channel, merchant and amount as asked and the signature of this channel, number and amount |
| `VoucherContents.EveryVoucherIsSigned` | ignite-pay-mcp/src/main.rs:454-471 | with one signing key all stored vouchers are signed over their own fields in every state |
| `VoucherIssuing.IssuesIff` | ignite-pay-mcp/src/main.rs:428-436 | a call issues exactly when the new exact sum is within what is available, or all of u64 is |
| `VoucherIssuing.IssueSolventIff` | ignite-pay-mcp/src/main.rs:428-436 | one call stays within the vault exactly when less than all of u64 is available or the new sum, less what the voucher replaces, fits u64 |
| `VoucherIssuing.FullVaultCanBeOverdrawn` | ignite-pay-mcp/src/main.rs:428-436 | two payments that overdraw a vault with u64::MAX available |
| `AuditQuery.AuditLogStore.InsertEntry` | ignite-pay-mcp/src/audit.rs:138-145 | the tree with the entry under its time key |
| `AuditQuery.AuditLogStore.Query` | ignite-pay-mcp/src/audit.rs:115-136 | the loop with its breaks computes the early-exit scan |
| `AuditQuery.QueryCorrectIff` | ignite-pay-mcp/src/audit.rs:115-136 | for every range and limit the scan returns the first entries of the plain filter exactly when key order is time order |
| `AuditQuery.QueryCorrect` | ignite-pay-mcp/src/audit.rs:115-145 | with times of one decimal width it does, newest first |
| `AuditQuery.QueryAnswersLog` | ignite-pay-mcp/src/audit.rs:114-145 | whatever entries were inserted, with times of one width and identifiers that did not repeat, the query returns the first entries, up to its limit, of exactly the inserted entries of the range, newest first |
| `AuditQuery.SameWidthAscends` | ignite-pay-mcp/src/audit.rs:138-145 | fixed-width decimal keys order entries by time |
| `AuditQuery.MillisecondWidth` | ignite-pay-mcp/src/audit.rs:101 | millisecond times from 2001 to 2286 have one width |
| `AuditQuery.DifferentWidthsBreakQuery` | ignite-pay-mcp/src/audit.rs:115-145 | entries at times 9 and 10 for which the query misses an answer |
| `Pairing.HandlersAgreeIff` | ignite-pay-merchant-mcp/src/mediator.rs:673-997 | both handlers make the same transition on every state, sender and body exactly when the type is not ambiguous |
| `Pairing.EventEffect` | ignite-pay-merchant-mcp/src/mediator.rs:634-997 | what one message or restart can change, and that memory and database stay in agreement |
| `Pairing.MessageEffect` | ignite-pay-merchant-mcp/src/mediator.rs:673-997 | what a message of exactly one kind does in either handler, valid and bad signatures included, and that any other message does nothing |
| `Pairing.BadSignatureNeedsNewRequest` | ignite-pay-merchant-mcp/src/mediator.rs:807-812 | after a confirm with a bad signature whoever is paired later was named by a new request |
| `Pairing.PairedAfterHandshake` | ignite-pay-merchant-mcp/src/mediator.rs:697-829 | whoever is paired was named by a request first and later, while pending, by a confirm with a valid signature, over any messages and restarts |
| `Pairing.PairingIsFinal` | ignite-pay-merchant-mcp/src/mediator.rs:716-727 | once paired the phone never changes and nobody is pending, across restarts |
| `Pairing.OnlyUpdatesNamingThePhoneMoveAddress` | ignite-pay-merchant-mcp/src/mediator.rs:126-151 | once paired only a mediator-update naming that phone changes the stored address, in memory or in the database |
| `PairingAddress.AddressComesFrom` | ignite-pay-merchant-mcp/src/mediator.rs:752-758 | a stored address is the one in the last message that set it |
| `PairingAddress.AddressNamesPhoneIff` | ignite-pay-merchant-mcp/src/mediator.rs:752-758 | the address of a paired mediator was set by a message naming the paired phone exactly when that was so after the last request naming it, or an update set it after the pairing |
| `PairingAddress.AnotherPhonesAddress` | ignite-pay-merchant-mcp/src/mediator.rs:752-758 | three messages that pair one phone and store the address in another phone's request |
| `PairingAddress.AnyAuthorMovesAddress` | ignite-pay-merchant-mcp/src/mediator.rs:673-694 | in every paired state a plaintext update naming the paired phone moves the address, whoever wrote it |
| `PairingAddress.OnlyAuthorMovesAddressIff` | ignite-pay-merchant-mcp/src/mediator.rs:673-694 | for every set of frames that may arrive: only frames written by the paired phone move the address exactly when every update with an address names its author |
| `Pairing.MerchantMediator.constructor` | ignite-pay-merchant-mcp/src/mediator.rs:191-193 | a restart keeps the paired phone and the address and forgets the pending phone |
| `Pairing.MerchantMediator.ApplyPhoneMediatorUpdate` | ignite-pay-merchant-mcp/src/mediator.rs:126-151 | the address changes, in memory and in the database, exactly for the paired phone |
| `Pairing.MerchantMediator.ConnectionRequest` | ignite-pay-merchant-mcp/src/mediator.rs:716-758 | an unpaired mediator waits for the asking phone and saves its address; a paired one is unchanged |
| `Pairing.MerchantMediator.ConnectionConfirm` | ignite-pay-merchant-mcp/src/mediator.rs:793-825 | the pending phone with a valid signature is paired and saved; a bad signature clears the pending phone |
| `Pairing.MerchantMediator.HandlePlaintext` | ignite-pay-merchant-mcp/src/mediator.rs:673-829 | the plaintext branch meets its transition |
| `Pairing.MerchantMediator.ProcessInnerMessage` | ignite-pay-merchant-mcp/src/mediator.rs:838-997 | the encrypted branch meets its transition |
| `Pairing.MerchantMediator.HandleIncomingMessage` | ignite-pay-merchant-mcp/src/mediator.rs:634-835 | every frame, readable or not, is one step of a run |
| `OrderedTree.InsertKeepsOrder` | ignite-pay-mcp/src/voucher_store.rs:64 | inserting keeps the entries in byte order of their keys |
| `OrderedTree.InsertLookup` | ignite-pay-mcp/src/voucher_store.rs:64 | after inserting, the key holds the value and every other key what it held |
| `Bytes.BE64Order` | ignite-pay-mcp/src/voucher_store.rs:62 | the byte order of big-endian numbers is the numeric order |
| `Bytes.DecimalOrder` | ignite-pay-mcp/src/audit.rs:119-140 | the byte order of equally long decimal texts is the numeric order |

## Left out

- VoucherIssuing.VoucherSolvency: leaves out runs in which a capacity check saturates (all of u64 available, and a sum beyond u64), because there it is false; `VoucherIssuing.IssueSolventIff` gives the exact condition of one call. `mb_sign_voucher` is not a step.
- Whether the deposits are in the escrow: the program never checks it, and a transfer that cannot be covered fails.
- A framework check that refuses one writable token account passed twice in an instruction; the results do not depend on such calls being possible.
- Token accounts of wrapped SOL, whose lamports move with the balance, and owners that are multisignature accounts.
- The reserved space of the channel account, which bounds the number of claimed leaves, and the runtime's rent rule for accounts that keep too few lamports.
- The creation and addresses of derived accounts, bumps, account discriminators and Anchor's (de)serialization; a channel account and a session account are identified by the caller.
- LogSyncClient.MockIpfsClient.UploadData: a counter at u64::MAX is an error here, where a debug build panics and a release build wraps; the Kubo client and its HTTP interface are not modelled.
- `manifest_hash` and the manifest's own predecessor hash, which no function checks.
- Failing database reads, which the voucher code replaces by defaults, and failing writes.
- PaymentProof texts, spend records, session-balance checks and risk lists around a voucher payment: they do not change the voucher store.
- The panic on a nonce whose eighth byte lies inside a character (mediator.rs:790), replies to the phone, DID documents and peers.
- The other messages of the merchant mediator (payment notices, voucher and channel commands), and buyer-side pairing.
- WebSockets, HTTP, RPC, command-line and tool wrappers, QR codes and DID strings, the relayer, the hub registry, the DID program, list and order stores.
