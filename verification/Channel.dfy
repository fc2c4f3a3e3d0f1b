/** The state-channel settlement program (ignite-pay-program/src/lib.rs): account, errors and
    what each of its ten instructions does. */
module Channel {
  import opened Bytes
  import opened TokenLedger
  import MerkleProof
  import Introspection

  const LEAF_TYPE_HTLC: byte := 1
  const MAX_TREE_DEPTH: int := 12
  const RATIO_SCALE: int := 1_000_000

  datatype ChannelStatus = Open | Challenged | Settling | Closed

  datatype ChannelError =
    | InvalidSequence | PrevHashMismatch | InvalidSignature | LeafIndexOutOfBounds
    | ProofVerificationFailed | HtlcExpired | HtlcNotExpired | HashLockMismatch | InvalidOwner
    | AmountConservation | InvalidStatus | ChallengeNotElapsed | SettlementExpired
    | SettlementNotExpired | Unauthorized | AlreadyFunded | ZeroDeposit | AlreadyClaimed
    | AmountMismatch | InvalidLeafData | ArithmeticOverflow
      // Raised by the runtime or by Anchor, not by the program:
    | Panicked | AccountAlreadyInUse | AccountNotInitialized | TransferFailed

  datatype Outcome = Pass | Fail(error: ChannelError) {
    predicate IsFailure() { Fail? }
    function PropagateFailure<T>(): Result<T>
      requires Fail?
    {
      Err(error)
    }
  }

  datatype Result<+T> = Ok(value: T) | Err(error: ChannelError) {
    predicate IsFailure() { Err? }
    function PropagateFailure<U>(): Result<U>
      requires Err?
    {
      Err(error)
    }
    function Extract(): T
      requires Ok?
    {
      value
    }
  }

  function Need(condition: bool, error: ChannelError): Outcome
  {
    if condition then Pass else Fail(error)
  }

  datatype ChannelState = ChannelState(
    channelId: Digest, userPubkey: Pubkey, providerPubkey: Pubkey, tokenMint: Pubkey,
    status: ChannelStatus, sequence: u64, currentRoot: Digest, totalDeposited: u64,
    openSlot: u64, challengeSlot: Option<u64>, vaultA: Pubkey, vaultB: Pubkey,
    depositA: u64, depositB: u64, challengeDuration: u64, minChallengeDelay: u64,
    totalClaimed: u64, settleDeadline: Option<u64>, treeDepth: u32, leafCount: u32,
    claimedLeaves: seq<u32>, autoCloseSlot: Option<u64>)

  /** The channel account, if it was opened, and the token accounts. */
  datatype World = World(channel: Option<ChannelState>, ledger: Ledger)

  /** SHA-256, and the address of the escrow vault derived from the channel id. */
  datatype Program = Program(hash: MerkleProof.Hash, escrowOf: Digest -> Pubkey)

  /** The account passed as `instruction_sysvar`. The program reads its data and never its address. */
  datatype PassedAccount = PassedAccount(address: Pubkey, data: bytes)

  /** The clock's slot, the passed account, and the instructions of the transaction itself with the
      index of the current one, which the program sees only through the passed account. */
  datatype Env = Env(
    slot: u64, passed: PassedAccount, transaction: seq<Introspection.Instruction>, current: u16)

  datatype Leaf = Leaf(index: u32, amount: u64, owner: Pubkey, hash: Digest, proof: seq<Digest>, data: bytes)

  datatype Instruction =
    | OpenChannel(user: Pubkey, userAccount: Pubkey, provider: Pubkey, mint: Pubkey, openVaultA: Pubkey,
                  openVaultB: Pubkey, channelId: Digest, depositA: u64, treeDepth: u32, openSlot: u64,
                  challengeDuration: u64, minChallengeDelay: u64, initialRoot: Digest)
    | FundChannel(signer: Pubkey, sourceVault: Pubkey, fundVaultB: Pubkey, depositB: u64)
    | CooperativeSettle(sequence: u64, root: Digest, settleWindow: u64)
    | TriggerChallenge(challenger: Pubkey, submittedRoot: Digest, submittedSequence: u64)
    | SubmitCounterState(sequence: u64, root: Digest)
    | SettleAfterTimeout(settleWindow: u64)
    | Claim(claimer: Pubkey, vault: Pubkey, leaf: Leaf)
    | VerifyHtlc(claimer: Pubkey, vault: Pubkey, leaf: Leaf, preimage: Digest, hashLock: Digest, timelockSlot: u64)
    | HtlcRefund(claimer: Pubkey, vault: Pubkey, leaf: Leaf, timelockSlot: u64)
    | FinalizeSettlement(caller: Pubkey, refundVaultA: Pubkey, refundVaultB: Pubkey)

  // ----- Messages and their acceptance -----

  function LE64(n: u64): bytes
  {
    ToLE(n, 8)
  }

  /** channel id, a number, a root: the message of every instruction but the first. */
  function StateMessage(channelId: Digest, n: u64, root: Digest): bytes
  {
    channelId + LE64(n) + root
  }

  function OpenMessage(channelId: Digest, depositA: u64, treeDepth: u32, root: Digest): bytes
  {
    channelId + LE64(depositA) + ToLE(treeDepth, 4) + root
  }

  /** The walk over the given account data accepts `key` and `message`. */
  predicate Accepted(data: bytes, key: Pubkey, message: bytes)
  {
    var current := Introspection.ReadCurrentIxIndex(data);
    current.Some? && Introspection.Verified(data, key, message, current.value)
  }

  /** The message binds channel, number and root. */
  lemma StateMessageInjective(id: Digest, n: u64, root: Digest, id': Digest, n': u64, root': Digest)
    requires StateMessage(id, n, root) == StateMessage(id', n', root')
    ensures id == id' && n == n' && root == root'
  {
    var (m, m') := (StateMessage(id, n, root), StateMessage(id', n', root'));
    assert m[..32] == id && m'[..32] == id';
    assert m[32..40] == LE64(n) && m'[32..40] == LE64(n');
    assert m[40..] == root && m'[40..] == root';
    LE64Injective(n, n');
  }

  /** The signed texts, byte by byte: channel id, a number of eight bytes in little-endian order, root. */
  lemma StateMessageLayout(id: Digest, n: u64, root: Digest)
    ensures
      var m := StateMessage(id, n, root);
      |m| == 72 && m[..32] == id && FromLE(m[32..40]) == n && m[40..] == root
  {
    var m := StateMessage(id, n, root);
    assert m[..32] == id && m[32..40] == LE64(n) && m[40..] == root;
    LE64Iff(m[32..40], n);
  }

  /** Channel id, deposit, a depth of four bytes in little-endian order, root; in this length no other message. */
  lemma OpenMessageLayout(id: Digest, depositA: u64, treeDepth: u32, root: Digest)
    ensures
      var m := OpenMessage(id, depositA, treeDepth, root);
      && |m| == 76 && m[..32] == id && FromLE(m[32..40]) == depositA
      && FromLE(m[40..44]) == treeDepth && m[44..] == root
  {
    var m := OpenMessage(id, depositA, treeDepth, root);
    assert m[..32] == id && m[32..40] == LE64(depositA) && m[40..44] == ToLE(treeDepth, 4) && m[44..] == root;
    LE64Iff(m[32..40], depositA);
    LE32Iff(m[40..44], treeDepth);
  }

  // ----- Instructions 1 to 6 -----

  function OpenGuard(w: World, env: Env, ix: Instruction): Outcome
    requires ix.OpenChannel?
  {
    if w.channel.Some? then Fail(AccountAlreadyInUse)
    else if ix.user != ix.userAccount then Fail(Unauthorized)
    else if ix.openVaultA !in w.ledger.accounts then Fail(AccountNotInitialized)
    else if w.ledger.accounts[ix.openVaultA].mint != ix.mint then Fail(InvalidOwner)
    else if ix.openVaultB !in w.ledger.accounts then Fail(AccountNotInitialized)
    else if w.ledger.accounts[ix.openVaultB].mint != ix.mint then Fail(InvalidOwner)
    else if ix.treeDepth > MAX_TREE_DEPTH then Fail(LeafIndexOutOfBounds)
    else Need(ix.depositA > 0, ZeroDeposit)
  }

  function DoOpen(w: World, env: Env, ix: Instruction): Result<World>
    requires ix.OpenChannel?
  {
    var guard := OpenGuard(w, env, ix);
    :- guard;
    var message := OpenMessage(ix.channelId, ix.depositA, ix.treeDepth, ix.initialRoot);
    :- Need(Accepted(env.passed.data, ix.user, message), InvalidSignature);
    var c := ChannelState(
      ix.channelId, ix.user, ix.provider, ix.mint, Open, 0, ix.initialRoot, ix.depositA,
      ix.openSlot, None, ix.openVaultA, ix.openVaultB, ix.depositA, 0, ix.challengeDuration,
      ix.minChallengeDelay, 0, None, ix.treeDepth, 1, [], None);
    Ok(w.(channel := Some(c)))
  }

  function FundGuard(c: ChannelState, l: Ledger, ix: Instruction): Outcome
    requires ix.FundChannel?
  {
    if c.status != Open then Fail(InvalidStatus)
    else if c.depositB != 0 then Fail(AlreadyFunded)
    else if ix.signer != c.providerPubkey then Fail(Unauthorized)
    else if ix.sourceVault !in l.accounts || ix.fundVaultB !in l.accounts then Fail(AccountNotInitialized)
    else if ix.fundVaultB != c.vaultB then Fail(InvalidOwner)
    else Need(ix.depositB > 0, ZeroDeposit)
  }

  function DoFund(c: ChannelState, l: Ledger, ix: Instruction): Result<World>
    requires ix.FundChannel?
  {
    var guard := FundGuard(c, l, ix);
    :- guard;
    :- Need(CanTransfer(l, ix.sourceVault, ix.fundVaultB, ix.signer, ix.depositB), TransferFailed);
    :- Need(c.totalDeposited + ix.depositB <= U64_MAX, ArithmeticOverflow);
    :- Need(c.leafCount + 1 <= U32_MAX, ArithmeticOverflow);
    var c' := c.(depositB := ix.depositB, totalDeposited := c.totalDeposited + ix.depositB, leafCount := c.leafCount + 1);
    Ok(World(Some(c'), AfterTransfer(l, ix.sourceVault, ix.fundVaultB, ix.signer, ix.depositB)))
  }

  /** The walk accepts both parties with one message. */
  function AcceptBoth(data: bytes, c: ChannelState, message: bytes): Outcome
  {
    Need(Accepted(data, c.userPubkey, message) && Accepted(data, c.providerPubkey, message), InvalidSignature)
  }

  /** Settling until `window` slots from now. */
  function EnterSettling(c: ChannelState, l: Ledger, slot: u64, window: u64): Result<World>
  {
    if slot + window > U64_MAX then Err(Panicked) else
    var deadline: u64 := slot + window;
    Ok(World(Some(c.(status := Settling, settleDeadline := Some(deadline))), l))
  }

  function CooperativeGuard(c: ChannelState, env: Env, ix: Instruction): Outcome
    requires ix.CooperativeSettle?
  {
    if c.status != Open then Fail(InvalidStatus)
    else if ix.sequence < c.sequence then Fail(InvalidSequence)
    else if ix.root != c.currentRoot then Fail(PrevHashMismatch)
    else AcceptBoth(env.passed.data, c, StateMessage(c.channelId, ix.sequence, ix.root))
  }

  function DoCooperativeSettle(c: ChannelState, l: Ledger, env: Env, ix: Instruction): Result<World>
    requires ix.CooperativeSettle?
  {
    var guard := CooperativeGuard(c, env, ix);
    :- guard;
    EnterSettling(c, l, env.slot, ix.settleWindow)
  }

  function ChallengeGuard(c: ChannelState, env: Env, ix: Instruction): Outcome
    requires ix.TriggerChallenge?
  {
    if c.status != Open then Fail(InvalidStatus)
    else if ix.challenger != c.userPubkey && ix.challenger != c.providerPubkey then Fail(Unauthorized)
    else if c.openSlot + c.minChallengeDelay > U64_MAX then Fail(Panicked)
    else if env.slot < c.openSlot + c.minChallengeDelay then Fail(ChallengeNotElapsed)
    else if ix.submittedSequence <= c.sequence then Fail(InvalidSequence)
    else Need(Accepted(env.passed.data, ix.challenger, StateMessage(c.channelId, env.slot, ix.submittedRoot)), InvalidSignature)
  }

  function DoTriggerChallenge(c: ChannelState, l: Ledger, env: Env, ix: Instruction): Result<World>
    requires ix.TriggerChallenge?
  {
    var guard := ChallengeGuard(c, env, ix);
    :- guard;
    var c' := c.(status := Challenged, challengeSlot := Some(env.slot),
                 currentRoot := ix.submittedRoot, sequence := ix.submittedSequence);
    Ok(World(Some(c'), l))
  }

  function CounterStateGuard(c: ChannelState, env: Env, ix: Instruction): Outcome
    requires ix.SubmitCounterState?
  {
    if c.status != Challenged then Fail(InvalidStatus)
    else if ix.sequence <= c.sequence then Fail(InvalidSequence)
    else AcceptBoth(env.passed.data, c, StateMessage(c.channelId, ix.sequence, ix.root))
  }

  function DoSubmitCounterState(c: ChannelState, l: Ledger, env: Env, ix: Instruction): Result<World>
    requires ix.SubmitCounterState?
  {
    var guard := CounterStateGuard(c, env, ix);
    :- guard;
    Ok(World(Some(c.(sequence := ix.sequence, currentRoot := ix.root)), l))
  }

  /** The time gate of settling after a timeout. */
  function TimeoutGate(c: ChannelState, slot: u64): Outcome
  {
    if c.status == Open then
      if c.autoCloseSlot.None? then Fail(InvalidStatus)
      else Need(slot >= c.autoCloseSlot.value, ChallengeNotElapsed)
    else if c.challengeSlot.None? then Fail(InvalidStatus)
    else if c.challengeSlot.value + c.challengeDuration > U64_MAX then Fail(Panicked)
    else Need(slot > c.challengeSlot.value + c.challengeDuration, ChallengeNotElapsed)
  }

  function DoSettleAfterTimeout(c: ChannelState, l: Ledger, env: Env, ix: Instruction): Result<World>
    requires ix.SettleAfterTimeout?
  {
    if c.status != Challenged && !(c.status == Open && c.autoCloseSlot.Some?) then Err(InvalidStatus) else
    :- TimeoutGate(c, env.slot);
    EnterSettling(c, l, env.slot, ix.settleWindow)
  }

  // ----- Instructions 7 to 9: paying out leaves -----

  /** The amount written in bytes 33 to 41 of the leaf data. */
  function LeafAmount(data: bytes): nat
    requires |data| >= 41
  {
    FromLE(data[33..41])
  }

  /** The checks shared by all three payouts on the accounts and on whoever asks. */
  function PayoutAccounts(c: ChannelState, l: Ledger, claimer: Pubkey, vault: Pubkey): Outcome
  {
    if claimer != c.userPubkey && claimer != c.providerPubkey then Fail(Unauthorized)
    else Need(vault in l.accounts, AccountNotInitialized)
  }

  function CheckLeafData(p: Program, leaf: Leaf): Outcome
  {
    if p.hash(leaf.data) != leaf.hash then Fail(InvalidLeafData)
    else if |leaf.data| < 41 then Fail(InvalidLeafData)
    else Need(LeafAmount(leaf.data) == leaf.amount, AmountMismatch)
  }

  /** HTLC leaves also carry their type in byte 0 and their owner in bytes 1 to 33. */
  function CheckHtlcLeafData(p: Program, leaf: Leaf): Outcome
  {
    if p.hash(leaf.data) != leaf.hash then Fail(InvalidLeafData)
    else if |leaf.data| < 41 then Fail(InvalidLeafData)
    else if leaf.data[0] != LEAF_TYPE_HTLC then Fail(InvalidLeafData)
    else if LeafAmount(leaf.data) != leaf.amount then Fail(AmountMismatch)
    else Need(leaf.data[1..33] == leaf.owner, InvalidLeafData)
  }

  /** Proof of the leaf under the current root, and acceptance of the claimer with slot and root. */
  function CheckProof(p: Program, c: ChannelState, env: Env, claimer: Pubkey, leaf: Leaf): Outcome
  {
    if MerkleProof.Fold(p.hash, leaf.hash, leaf.proof) != c.currentRoot then Fail(ProofVerificationFailed)
    else Need(Accepted(env.passed.data, claimer, StateMessage(c.channelId, env.slot, c.currentRoot)), InvalidSignature)
  }

  /** The effect of a payout: counters, claimed set, transfer out of escrow. */
  function Payout(p: Program, c: ChannelState, l: Ledger, vault: Pubkey, leaf: Leaf): Result<World>
  {
    if c.totalClaimed + leaf.amount > U64_MAX then Err(ArithmeticOverflow) else
    :- Need(c.totalClaimed + leaf.amount <= c.totalDeposited, AmountConservation);
    var c' := c.(totalClaimed := c.totalClaimed + leaf.amount, claimedLeaves := c.claimedLeaves + [leaf.index]);
    var escrow := p.escrowOf(c.channelId);
    if leaf.amount == 0 then Ok(World(Some(c'), l)) else
    :- Need(CanTransfer(l, escrow, vault, escrow, leaf.amount), TransferFailed);
    Ok(World(Some(c'), AfterTransfer(l, escrow, vault, escrow, leaf.amount)))
  }

  function DoClaim(p: Program, c: ChannelState, l: Ledger, env: Env, ix: Instruction): Result<World>
    requires ix.Claim?
  {
    if c.status != Settling then Err(InvalidStatus) else
    :- PayoutAccounts(c, l, ix.claimer, ix.vault);
    :- Need(c.settleDeadline.Some?, InvalidStatus);
    :- Need(env.slot <= c.settleDeadline.value, SettlementExpired);
    :- Need(ix.claimer == ix.leaf.owner, InvalidOwner);
    :- Need(ix.leaf.index !in c.claimedLeaves, AlreadyClaimed);
    :- CheckLeafData(p, ix.leaf);
    :- CheckProof(p, c, env, ix.claimer, ix.leaf);
    Payout(p, c, l, ix.vault, ix.leaf)
  }

  /** The time gate of HTLC claims and refunds. */
  function HtlcGate(c: ChannelState, slot: u64): Outcome
  {
    if c.status == Challenged then
      if c.challengeSlot.None? then Fail(InvalidStatus)
      else if c.challengeSlot.value + c.challengeDuration > U64_MAX then Fail(ArithmeticOverflow)
      else Need(slot <= c.challengeSlot.value + c.challengeDuration, SettlementExpired)
    else if c.settleDeadline.None? then Fail(InvalidStatus)
    else Need(slot <= c.settleDeadline.value, SettlementExpired)
  }

  function DoVerifyHtlc(p: Program, c: ChannelState, l: Ledger, env: Env, ix: Instruction): Result<World>
    requires ix.VerifyHtlc?
  {
    if c.status != Challenged && c.status != Settling then Err(InvalidStatus) else
    :- PayoutAccounts(c, l, ix.claimer, ix.vault);
    :- HtlcGate(c, env.slot);
    :- Need(ix.claimer == ix.leaf.owner, InvalidOwner);
    :- Need(ix.leaf.index !in c.claimedLeaves, AlreadyClaimed);
    :- CheckHtlcLeafData(p, ix.leaf);
    :- Need(p.hash(ix.preimage) == ix.hashLock, HashLockMismatch);
    :- Need(env.slot <= ix.timelockSlot, HtlcExpired);
    :- CheckProof(p, c, env, ix.claimer, ix.leaf);
    Payout(p, c, l, ix.vault, ix.leaf)
  }

  function DoHtlcRefund(p: Program, c: ChannelState, l: Ledger, env: Env, ix: Instruction): Result<World>
    requires ix.HtlcRefund?
  {
    if c.status != Challenged && c.status != Settling then Err(InvalidStatus) else
    :- PayoutAccounts(c, l, ix.claimer, ix.vault);
    :- HtlcGate(c, env.slot);
    :- Need(ix.claimer == ix.leaf.owner, InvalidOwner);
    :- Need(ix.leaf.index !in c.claimedLeaves, AlreadyClaimed);
    :- CheckHtlcLeafData(p, ix.leaf);
    :- Need(env.slot > ix.timelockSlot, HtlcNotExpired);
    :- CheckProof(p, c, env, ix.claimer, ix.leaf);
    Payout(p, c, l, ix.vault, ix.leaf)
  }

  // ----- Instruction 10: final refund -----

  /** depositA in millionths of the total, rounded down. */
  function RatioA(depositA: nat, total: nat): nat
    requires total > 0
  {
    depositA * RATIO_SCALE / total
  }

  function RefundA(unclaimed: nat, depositA: nat, total: nat): nat
    requires total > 0
  {
    unclaimed * RatioA(depositA, total) / RATIO_SCALE
  }

  /** The u128 products and the cast to u64 of the refund computation; the cast truncates. */
  function CheckedRefunds(unclaimed: u64, depositA: u64, depositB: u64): Result<(u64, u64)>
  {
    if depositA + depositB > U64_MAX then Err(ArithmeticOverflow) else
    var total := depositA + depositB;
    if total == 0 then Ok((0, 0)) else
    :- Need(depositA * RATIO_SCALE <= U128_MAX, ArithmeticOverflow);
    var ratio: nat := RatioA(depositA, total);
    :- Need(unclaimed * ratio <= U128_MAX, ArithmeticOverflow);
    var refundA: u64 := RefundA(unclaimed, depositA, total) % (U64_MAX + 1);
    :- Need(refundA <= unclaimed, ArithmeticOverflow);
    Ok((refundA, unclaimed - refundA))
  }

  function SendIfPositive(l: Ledger, escrow: Pubkey, vault: Pubkey, amount: u64): Result<Ledger>
  {
    if amount == 0 then Ok(l) else
    :- Need(CanTransfer(l, escrow, vault, escrow, amount), TransferFailed);
    Ok(AfterTransfer(l, escrow, vault, escrow, amount))
  }

  function FinalizeGuard(c: ChannelState, l: Ledger, env: Env, ix: Instruction): Outcome
    requires ix.FinalizeSettlement?
  {
    if c.status != Settling then Fail(InvalidStatus)
    else if ix.caller != c.userPubkey && ix.caller != c.providerPubkey then Fail(Unauthorized)
    else if ix.refundVaultA !in l.accounts || ix.refundVaultB !in l.accounts then Fail(AccountNotInitialized)
    else if c.settleDeadline.None? then Fail(InvalidStatus)
    else if env.slot < c.settleDeadline.value then Fail(SettlementNotExpired)
    else if !Accepted(env.passed.data, ix.caller, StateMessage(c.channelId, env.slot, c.currentRoot)) then Fail(InvalidSignature)
    else Need(c.totalClaimed <= c.totalDeposited, ArithmeticOverflow)
  }

  function SendBoth(l: Ledger, escrow: Pubkey, vaultA: Pubkey, a: u64, vaultB: Pubkey, b: u64): Result<Ledger>
  {
    var first := SendIfPositive(l, escrow, vaultA, a);
    if first.Err? then first else SendIfPositive(first.value, escrow, vaultB, b)
  }

  /** The two refund transfers. */
  function SendRefunds(l: Ledger, escrow: Pubkey, unclaimed: u64, c: ChannelState, ix: Instruction): Result<Ledger>
    requires ix.FinalizeSettlement?
  {
    if unclaimed == 0 then Ok(l)
    else
      var refunds := CheckedRefunds(unclaimed, c.depositA, c.depositB);
      if refunds.Err? then Err(refunds.error)
      else SendBoth(l, escrow, ix.refundVaultA, refunds.value.0, ix.refundVaultB, refunds.value.1)
  }

  /** Closed, if the refunds were sent. */
  function Close(c: ChannelState, sent: Result<Ledger>): Result<World>
  {
    if sent.Err? then Err(sent.error) else Ok(World(Some(c.(status := Closed)), sent.value))
  }

  function DoFinalize(p: Program, c: ChannelState, l: Ledger, env: Env, ix: Instruction): Result<World>
    requires ix.FinalizeSettlement?
  {
    var guard := FinalizeGuard(c, l, env, ix);
    if guard.Fail? then Err(guard.error)
    else Close(c, SendRefunds(l, p.escrowOf(c.channelId), c.totalDeposited - c.totalClaimed, c, ix))
  }

  // ----- One instruction -----

  function Exec(p: Program, w: World, env: Env, ix: Instruction): Result<World>
  {
    if ix.OpenChannel? then DoOpen(w, env, ix) else
    :- Need(w.channel.Some?, AccountNotInitialized);
    var (c, l) := (w.channel.value, w.ledger);
    match ix
    case FundChannel(_, _, _, _) => DoFund(c, l, ix)
    case CooperativeSettle(_, _, _) => DoCooperativeSettle(c, l, env, ix)
    case TriggerChallenge(_, _, _) => DoTriggerChallenge(c, l, env, ix)
    case SubmitCounterState(_, _) => DoSubmitCounterState(c, l, env, ix)
    case SettleAfterTimeout(_) => DoSettleAfterTimeout(c, l, env, ix)
    case Claim(_, _, _) => DoClaim(p, c, l, env, ix)
    case VerifyHtlc(_, _, _, _, _, _) => DoVerifyHtlc(p, c, l, env, ix)
    case HtlcRefund(_, _, _, _) => DoHtlcRefund(p, c, l, env, ix)
    case FinalizeSettlement(_, _, _) => DoFinalize(p, c, l, env, ix)
  }
}
