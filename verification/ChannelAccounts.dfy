/** The channel account as the program updates it: one method per instruction, each proved equal
    to its specification in module Channel, and the runtime that reverts failed instructions. */
module ChannelAccounts {
  import opened Bytes
  import opened TokenLedger
  import opened Channel
  import opened ChannelRuns
  import Introspection
  import MerkleProof

  class ChannelAccount {
    var initialized: bool
    var channelId: Digest
    var userPubkey: Pubkey
    var providerPubkey: Pubkey
    var tokenMint: Pubkey
    var status: ChannelStatus
    var sequence: u64
    var currentRoot: Digest
    var totalDeposited: u64
    var openSlot: u64
    var challengeSlot: Option<u64>
    var vaultA: Pubkey
    var vaultB: Pubkey
    var depositA: u64
    var depositB: u64
    var challengeDuration: u64
    var minChallengeDelay: u64
    var totalClaimed: u64
    var settleDeadline: Option<u64>
    var treeDepth: u32
    var leafCount: u32
    var claimedLeaves: seq<u32>
    var autoCloseSlot: Option<u64>

    function State(): ChannelState
      reads this
    {
      ChannelState(channelId, userPubkey, providerPubkey, tokenMint, status, sequence, currentRoot,
                   totalDeposited, openSlot, challengeSlot, vaultA, vaultB, depositA, depositB,
                   challengeDuration, minChallengeDelay, totalClaimed, settleDeadline, treeDepth,
                   leafCount, claimedLeaves, autoCloseSlot)
    }

    function View(): Option<ChannelState>
      reads this
    {
      if initialized then Some(State()) else None
    }

    /** The account and the token accounts are in the state `spec` prescribes, or `r` is its error. */
    ghost predicate Meets(token: TokenProgram, spec: Result<World>, r: Outcome)
      reads this, token
    {
      match spec
      case Ok(w) => r == Pass && World(View(), token.View()) == w
      case Err(e) => r == Fail(e)
    }

    /** Introspection of the passed account for one key and message. */
    method VerifyIntrospection(data: bytes, key: Pubkey, message: bytes) returns (ok: bool)
      ensures ok == Accepted(data, key, message)
    {
      var currentIx := Introspection.ReadCurrentIxIndex(data);
      if currentIx.None? {
        return false;
      }
      ok := Introspection.VerifyEd25519(data, key, message, currentIx.value);
    }

    /** The fields fixed when the channel opens. */
    method StoreTerms(s: ChannelState)
      modifies this`channelId, this`userPubkey, this`providerPubkey, this`tokenMint, this`openSlot, this`vaultA
      modifies this`vaultB, this`depositA, this`challengeDuration, this`minChallengeDelay, this`treeDepth
      ensures channelId == s.channelId && userPubkey == s.userPubkey && providerPubkey == s.providerPubkey
      ensures tokenMint == s.tokenMint && openSlot == s.openSlot && vaultA == s.vaultA && vaultB == s.vaultB
      ensures depositA == s.depositA && challengeDuration == s.challengeDuration
      ensures minChallengeDelay == s.minChallengeDelay && treeDepth == s.treeDepth
    {
      channelId := s.channelId;
      userPubkey := s.userPubkey;
      providerPubkey := s.providerPubkey;
      tokenMint := s.tokenMint;
      openSlot := s.openSlot;
      vaultA := s.vaultA;
      vaultB := s.vaultB;
      depositA := s.depositA;
      challengeDuration := s.challengeDuration;
      minChallengeDelay := s.minChallengeDelay;
      treeDepth := s.treeDepth;
    }

    /** The fields later instructions change. */
    method StoreProgress(s: ChannelState)
      modifies this`status, this`sequence, this`currentRoot, this`totalDeposited, this`challengeSlot, this`depositB
      modifies this`totalClaimed, this`settleDeadline, this`leafCount, this`claimedLeaves, this`autoCloseSlot
      ensures status == s.status && sequence == s.sequence && currentRoot == s.currentRoot
      ensures totalDeposited == s.totalDeposited && challengeSlot == s.challengeSlot && depositB == s.depositB
      ensures totalClaimed == s.totalClaimed && settleDeadline == s.settleDeadline && leafCount == s.leafCount
      ensures claimedLeaves == s.claimedLeaves && autoCloseSlot == s.autoCloseSlot
    {
      status := s.status;
      sequence := s.sequence;
      currentRoot := s.currentRoot;
      totalDeposited := s.totalDeposited;
      challengeSlot := s.challengeSlot;
      depositB := s.depositB;
      totalClaimed := s.totalClaimed;
      settleDeadline := s.settleDeadline;
      leafCount := s.leafCount;
      claimedLeaves := s.claimedLeaves;
      autoCloseSlot := s.autoCloseSlot;
    }

    method StoreState(s: ChannelState)
      modifies this
      ensures State() == s && initialized == old(initialized)
    {
      StoreTerms(s);
      StoreProgress(s);
    }

    method Store(c: Option<ChannelState>)
      modifies this
      ensures View() == c
    {
      if c.Some? {
        StoreState(c.value);
      }
      initialized := c.Some?;
    }

    method CheckOpen(token: TokenProgram, env: Env, ix: Instruction) returns (r: Outcome)
      requires ix.OpenChannel?
      ensures r == OpenGuard(World(View(), token.View()), env, ix)
    {
      if initialized {
        return Fail(AccountAlreadyInUse);
      }
      if ix.user != ix.userAccount {
        return Fail(Unauthorized);
      }
      if ix.openVaultA !in token.accounts {
        return Fail(AccountNotInitialized);
      }
      if token.accounts[ix.openVaultA].mint != ix.mint {
        return Fail(InvalidOwner);
      }
      if ix.openVaultB !in token.accounts {
        return Fail(AccountNotInitialized);
      }
      if token.accounts[ix.openVaultB].mint != ix.mint {
        return Fail(InvalidOwner);
      }
      if ix.treeDepth > MAX_TREE_DEPTH {
        return Fail(LeafIndexOutOfBounds);
      }
      if ix.depositA == 0 {
        return Fail(ZeroDeposit);
      }
      r := Pass;
    }

    method OpenChannel(token: TokenProgram, env: Env, ix: Instruction) returns (r: Outcome)
      requires ix.OpenChannel?
      modifies this
      ensures Meets(token, DoOpen(old(World(View(), token.View())), env, ix), r)
    {
      r := CheckOpen(token, env, ix);
      if r.Fail? {
        return;
      }
      var created := ChannelState(
        ix.channelId, ix.user, ix.provider, ix.mint, Open, 0, ix.initialRoot, ix.depositA,
        ix.openSlot, None, ix.openVaultA, ix.openVaultB, ix.depositA, 0, ix.challengeDuration,
        ix.minChallengeDelay, 0, None, ix.treeDepth, 1, [], None);
      Store(Some(created));
      var message := OpenMessage(ix.channelId, ix.depositA, ix.treeDepth, ix.initialRoot);
      var accepted := VerifyIntrospection(env.passed.data, ix.user, message);
      r := if accepted then Pass else Fail(InvalidSignature);
    }

    method CheckFund(token: TokenProgram, ix: Instruction) returns (r: Outcome)
      requires ix.FundChannel?
      ensures r == FundGuard(State(), token.View(), ix)
    {
      if status != Open {
        return Fail(InvalidStatus);
      }
      if depositB != 0 {
        return Fail(AlreadyFunded);
      }
      if ix.signer != providerPubkey {
        return Fail(Unauthorized);
      }
      if ix.sourceVault !in token.accounts || ix.fundVaultB !in token.accounts {
        return Fail(AccountNotInitialized);
      }
      if ix.fundVaultB != vaultB {
        return Fail(InvalidOwner);
      }
      if ix.depositB == 0 {
        return Fail(ZeroDeposit);
      }
      r := Pass;
    }

    method FundChannel(token: TokenProgram, ix: Instruction) returns (r: Outcome)
      requires ix.FundChannel? && initialized
      modifies this, token
      ensures Meets(token, DoFund(old(State()), old(token.View()), ix), r)
    {
      r := CheckFund(token, ix);
      if r.Fail? {
        return;
      }
      var sent := token.Transfer(ix.sourceVault, ix.fundVaultB, ix.signer, ix.depositB);
      if !sent {
        return Fail(TransferFailed);
      }
      depositB := ix.depositB;
      if totalDeposited + ix.depositB > U64_MAX {
        return Fail(ArithmeticOverflow);
      }
      totalDeposited := totalDeposited + ix.depositB;
      if leafCount + 1 > U32_MAX {
        return Fail(ArithmeticOverflow);
      }
      leafCount := leafCount + 1;
      r := Pass;
    }

    /** Introspection for both parties with one message. */
    method VerifyBoth(data: bytes, message: bytes) returns (r: Outcome)
      ensures r == AcceptBoth(data, State(), message)
    {
      var byUser := VerifyIntrospection(data, userPubkey, message);
      if !byUser {
        return Fail(InvalidSignature);
      }
      var byProvider := VerifyIntrospection(data, providerPubkey, message);
      r := if byProvider then Pass else Fail(InvalidSignature);
    }

    method StartSettling(token: TokenProgram, slot: u64, window: u64) returns (r: Outcome)
      requires initialized
      modifies this
      ensures Meets(token, EnterSettling(old(State()), old(token.View()), slot, window), r)
    {
      status := Settling;
      if slot + window > U64_MAX {
        return Fail(Panicked);
      }
      var deadline: u64 := slot + window;
      settleDeadline := Some(deadline);
      r := Pass;
    }

    method CheckCooperative(env: Env, ix: Instruction) returns (r: Outcome)
      requires ix.CooperativeSettle?
      ensures r == CooperativeGuard(State(), env, ix)
    {
      if status != Open {
        return Fail(InvalidStatus);
      }
      if ix.sequence < sequence {
        return Fail(InvalidSequence);
      }
      if ix.root != currentRoot {
        return Fail(PrevHashMismatch);
      }
      r := VerifyBoth(env.passed.data, StateMessage(channelId, ix.sequence, ix.root));
    }

    method CooperativeSettle(token: TokenProgram, env: Env, ix: Instruction) returns (r: Outcome)
      requires ix.CooperativeSettle? && initialized
      modifies this
      ensures Meets(token, DoCooperativeSettle(old(State()), old(token.View()), env, ix), r)
    {
      r := CheckCooperative(env, ix);
      if r.Fail? {
        return;
      }
      r := StartSettling(token, env.slot, ix.settleWindow);
    }

    method CheckChallenge(env: Env, ix: Instruction) returns (r: Outcome)
      requires ix.TriggerChallenge?
      ensures r == ChallengeGuard(State(), env, ix)
    {
      if status != Open {
        return Fail(InvalidStatus);
      }
      if ix.challenger != userPubkey && ix.challenger != providerPubkey {
        return Fail(Unauthorized);
      }
      if openSlot + minChallengeDelay > U64_MAX {
        return Fail(Panicked);
      }
      var minSlot := openSlot + minChallengeDelay;
      if env.slot < minSlot {
        return Fail(ChallengeNotElapsed);
      }
      if ix.submittedSequence <= sequence {
        return Fail(InvalidSequence);
      }
      var accepted := VerifyIntrospection(env.passed.data, ix.challenger, StateMessage(channelId, env.slot, ix.submittedRoot));
      r := if accepted then Pass else Fail(InvalidSignature);
    }

    method TriggerChallenge(token: TokenProgram, env: Env, ix: Instruction) returns (r: Outcome)
      requires ix.TriggerChallenge? && initialized
      modifies this
      ensures Meets(token, DoTriggerChallenge(old(State()), old(token.View()), env, ix), r)
    {
      r := CheckChallenge(env, ix);
      if r.Fail? {
        return;
      }
      status := Challenged;
      challengeSlot := Some(env.slot);
      currentRoot := ix.submittedRoot;
      sequence := ix.submittedSequence;
      r := Pass;
    }

    method CheckCounterState(env: Env, ix: Instruction) returns (r: Outcome)
      requires ix.SubmitCounterState?
      ensures r == CounterStateGuard(State(), env, ix)
    {
      if status != Challenged {
        return Fail(InvalidStatus);
      }
      if ix.sequence <= sequence {
        return Fail(InvalidSequence);
      }
      r := VerifyBoth(env.passed.data, StateMessage(channelId, ix.sequence, ix.root));
    }

    method SubmitCounterState(token: TokenProgram, env: Env, ix: Instruction) returns (r: Outcome)
      requires ix.SubmitCounterState? && initialized
      modifies this
      ensures Meets(token, DoSubmitCounterState(old(State()), old(token.View()), env, ix), r)
    {
      r := CheckCounterState(env, ix);
      if r.Fail? {
        return;
      }
      sequence := ix.sequence;
      currentRoot := ix.root;
      r := Pass;
    }

    method SettleAfterTimeout(token: TokenProgram, env: Env, ix: Instruction) returns (r: Outcome)
      requires ix.SettleAfterTimeout? && initialized
      modifies this
      ensures Meets(token, DoSettleAfterTimeout(old(State()), old(token.View()), env, ix), r)
    {
      if status != Challenged && !(status == Open && autoCloseSlot.Some?) {
        return Fail(InvalidStatus);
      }
      if status == Open {
        if env.slot < autoCloseSlot.value {
          return Fail(ChallengeNotElapsed);
        }
      } else {
        if challengeSlot.None? {
          return Fail(InvalidStatus);
        }
        if challengeSlot.value + challengeDuration > U64_MAX {
          return Fail(Panicked);
        }
        if env.slot <= challengeSlot.value + challengeDuration {
          return Fail(ChallengeNotElapsed);
        }
      }
      r := StartSettling(token, env.slot, ix.settleWindow);
    }

    /** Merkle proof under the current root, then introspection for the claimer. */
    method VerifyLeaf(p: Program, env: Env, claimer: Pubkey, leaf: Leaf) returns (r: Outcome)
      ensures r == CheckProof(p, State(), env, claimer, leaf)
    {
      var proven := MerkleProof.VerifyMerkleProof(p.hash, leaf.hash, leaf.proof, currentRoot);
      if !proven {
        return Fail(ProofVerificationFailed);
      }
      var accepted := VerifyIntrospection(env.passed.data, claimer, StateMessage(channelId, env.slot, currentRoot));
      r := if accepted then Pass else Fail(InvalidSignature);
    }

    /** The common end of the three payout instructions. */
    method PayOut(p: Program, token: TokenProgram, vault: Pubkey, leaf: Leaf) returns (r: Outcome)
      requires initialized
      modifies this, token
      ensures Meets(token, Payout(p, old(State()), old(token.View()), vault, leaf), r)
    {
      if totalClaimed + leaf.amount > U64_MAX {
        return Fail(ArithmeticOverflow);
      }
      totalClaimed := totalClaimed + leaf.amount;
      if totalClaimed > totalDeposited {
        return Fail(AmountConservation);
      }
      claimedLeaves := claimedLeaves + [leaf.index];
      if leaf.amount > 0 {
        var escrow := p.escrowOf(channelId);
        var sent := token.Transfer(escrow, vault, escrow, leaf.amount);
        if !sent {
          return Fail(TransferFailed);
        }
      }
      r := Pass;
    }

    method Claim(p: Program, token: TokenProgram, env: Env, ix: Instruction) returns (r: Outcome)
      requires ix.Claim? && initialized
      modifies this, token
      ensures Meets(token, DoClaim(p, old(State()), old(token.View()), env, ix), r)
    {
      if status != Settling {
        return Fail(InvalidStatus);
      }
      r := PayoutAccounts(State(), token.View(), ix.claimer, ix.vault);
      if r.Fail? {
        return;
      }
      if settleDeadline.None? {
        return Fail(InvalidStatus);
      }
      if env.slot > settleDeadline.value {
        return Fail(SettlementExpired);
      }
      if ix.claimer != ix.leaf.owner {
        return Fail(InvalidOwner);
      }
      if ix.leaf.index in claimedLeaves {
        return Fail(AlreadyClaimed);
      }
      r := CheckLeafData(p, ix.leaf);
      if r.Fail? {
        return;
      }
      r := VerifyLeaf(p, env, ix.claimer, ix.leaf);
      if r.Fail? {
        return;
      }
      r := PayOut(p, token, ix.vault, ix.leaf);
    }

    /** The last slot at which HTLC leaves can be paid. */
    method HtlcDeadline(slot: u64) returns (r: Outcome)
      ensures r == HtlcGate(State(), slot)
    {
      var deadline;
      if status == Challenged {
        if challengeSlot.None? {
          return Fail(InvalidStatus);
        }
        if challengeSlot.value + challengeDuration > U64_MAX {
          return Fail(ArithmeticOverflow);
        }
        deadline := challengeSlot.value + challengeDuration;
      } else {
        if settleDeadline.None? {
          return Fail(InvalidStatus);
        }
        deadline := settleDeadline.value;
      }
      r := if slot <= deadline then Pass else Fail(SettlementExpired);
    }

    method VerifyHtlc(p: Program, token: TokenProgram, env: Env, ix: Instruction) returns (r: Outcome)
      requires ix.VerifyHtlc? && initialized
      modifies this, token
      ensures Meets(token, DoVerifyHtlc(p, old(State()), old(token.View()), env, ix), r)
    {
      if status != Challenged && status != Settling {
        return Fail(InvalidStatus);
      }
      r := PayoutAccounts(State(), token.View(), ix.claimer, ix.vault);
      if r.Fail? {
        return;
      }
      r := HtlcDeadline(env.slot);
      if r.Fail? {
        return;
      }
      if ix.claimer != ix.leaf.owner {
        return Fail(InvalidOwner);
      }
      if ix.leaf.index in claimedLeaves {
        return Fail(AlreadyClaimed);
      }
      r := CheckHtlcLeafData(p, ix.leaf);
      if r.Fail? {
        return;
      }
      if p.hash(ix.preimage) != ix.hashLock {
        return Fail(HashLockMismatch);
      }
      if env.slot > ix.timelockSlot {
        return Fail(HtlcExpired);
      }
      r := VerifyLeaf(p, env, ix.claimer, ix.leaf);
      if r.Fail? {
        return;
      }
      r := PayOut(p, token, ix.vault, ix.leaf);
    }

    method HtlcRefund(p: Program, token: TokenProgram, env: Env, ix: Instruction) returns (r: Outcome)
      requires ix.HtlcRefund? && initialized
      modifies this, token
      ensures Meets(token, DoHtlcRefund(p, old(State()), old(token.View()), env, ix), r)
    {
      if status != Challenged && status != Settling {
        return Fail(InvalidStatus);
      }
      r := PayoutAccounts(State(), token.View(), ix.claimer, ix.vault);
      if r.Fail? {
        return;
      }
      r := HtlcDeadline(env.slot);
      if r.Fail? {
        return;
      }
      if ix.claimer != ix.leaf.owner {
        return Fail(InvalidOwner);
      }
      if ix.leaf.index in claimedLeaves {
        return Fail(AlreadyClaimed);
      }
      r := CheckHtlcLeafData(p, ix.leaf);
      if r.Fail? {
        return;
      }
      if env.slot <= ix.timelockSlot {
        return Fail(HtlcNotExpired);
      }
      r := VerifyLeaf(p, env, ix.claimer, ix.leaf);
      if r.Fail? {
        return;
      }
      r := PayOut(p, token, ix.vault, ix.leaf);
    }

    /** One refund transfer, skipped when nothing is due. */
    method Refund(token: TokenProgram, escrow: Pubkey, vault: Pubkey, amount: u64) returns (ok: bool)
      modifies token
      ensures ok == SendIfPositive(old(token.View()), escrow, vault, amount).Ok?
      ensures ok ==> token.View() == SendIfPositive(old(token.View()), escrow, vault, amount).value
    {
      ok := true;
      if amount > 0 {
        ok := token.Transfer(escrow, vault, escrow, amount);
      }
    }

    method CheckFinalize(token: TokenProgram, env: Env, ix: Instruction) returns (r: Outcome)
      requires ix.FinalizeSettlement?
      ensures r == FinalizeGuard(State(), token.View(), env, ix)
    {
      if status != Settling {
        return Fail(InvalidStatus);
      }
      if ix.caller != userPubkey && ix.caller != providerPubkey {
        return Fail(Unauthorized);
      }
      if ix.refundVaultA !in token.accounts || ix.refundVaultB !in token.accounts {
        return Fail(AccountNotInitialized);
      }
      if settleDeadline.None? {
        return Fail(InvalidStatus);
      }
      if env.slot < settleDeadline.value {
        return Fail(SettlementNotExpired);
      }
      var accepted := VerifyIntrospection(env.passed.data, ix.caller, StateMessage(channelId, env.slot, currentRoot));
      if !accepted {
        return Fail(InvalidSignature);
      }
      if totalDeposited < totalClaimed {
        return Fail(ArithmeticOverflow);
      }
      r := Pass;
    }

    /** The pro-rata refunds out of escrow. */
    method RefundBoth(token: TokenProgram, escrow: Pubkey, unclaimed: u64, ix: Instruction) returns (r: Outcome)
      requires ix.FinalizeSettlement?
      modifies token
      ensures
        match SendRefunds(old(token.View()), escrow, unclaimed, old(State()), ix)
        case Ok(l) => r == Pass && token.View() == l
        case Err(e) => r == Fail(e)
    {
      if unclaimed == 0 {
        return Pass;
      }
      var refunds := CheckedRefunds(unclaimed, depositA, depositB);
      if refunds.Err? {
        return Fail(refunds.error);
      }
      var (refundA, refundB) := refunds.value;
      var sentA := Refund(token, escrow, ix.refundVaultA, refundA);
      if !sentA {
        return Fail(TransferFailed);
      }
      var sentB := Refund(token, escrow, ix.refundVaultB, refundB);
      r := if sentB then Pass else Fail(TransferFailed);
    }

    method RefundAndClose(token: TokenProgram, escrow: Pubkey, unclaimed: u64, ix: Instruction) returns (r: Outcome)
      requires ix.FinalizeSettlement? && initialized
      modifies this, token
      ensures Meets(token, Close(old(State()), SendRefunds(old(token.View()), escrow, unclaimed, old(State()), ix)), r)
    {
      r := RefundBoth(token, escrow, unclaimed, ix);
      if r.Pass? {
        status := Closed;
      }
    }

    method FinalizeSettlement(p: Program, token: TokenProgram, env: Env, ix: Instruction) returns (r: Outcome)
      requires ix.FinalizeSettlement? && initialized
      modifies this, token
      ensures Meets(token, DoFinalize(p, old(State()), old(token.View()), env, ix), r)
    {
      r := CheckFinalize(token, env, ix);
      if r.Pass? {
        r := RefundAndClose(token, p.escrowOf(channelId), totalDeposited - totalClaimed, ix);
      }
    }

    method Dispatch(p: Program, token: TokenProgram, env: Env, ix: Instruction) returns (r: Outcome)
      modifies this, token
      ensures Meets(token, Exec(p, old(World(View(), token.View())), env, ix), r)
    {
      if !ix.OpenChannel? && !initialized {
        return Fail(AccountNotInitialized);
      }
      match ix
      case OpenChannel(_, _, _, _, _, _, _, _, _, _, _, _, _) => r := OpenChannel(token, env, ix);
      case FundChannel(_, _, _, _) => r := FundChannel(token, ix);
      case CooperativeSettle(_, _, _) => r := CooperativeSettle(token, env, ix);
      case TriggerChallenge(_, _, _) => r := TriggerChallenge(token, env, ix);
      case SubmitCounterState(_, _) => r := SubmitCounterState(token, env, ix);
      case SettleAfterTimeout(_) => r := SettleAfterTimeout(token, env, ix);
      case Claim(_, _, _) => r := Claim(p, token, env, ix);
      case VerifyHtlc(_, _, _, _, _, _) => r := VerifyHtlc(p, token, env, ix);
      case HtlcRefund(_, _, _, _) => r := HtlcRefund(p, token, env, ix);
      case FinalizeSettlement(_, _, _) => r := FinalizeSettlement(p, token, env, ix);
    }

    /** The runtime: whatever a failed instruction already wrote is undone. */
    method Process(p: Program, token: TokenProgram, env: Env, ix: Instruction) returns (r: Outcome)
      modifies this, token
      ensures r.Pass? <==> Exec(p, old(World(View(), token.View())), env, ix).Ok?
      ensures r.Fail? ==> Exec(p, old(World(View(), token.View())), env, ix) == Err(r.error)
      ensures World(View(), token.View()) == Next(p, old(World(View(), token.View())), Call(env, ix))
    {
      var before, ledger := View(), token.View();
      r := Dispatch(p, token, env, ix);
      if r.Fail? {
        Store(before);
        token.accounts, token.log := ledger.accounts, ledger.log;
      }
    }
  }
}
