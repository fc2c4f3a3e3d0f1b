/** What really leaves the escrow of a channel (ignite-pay-program/src/lib.rs:427-905). */
module ChannelEscrow {
  import opened Bytes
  import opened TokenLedger
  import opened Channel
  import opened ChannelPayouts
  import opened ChannelRuns
  import opened ChannelSettlement
  import opened Acceptance
  import Introspection
  import ProRata

  // ----- Transfers to the escrow itself -----

  /** What the final refund sends to `key`. */
  function RefundTo(c: ChannelState, ix: Instruction, key: Pubkey): nat
    requires ix.FinalizeSettlement? && c.totalClaimed <= c.totalDeposited
  {
    match CheckedRefunds(c.totalDeposited - c.totalClaimed, c.depositA, c.depositB)
    case Ok((a, b)) => (if ix.refundVaultA == key then a else 0) + (if ix.refundVaultB == key then b else 0)
    case Err(_) => 0
  }

  /** What a committed step transfers from the escrow to the escrow: a payout or a refund that names it. */
  function PaidToEscrow(p: Program, v: World, s: Step): nat
  {
    if !s.Call? || v.channel.None? || Exec(p, v, s.env, s.ix).Err? then 0
    else
      var c := v.channel.value;
      var escrow := p.escrowOf(c.channelId);
      if IsPayout(s.ix) then (if s.ix.vault == escrow then s.ix.leaf.amount else 0)
      else if s.ix.FinalizeSettlement? && c.totalClaimed <= c.totalDeposited then RefundTo(c, s.ix, escrow)
      else 0
  }

  lemma KeptByPayout(p: Program, c: ChannelState, l: Ledger, vault: Pubkey, leaf: Leaf)
    requires Payout(p, c, l, vault, leaf).Ok?
    ensures
      var escrow := p.escrowOf(c.channelId);
      Kept(Payout(p, c, l, vault, leaf).value.ledger.log, escrow)
      == Kept(l.log, escrow) + if vault == escrow then leaf.amount else 0
  {
    var escrow := p.escrowOf(c.channelId);
    FlowAppend(l.log, TransferRecord(escrow, vault, escrow, leaf.amount), escrow);
  }

  lemma KeptByFinalize(p: Program, c: ChannelState, l: Ledger, env: Env, ix: Instruction)
    requires Inv(p, World(Some(c), l)) && ix.FinalizeSettlement? && DoFinalize(p, c, l, env, ix).Ok?
    ensures
      var escrow := p.escrowOf(c.channelId);
      Kept(DoFinalize(p, c, l, env, ix).value.ledger.log, escrow) == Kept(l.log, escrow) + RefundTo(c, ix, escrow)
  {
    var unclaimed := c.totalDeposited - c.totalClaimed;
    var escrow := p.escrowOf(c.channelId);
    ProRata.RefundArithmeticNeverFails(unclaimed, c.depositA, c.depositB);
    var (a, b) := CheckedRefunds(unclaimed, c.depositA, c.depositB).value;
    if unclaimed > 0 {
      SendOutflow(l, escrow, ix.refundVaultA, a);
      SendOutflow(SendIfPositive(l, escrow, ix.refundVaultA, a).value, escrow, ix.refundVaultB, b);
    }
  }

  lemma KeptByFund(p: Program, c: ChannelState, l: Ledger, ix: Instruction)
    requires ix.FundChannel? && DoFund(c, l, ix).Ok? && ix.signer != p.escrowOf(c.channelId)
    ensures Kept(DoFund(c, l, ix).value.ledger.log, p.escrowOf(c.channelId)) == Kept(l.log, p.escrowOf(c.channelId))
  {
    FlowAppend(l.log, TransferRecord(ix.sourceVault, ix.fundVaultB, ix.signer, ix.depositB), p.escrowOf(c.channelId));
  }

  lemma KeptByStep(p: Program, v: World, s: Step)
    requires Inv(p, v) && v.channel.Some? && SignersHaveKeys(p, s)
    ensures
      var escrow := p.escrowOf(v.channel.value.channelId);
      Kept(Next(p, v, s).ledger.log, escrow) == Kept(v.ledger.log, escrow) + PaidToEscrow(p, v, s)
  {
    if s.Call? && Exec(p, v, s.env, s.ix).Ok? {
      var (c, l, env, ix) := (v.channel.value, v.ledger, s.env, s.ix);
      assert v == World(Some(c), l);
      if IsPayout(ix) {
        PayoutInstructions(p, v, env, ix);
        KeptByPayout(p, c, l, ix.vault, ix.leaf);
      } else if ix.FinalizeSettlement? {
        KeptByFinalize(p, c, l, env, ix);
      } else if ix.FundChannel? {
        KeptByFund(p, c, l, ix);
      }
    }
  }

  // ----- Whole runs -----

  /** What step `i` of a run transfers from the escrow to the escrow. */
  function PaidAt(p: Program, w: World, steps: seq<Step>, i: nat): nat
    requires i < |steps|
  {
    PaidToEscrow(p, Run(p, w, steps[..i]), steps[i])
  }

  function TotalPaidToEscrow(p: Program, w: World, steps: seq<Step>): nat
  {
    if steps == [] then 0
    else
      var (init, s) := (steps[..|steps| - 1], steps[|steps| - 1]);
      TotalPaidToEscrow(p, w, init) + PaidToEscrow(p, Run(p, w, init), s)
  }

  /** No committed payout or refund of the run named the escrow. */
  ghost predicate NothingPaidToEscrow(p: Program, w: World, steps: seq<Step>)
  {
    forall i :: 0 <= i < |steps| ==> PaidAt(p, w, steps, i) == 0
  }

  lemma PaidAtInit(p: Program, w: World, steps: seq<Step>, n: nat, i: nat)
    requires i < n <= |steps|
    ensures PaidAt(p, w, steps[..n], i) == PaidAt(p, w, steps, i)
  {
    assert steps[..n][..i] == steps[..i];
  }

  lemma NothingPaidInit(p: Program, w: World, steps: seq<Step>)
    requires steps != []
    ensures
      var n := |steps| - 1;
      NothingPaidToEscrow(p, w, steps) <==> NothingPaidToEscrow(p, w, steps[..n]) && PaidAt(p, w, steps, n) == 0
  {
    var n := |steps| - 1;
    forall i | 0 <= i < n ensures PaidAt(p, w, steps[..n], i) == PaidAt(p, w, steps, i) {
      PaidAtInit(p, w, steps, n, i);
    }
  }

  lemma {:induction false} NothingPaidIff(p: Program, w: World, steps: seq<Step>)
    ensures TotalPaidToEscrow(p, w, steps) == 0 <==> NothingPaidToEscrow(p, w, steps)
  {
    if steps != [] {
      var n := |steps| - 1;
      NothingPaidIff(p, w, steps[..n]);
      NothingPaidInit(p, w, steps);
    }
  }

  /** The transfers of the escrow to itself are those of the steps that name it. */
  lemma {:induction false} KeptIsPaid(p: Program, w: World, steps: seq<Step>)
    requires Start(w) && ValidRun(p, steps)
    ensures
      var v := Run(p, w, steps);
      TotalPaidToEscrow(p, w, steps)
      == if v.channel.None? then 0 else Kept(v.ledger.log, p.escrowOf(v.channel.value.channelId))
  {
    if steps != [] {
      var init, s := steps[..|steps| - 1], steps[|steps| - 1];
      KeptIsPaid(p, w, init);
      RunKeepsInv(p, w, init);
      var v := Run(p, w, init);
      assert SignersHaveKeys(p, s);
      if v.channel.Some? {
        KeptByStep(p, v, s);
        SameChannel(p, v, s);
      } else {
        FirstStep(p, v, s);
      }
    }
  }

  lemma SameChannel(p: Program, v: World, s: Step)
    requires Inv(p, v) && v.channel.Some?
    ensures Next(p, v, s).channel.Some? && Next(p, v, s).channel.value.channelId == v.channel.value.channelId
  {
    if s.Call? && Exec(p, v, s.env, s.ix).Ok? { ExecGoesForward(p, v, s.env, s.ix); }
  }

  lemma FirstStep(p: Program, v: World, s: Step)
    requires Inv(p, v) && v.channel.None?
    ensures Next(p, v, s).ledger.log == [] && PaidToEscrow(p, v, s) == 0
  {
  }

  /** Escrow conservation, exactly. What left the escrow is what the program accounts for, total_claimed before
      Closed and total_deposited on Closed, less what payouts and refunds paid to the escrow itself. */
  lemma EscrowReleased(p: Program, w: World, steps: seq<Step>)
    requires Start(w) && ValidRun(p, steps) && Run(p, w, steps).channel.Some?
    ensures
      var v := Run(p, w, steps);
      var c := v.channel.value;
      Outflow(v.ledger.log, p.escrowOf(c.channelId)) + TotalPaidToEscrow(p, w, steps)
      == if c.status == Closed then c.totalDeposited else c.totalClaimed
  {
    EscrowConservation(p, w, steps);
    KeptIsPaid(p, w, steps);
  }

  /** So the two are equal if and only if no committed payout or refund of the run named the escrow. */
  lemma EscrowReleasedIff(p: Program, w: World, steps: seq<Step>)
    requires Start(w) && ValidRun(p, steps) && Run(p, w, steps).channel.Some?
    ensures
      var v := Run(p, w, steps);
      var c := v.channel.value;
      Outflow(v.ledger.log, p.escrowOf(c.channelId)) == (if c.status == Closed then c.totalDeposited else c.totalClaimed)
      <==> NothingPaidToEscrow(p, w, steps)
  {
    EscrowReleased(p, w, steps);
    NothingPaidIff(p, w, steps);
  }

  // ----- Balances -----

  lemma SendBalance(l: Ledger, escrow: Pubkey, vault: Pubkey, amount: u64, key: Pubkey)
    requires SendIfPositive(l, escrow, vault, amount).Ok?
    ensures Balance(SendIfPositive(l, escrow, vault, amount).value, key)
         == Balance(l, key) + Change(key, escrow, vault, amount)
  {
  }

  /** Every payout, whatever vault it names: the vault gains and the escrow loses the amount. */
  lemma PayoutBalance(p: Program, c: ChannelState, l: Ledger, vault: Pubkey, leaf: Leaf, key: Pubkey)
    requires Payout(p, c, l, vault, leaf).Ok?
    ensures Balance(Payout(p, c, l, vault, leaf).value.ledger, key)
         == Balance(l, key) + Change(key, p.escrowOf(c.channelId), vault, leaf.amount)
  {
  }

  /** Every final refund, whatever vaults it names: each gains its share and the escrow loses both. */
  lemma RefundBalance(
    l: Ledger, escrow: Pubkey, unclaimed: u64, c: ChannelState, ix: Instruction, a: u64, b: u64, key: Pubkey)
    requires ix.FinalizeSettlement? && SendRefunds(l, escrow, unclaimed, c, ix).Ok?
    requires CheckedRefunds(unclaimed, c.depositA, c.depositB) == Ok((a, b)) && a + b == unclaimed
    ensures Balance(SendRefunds(l, escrow, unclaimed, c, ix).value, key)
         == Balance(l, key) + Change(key, escrow, ix.refundVaultA, a) + Change(key, escrow, ix.refundVaultB, b)
  {
    if unclaimed > 0 {
      SendBalance(l, escrow, ix.refundVaultA, a, key);
      SendBalance(SendIfPositive(l, escrow, ix.refundVaultA, a).value, escrow, ix.refundVaultB, b, key);
    }
  }

  /** Outflow is what the escrow's balance loses, in every payout. */
  lemma PayoutLosesOutflow(p: Program, c: ChannelState, l: Ledger, vault: Pubkey, leaf: Leaf)
    requires Payout(p, c, l, vault, leaf).Ok?
    ensures
      var (escrow, after) := (p.escrowOf(c.channelId), Payout(p, c, l, vault, leaf).value.ledger);
      Balance(after, escrow) + Outflow(after.log, escrow) == Balance(l, escrow) + Outflow(l.log, escrow)
  {
    var escrow := p.escrowOf(c.channelId);
    PayoutBalance(p, c, l, vault, leaf, escrow);
    FlowAppend(l.log, TransferRecord(escrow, vault, escrow, leaf.amount), escrow);
  }

  /** And in every final refund. */
  lemma RefundLosesOutflow(l: Ledger, escrow: Pubkey, unclaimed: u64, c: ChannelState, ix: Instruction, a: u64, b: u64)
    requires ix.FinalizeSettlement? && SendRefunds(l, escrow, unclaimed, c, ix).Ok?
    requires CheckedRefunds(unclaimed, c.depositA, c.depositB) == Ok((a, b)) && a + b == unclaimed
    ensures
      var after := SendRefunds(l, escrow, unclaimed, c, ix).value;
      Balance(after, escrow) + Outflow(after.log, escrow) == Balance(l, escrow) + Outflow(l.log, escrow)
  {
    RefundBalance(l, escrow, unclaimed, c, ix, a, b, escrow);
    if unclaimed > 0 {
      SendOutflow(l, escrow, ix.refundVaultA, a);
      SendOutflow(SendIfPositive(l, escrow, ix.refundVaultA, a).value, escrow, ix.refundVaultB, b);
    }
  }

  // ----- Payouts and refunds that name the escrow -----

  /** A payout to the escrow counts as claimed and moves nothing. */
  lemma PayoutToEscrowMovesNothing(p: Program, c: ChannelState, l: Ledger, leaf: Leaf)
    requires Payout(p, c, l, p.escrowOf(c.channelId), leaf).Ok?
    ensures
      var w := Payout(p, c, l, p.escrowOf(c.channelId), leaf).value;
      && w.ledger.accounts == l.accounts
      && w.channel.Some? && w.channel.value.totalClaimed == c.totalClaimed + leaf.amount
  {
  }

  /** An admitted claim that names the escrow commits exactly when it is within the deposits and the escrow
      could pay; no check of the vault stands in its way. */
  lemma ClaimToEscrowCommitsIff(p: Program, c: ChannelState, l: Ledger, env: Env, ix: Instruction)
    requires ix.Claim? && ix.vault == p.escrowOf(c.channelId) && ClaimAdmitted(p, c, l, env, ix)
    ensures
      DoClaim(p, c, l, env, ix).Ok? <==>
        && c.totalClaimed + ix.leaf.amount <= c.totalDeposited
        && (ix.leaf.amount > 0 ==> CanTransfer(l, ix.vault, ix.vault, ix.vault, ix.leaf.amount))
  {
    ClaimIff(p, c, l, env, ix);
  }

  lemma SettleNow(p: Program, w: World, call: Introspection.Instruction) returns (s: Step, n: World)
    requires w.channel.Some? && IsSmall(call) && w.channel.value.status == Open
    requires w.channel.value.userPubkey == w.channel.value.providerPubkey
    ensures s.Call? && Genuine(s.env) && !s.ix.FundChannel? && Next(p, w, s) == n
    ensures n == World(Some(w.channel.value.(status := Settling, settleDeadline := Some(1))), w.ledger)
  {
    var c := w.channel.value;
    var env := GenuineEnv(1, c.userPubkey, StateMessage(c.channelId, c.sequence, c.currentRoot), call);
    s := Call(env, CooperativeSettle(c.sequence, c.currentRoot, 0));
    assert CooperativeGuard(c, env, s.ix).Pass?;
    n := Next(p, w, s);
  }

  lemma RefundsOfOne()
    ensures CheckedRefunds(1, 1, 0) == Ok((1, 0))
  {
    ProRata.RefundArithmeticNeverFails(1, 1, 0);
    ProRata.RefundNearExactShare(1, 1, 1);
  }

  lemma OneIntoEscrow(l: Ledger, escrow: Pubkey, c: ChannelState, ix: Instruction) returns (after: Ledger)
    requires ix.FinalizeSettlement? && ix.refundVaultA == escrow && c.depositA == 1 && c.depositB == 0
    requires CanTransfer(l, escrow, escrow, escrow, 1)
    ensures SendRefunds(l, escrow, 1, c, ix) == Ok(after) && after.accounts == l.accounts
  {
    RefundsOfOne();
    after := SendRefunds(l, escrow, 1, c, ix).value;
  }

  /** A channel of one deposit of one that can be finalized at slot 1. */
  predicate ReadyToClose(p: Program, w: World, vault: Pubkey)
  {
    && w.channel.Some?
    && var c := w.channel.value;
    && var escrow := p.escrowOf(c.channelId);
    && c.status == Settling && c.settleDeadline == Some(1)
    && c.totalDeposited == 1 && c.depositA == 1 && c.depositB == 0 && c.totalClaimed == 0
    && vault in w.ledger.accounts && CanTransfer(w.ledger, escrow, escrow, escrow, 1)
  }

  /** The call that finalizes it with the escrow as the first vault. */
  predicate ClosesIntoEscrow(p: Program, w: World, vault: Pubkey, env: Env, ix: Instruction)
    requires w.channel.Some?
  {
    var c := w.channel.value;
    && env.slot == 1
    && ix == FinalizeSettlement(c.userPubkey, p.escrowOf(c.channelId), vault)
    && Accepted(env.passed.data, c.userPubkey, StateMessage(c.channelId, 1, c.currentRoot))
  }

  lemma GuardOfClose(p: Program, w: World, vault: Pubkey, env: Env, ix: Instruction)
    requires ReadyToClose(p, w, vault) && ClosesIntoEscrow(p, w, vault, env, ix)
    ensures FinalizeGuard(w.channel.value, w.ledger, env, ix) == Pass
  {
  }

  lemma CloseOk(p: Program, c: ChannelState, l: Ledger, env: Env, ix: Instruction, after: Ledger)
    requires ix.FinalizeSettlement? && FinalizeGuard(c, l, env, ix) == Pass
    requires SendRefunds(l, p.escrowOf(c.channelId), c.totalDeposited - c.totalClaimed, c, ix) == Ok(after)
    ensures DoFinalize(p, c, l, env, ix) == Ok(World(Some(c.(status := Closed)), after))
  {
  }

  lemma NextIsFinalize(p: Program, w: World, env: Env, ix: Instruction, n: World)
    requires w.channel.Some? && ix.FinalizeSettlement? && DoFinalize(p, w.channel.value, w.ledger, env, ix) == Ok(n)
    ensures Next(p, w, Call(env, ix)) == n
  {
  }

  lemma EffectOfClose(p: Program, w: World, vault: Pubkey, env: Env, ix: Instruction) returns (after: Ledger)
    requires ReadyToClose(p, w, vault) && ClosesIntoEscrow(p, w, vault, env, ix)
    ensures DoFinalize(p, w.channel.value, w.ledger, env, ix) == Ok(World(Some(w.channel.value.(status := Closed)), after))
    ensures after.accounts == w.ledger.accounts
  {
    var c := w.channel.value;
    GuardOfClose(p, w, vault, env, ix);
    after := OneIntoEscrow(w.ledger, p.escrowOf(c.channelId), c, ix);
    CloseOk(p, c, w.ledger, env, ix, after);
  }

  lemma FinalizeIntoEscrow(p: Program, w: World, vault: Pubkey, call: Introspection.Instruction)
    returns (s: Step, n: World)
    requires ReadyToClose(p, w, vault) && IsSmall(call)
    ensures s.Call? && Genuine(s.env) && !s.ix.FundChannel? && Next(p, w, s) == n
    ensures HasStatus(n, Closed) && n.channel.value.totalDeposited == 1 && n.ledger.accounts == w.ledger.accounts
  {
    var c := w.channel.value;
    var env := GenuineEnv(1, c.userPubkey, StateMessage(c.channelId, 1, c.currentRoot), call);
    var ix := FinalizeSettlement(c.userPubkey, p.escrowOf(c.channelId), vault);
    var after := EffectOfClose(p, w, vault, env, ix);
    s, n := Call(env, ix), World(Some(c.(status := Closed)), after);
    NextIsFinalize(p, w, env, ix, n);
  }

  lemma RunOfThree(p: Program, w: World, s: Step, w1: World, t: Step, w2: World, u: Step, w3: World)
    requires Next(p, w, s) == w1 && Next(p, w1, t) == w2 && Next(p, w2, u) == w3
    ensures Run(p, w, [s, t, u]) == w3
  {
    assert [s, t, u][..2] == [s, t];
    RunOfTwo(p, w, s, t);
  }

  lemma ThreeCalls(p: Program, s: Step, t: Step, u: Step)
    requires s.Call? && Genuine(s.env) && !s.ix.FundChannel?
    requires t.Call? && Genuine(t.env) && !t.ix.FundChannel?
    requires u.Call? && Genuine(u.env) && !u.ix.FundChannel?
    ensures ValidRun(p, [s, t, u]) && AllGenuine([s, t, u])
  {
  }

  lemma ReadyAfter(p: Program, w: World, n: World, key: Pubkey, mint: Pubkey, vault: Pubkey)
    requires vault in w.ledger.accounts && p.escrowOf(key) in w.ledger.accounts
    requires w.ledger.accounts[p.escrowOf(key)] == TokenAccount(mint, p.escrowOf(key), 1, None, 0, false)
    requires n == World(Some(NewChannel(key, mint, vault).(status := Settling, settleDeadline := Some(1))), w.ledger)
    ensures ReadyToClose(p, n, vault)
  {
  }

  /** The failing input: a channel can be Closed with every token of its deposit still in the escrow. */
  lemma ClosedWithNothingReleased(p: Program, key: Pubkey, mint: Pubkey, vault: Pubkey, call: Introspection.Instruction)
    returns (w: World, steps: seq<Step>)
    requires IsSmall(call) && vault != p.escrowOf(key)
    ensures Start(w) && ValidRun(p, steps) && HasStatus(Run(p, w, steps), Closed)
    ensures AllGenuine(steps) && Run(p, w, steps).channel.value.totalDeposited == 1
    ensures Run(p, w, steps).ledger.accounts == w.ledger.accounts
  {
    var escrow := p.escrowOf(key);
    var accounts: map<Pubkey, TokenAccount> := map[
      vault := TokenAccount(mint, key, 0, None, 0, false),
      escrow := TokenAccount(mint, escrow, 1, None, 0, false)];
    w := World(None, Ledger(accounts, []));
    var s := OpenLongest(p, w, key, mint, vault, call);
    var w1 := World(Some(NewChannel(key, mint, vault)), w.ledger);
    var t, w2 := SettleNow(p, w1, call);
    ReadyAfter(p, w, w2, key, mint, vault);
    var u, w3 := FinalizeIntoEscrow(p, w2, vault, call);
    steps := [s, t, u];
    ThreeCalls(p, s, t, u);
    RunOfThree(p, w, s, w1, t, w2, u, w3);
  }
}
