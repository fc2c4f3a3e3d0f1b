/** The final refund: exactly when it commits, and that no run closes a channel before its deadline
    (ignite-pay-program/src/lib.rs:781-905). */
module ChannelClosing {
  import opened Bytes
  import opened TokenLedger
  import opened Channel
  import opened ChannelPayouts
  import opened ChannelRuns
  import opened ChannelSettlement
  import opened ChannelClaims
  import opened ChannelDisputes
  import ProRata

  // ----- Exactly when it commits -----

  predicate CanSend(l: Ledger, escrow: Pubkey, vault: Pubkey, amount: u64)
  {
    amount > 0 ==> CanTransfer(l, escrow, vault, escrow, amount)
  }

  function AfterSend(l: Ledger, escrow: Pubkey, vault: Pubkey, amount: u64): Ledger
    requires CanSend(l, escrow, vault, amount)
  {
    if amount == 0 then l else AfterTransfer(l, escrow, vault, escrow, amount)
  }

  /** `a` to the first vault and then `b` to the second. */
  predicate CanSendBoth(l: Ledger, escrow: Pubkey, vaultA: Pubkey, a: u64, vaultB: Pubkey, b: u64)
  {
    CanSend(l, escrow, vaultA, a) && CanSend(AfterSend(l, escrow, vaultA, a), escrow, vaultB, b)
  }

  /** Settling, at or after the deadline, by a party that is accepted with slot and root, into accounts that exist. */
  predicate Closable(c: ChannelState, l: Ledger, env: Env, ix: Instruction)
    requires ix.FinalizeSettlement?
  {
    && c.status == Settling && FinalizeOpen(c, env.slot)
    && PartyAccepted(c, env, ix.caller)
    && ix.refundVaultA in l.accounts && ix.refundVaultB in l.accounts
  }

  lemma SendIff(l: Ledger, escrow: Pubkey, vault: Pubkey, amount: u64)
    ensures SendIfPositive(l, escrow, vault, amount).Ok? <==> CanSend(l, escrow, vault, amount)
    ensures CanSend(l, escrow, vault, amount) ==>
              SendIfPositive(l, escrow, vault, amount) == Ok(AfterSend(l, escrow, vault, amount))
  {
  }

  lemma SendBothIff(l: Ledger, escrow: Pubkey, vaultA: Pubkey, a: u64, vaultB: Pubkey, b: u64)
    ensures SendBoth(l, escrow, vaultA, a, vaultB, b).Ok? <==> CanSendBoth(l, escrow, vaultA, a, vaultB, b)
  {
    SendIff(l, escrow, vaultA, a);
    if CanSend(l, escrow, vaultA, a) { SendIff(AfterSend(l, escrow, vaultA, a), escrow, vaultB, b); }
  }

  lemma RefundsIff(l: Ledger, escrow: Pubkey, unclaimed: u64, c: ChannelState, ix: Instruction, a: u64, b: u64)
    requires ix.FinalizeSettlement? && a + b == unclaimed
    requires CheckedRefunds(unclaimed, c.depositA, c.depositB) == Ok((a, b))
    ensures SendRefunds(l, escrow, unclaimed, c, ix).Ok?
            <==> CanSendBoth(l, escrow, ix.refundVaultA, a, ix.refundVaultB, b)
  {
    SendBothIff(l, escrow, ix.refundVaultA, a, ix.refundVaultB, b);
  }

  lemma FinalizeIff(p: Program, c: ChannelState, l: Ledger, env: Env, ix: Instruction)
    requires ix.FinalizeSettlement? && c.totalClaimed <= c.totalDeposited
    ensures Exec(p, World(Some(c), l), env, ix).Ok? <==>
              Closable(c, l, env, ix)
              && SendRefunds(l, p.escrowOf(c.channelId), c.totalDeposited - c.totalClaimed, c, ix).Ok?
  {
    assert Exec(p, World(Some(c), l), env, ix) == DoFinalize(p, c, l, env, ix);
  }

  lemma FinalizeSplitIff(p: Program, w: World, env: Env, ix: Instruction, a: u64, b: u64)
    requires w.channel.Some? && ix.FinalizeSettlement? && w.channel.value.totalClaimed <= w.channel.value.totalDeposited
    requires
      var c := w.channel.value;
      var unclaimed := c.totalDeposited - c.totalClaimed;
      a + b == unclaimed && CheckedRefunds(unclaimed, c.depositA, c.depositB) == Ok((a, b))
    ensures
      var (c, l) := (w.channel.value, w.ledger);
      Exec(p, w, env, ix).Ok? <==>
        && Closable(c, l, env, ix)
        && CanSendBoth(l, p.escrowOf(c.channelId), ix.refundVaultA, a, ix.refundVaultB, b)
  {
    var c, l := w.channel.value, w.ledger;
    assert w == World(Some(c), l);
    RefundsIff(l, p.escrowOf(c.channelId), c.totalDeposited - c.totalClaimed, c, ix, a, b);
    FinalizeIff(p, c, l, env, ix);
  }

  lemma FinalizeSplitPays(p: Program, w: World, env: Env, ix: Instruction, a: u64, b: u64)
    requires w.channel.Some? && ix.FinalizeSettlement? && Exec(p, w, env, ix).Ok?
    requires w.channel.value.totalClaimed <= w.channel.value.totalDeposited
    requires
      var c := w.channel.value;
      var unclaimed := c.totalDeposited - c.totalClaimed;
      && ProRata.FairSplit(a, b, unclaimed, c.depositA, c.depositB)
      && CheckedRefunds(unclaimed, c.depositA, c.depositB) == Ok((a, b))
    ensures PaidFairly(p, w, Exec(p, w, env, ix).value, ix, a, b)
  {
    FinalizeNext(p, w, env, ix);
    RefundsPaidFairly(p, w, Exec(p, w, env, ix).value, ix, a, b);
  }

  /** In a reachable state a final refund commits exactly when the channel is closable by it and the escrow can send
      the two parts of a fair split of what is unclaimed, one after the other; it then sends them and closes. */
  lemma FinalizeCommitsIff(p: Program, w: World, env: Env, ix: Instruction) returns (a: u64, b: u64)
    requires Inv(p, w) && w.channel.Some? && ix.FinalizeSettlement?
    ensures
      var (c, l) := (w.channel.value, w.ledger);
      && ProRata.FairSplit(a, b, c.totalDeposited - c.totalClaimed, c.depositA, c.depositB)
      && (Exec(p, w, env, ix).Ok? <==>
            && Closable(c, l, env, ix)
            && CanSendBoth(l, p.escrowOf(c.channelId), ix.refundVaultA, a, ix.refundVaultB, b))
    ensures Exec(p, w, env, ix).Ok? ==> PaidFairly(p, w, Exec(p, w, env, ix).value, ix, a, b)
  {
    var c := w.channel.value;
    a, b := ProRata.RefundsAreFair(c.totalDeposited - c.totalClaimed, c.depositA, c.depositB);
    assert a + b == c.totalDeposited - c.totalClaimed;
    FinalizeSplitIff(p, w, env, ix, a, b);
    if Exec(p, w, env, ix).Ok? { FinalizeSplitPays(p, w, env, ix, a, b); }
  }

  // ----- Not before the deadline -----

  /** Step `s` commits, enters Settling and sets the deadline to its own slot plus its own window. */
  predicate SetsDeadline(p: Program, v: World, s: Step, deadline: u64)
  {
    && s.Call? && (s.ix.CooperativeSettle? || s.ix.SettleAfterTimeout?)
    && Exec(p, v, s.env, s.ix).Ok? && s.env.slot + s.ix.settleWindow == deadline
    && !Settled(v) && SettlingFrom(v, Next(p, v, s), s.env.slot, s.ix.settleWindow)
  }

  predicate HasDeadline(w: World, deadline: u64)
  {
    w.channel.Some? && w.channel.value.settleDeadline == Some(deadline)
  }

  lemma DeadlineStep(p: Program, v: World, s: Step, deadline: u64)
    requires Inv(p, v) && HasDeadline(Next(p, v, s), deadline)
    ensures HasDeadline(v, deadline) || SetsDeadline(p, v, s, deadline)
  {
    if s.Call? && Exec(p, v, s.env, s.ix).Ok? {
      if IsPayout(s.ix) {
        PayoutInstructions(p, v, s.env, s.ix);
      } else if s.ix.FinalizeSettlement? {
        FinalizeGoesForward(p, v.channel.value, v.ledger, s.env, s.ix);
      }
    }
  }

  /** Every deadline was set by the step that entered Settling. */
  lemma {:induction false} DeadlineWasSet(p: Program, w: World, steps: seq<Step>, deadline: u64) returns (t: nat)
    requires Start(w) && ValidRun(p, steps) && HasDeadline(Run(p, w, steps), deadline)
    ensures t < |steps| && SetsDeadline(p, Run(p, w, steps[..t]), steps[t], deadline)
  {
    var n := |steps| - 1;
    RunKeepsInv(p, w, steps[..n]);
    DeadlineStep(p, Run(p, w, steps[..n]), steps[n], deadline);
    if HasDeadline(Run(p, w, steps[..n]), deadline) {
      t := DeadlineWasSet(p, w, steps[..n], deadline);
      assert steps[..n][..t] == steps[..t];
    } else {
      t := n;
    }
  }

  lemma ClosesOnlyByFinalize(p: Program, v: World, s: Step)
    requires Inv(p, v) && !HasStatus(v, Closed) && HasStatus(Next(p, v, s), Closed)
    ensures s.Call? && s.ix.FinalizeSettlement? && Exec(p, v, s.env, s.ix).Ok? && v.channel.Some?
  {
    if s.Call? && Exec(p, v, s.env, s.ix).Ok? && IsPayout(s.ix) { PayoutInstructions(p, v, s.env, s.ix); }
  }

  /** The step of a run that closes the channel is a final refund of a party, at a slot no earlier than that of the
      earlier step that entered Settling plus the window that step named. */
  lemma ClosedAfterDeadline(p: Program, w: World, steps: seq<Step>, i: nat) returns (t: nat)
    requires Start(w) && ValidRun(p, steps) && i < |steps|
    requires !HasStatus(Run(p, w, steps[..i]), Closed) && HasStatus(Run(p, w, steps[..i + 1]), Closed)
    ensures steps[i].Call? && steps[i].ix.FinalizeSettlement? && Commits(p, w, steps, i)
    ensures t < i && steps[t].Call? && (steps[t].ix.CooperativeSettle? || steps[t].ix.SettleAfterTimeout?)
    ensures !Settled(Run(p, w, steps[..t]))
    ensures SettlingFrom(Run(p, w, steps[..t]), Run(p, w, steps[..t + 1]), steps[t].env.slot, steps[t].ix.settleWindow)
    ensures steps[i].env.slot >= steps[t].env.slot + steps[t].ix.settleWindow
  {
    var v, s := Run(p, w, steps[..i]), steps[i];
    RunStep(p, w, steps, i);
    RunKeepsInv(p, w, steps[..i]);
    ClosesOnlyByFinalize(p, v, s);
    var _, _ := FinalizeCommitsIff(p, v, s.env, s.ix);
    t := DeadlineWasSet(p, w, steps[..i], v.channel.value.settleDeadline.value);
    assert steps[..i][..t] == steps[..t];
    RunStep(p, w, steps, t);
  }

  /** So while a deadline lies ahead an entitled claim that the escrow can pay still commits, and no final refund does. */
  lemma ClaimsComeFirst(p: Program, w: World, env: Env, claim: Instruction, finalize: Instruction)
    requires Inv(p, w) && HasStatus(w, Settling) && env.slot < w.channel.value.settleDeadline.value
    requires claim.Claim? && finalize.FinalizeSettlement?
    ensures Exec(p, w, env, finalize).Err?
    ensures
      var c := w.channel.value;
      Exec(p, w, env, claim).Ok? <==>
        && PartyAccepted(c, env, claim.claimer) && claim.claimer == claim.leaf.owner
        && LeafProven(p, c, claim.leaf) && claim.leaf.index !in c.claimedLeaves && Payable(p, c, w.ledger, claim)
  {
    PayoutCommitsIff(p, w, env, claim);
    var _, _ := FinalizeCommitsIff(p, w, env, finalize);
  }
}
