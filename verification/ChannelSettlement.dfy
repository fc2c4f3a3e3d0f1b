/** When a channel can settle, which time windows are open, and what the final refund pays. */
module ChannelSettlement {
  import opened Bytes
  import opened TokenLedger
  import opened Channel
  import opened ChannelRuns
  import opened Acceptance
  import Introspection
  import ProRata

  predicate HasStatus(w: World, s: ChannelStatus)
  {
    w.channel.Some? && w.channel.value.status == s
  }

  predicate Settled(w: World)
  {
    HasStatus(w, Settling) || HasStatus(w, Closed)
  }

  // ----- How Settling is entered -----

  /** What both parties have to accept: this channel, a sequence number not below the current one, and
      the current root. */
  function SettleMessage(c: ChannelState, ix: Instruction): bytes
    requires ix.CooperativeSettle?
  {
    StateMessage(c.channelId, ix.sequence, c.currentRoot)
  }

  /** A cooperative settle whose passed account is accepted for both parties. */
  predicate BothAccepted(v: World, s: Step)
  {
    && HasStatus(v, Open) && s.Call? && s.ix.CooperativeSettle?
    && var c := v.channel.value;
    && s.ix.sequence >= c.sequence
    && Accepted(s.env.passed.data, c.userPubkey, SettleMessage(c, s.ix))
    && Accepted(s.env.passed.data, c.providerPubkey, SettleMessage(c, s.ix))
  }

  /** A cooperative settle whose transaction carries the acceptance of both parties. */
  ghost predicate BothCarried(v: World, s: Step)
  {
    && HasStatus(v, Open) && s.Call? && s.ix.CooperativeSettle?
    && var c := v.channel.value;
    && Carried(s.env, c.userPubkey, SettleMessage(c, s.ix))
    && Carried(s.env, c.providerPubkey, SettleMessage(c, s.ix))
  }

  /** Strictly more than the challenge duration has passed since the recorded challenge slot. */
  predicate TimedOut(v: World, s: Step)
  {
    && HasStatus(v, Challenged) && s.Call? && s.ix.SettleAfterTimeout?
    && var c := v.channel.value;
    && c.challengeSlot.Some? && s.env.slot > c.challengeSlot.value + c.challengeDuration
  }

  /** Step `t` is a successful challenge at `slot`. */
  ghost predicate ChallengedAt(p: Program, w: World, steps: seq<Step>, t: nat, slot: u64)
  {
    && t < |steps| && steps[t].Call? && steps[t].ix.TriggerChallenge? && steps[t].env.slot == slot
    && Exec(p, Run(p, w, steps[..t]), steps[t].env, steps[t].ix).Ok?
  }

  lemma EntryStep(p: Program, v: World, s: Step)
    requires Inv(p, v) && !Settled(v) && Settled(Next(p, v, s))
    ensures BothAccepted(v, s) || TimedOut(v, s)
  {
    var (env, ix) := (s.env, s.ix);
    if IsPayout(ix) {
      PayoutInstructions(p, v, env, ix);
    } else if ix.FinalizeSettlement? {
      FinalizeGoesForward(p, v.channel.value, v.ledger, env, ix);
    }
  }

  lemma SlotStep(p: Program, v: World, s: Step)
    requires Inv(p, v) && Next(p, v, s).channel.Some?
    ensures
      var d := Next(p, v, s).channel.value;
      d.challengeSlot.Some? ==>
        || (v.channel.Some? && v.channel.value.challengeSlot == d.challengeSlot)
        || (s.Call? && s.ix.TriggerChallenge? && s.env.slot == d.challengeSlot.value && Exec(p, v, s.env, s.ix).Ok?)
  {
    if s.Call? && Exec(p, v, s.env, s.ix).Ok? {
      if IsPayout(s.ix) {
        PayoutInstructions(p, v, s.env, s.ix);
      } else if s.ix.FinalizeSettlement? {
        FinalizeGoesForward(p, v.channel.value, v.ledger, s.env, s.ix);
      }
    }
  }

  /** A recorded challenge slot is the slot of a challenge that really happened in the run. */
  lemma {:induction false} ChallengeHappened(p: Program, w: World, steps: seq<Step>) returns (t: nat)
    requires Start(w) && ValidRun(p, steps)
    requires Run(p, w, steps).channel.Some? && Run(p, w, steps).channel.value.challengeSlot.Some?
    ensures ChallengedAt(p, w, steps, t, Run(p, w, steps).channel.value.challengeSlot.value)
  {
    var init, s := steps[..|steps| - 1], steps[|steps| - 1];
    RunKeepsInv(p, w, init);
    var v := Run(p, w, init);
    SlotStep(p, v, s);
    if v.channel.Some? && v.channel.value.challengeSlot == Run(p, w, steps).channel.value.challengeSlot {
      t := ChallengeHappened(p, w, init);
      assert init[..t] == steps[..t];
    } else {
      t := |steps| - 1;
    }
  }

  /** Step `i` comes more than the challenge duration after the challenge made by step `t`. */
  ghost predicate ChallengePeriodOver(p: Program, w: World, steps: seq<Step>, t: nat, i: nat)
  {
    && t < i < |steps| && steps[t].Call? && steps[i].Call?
    && ChallengedAt(p, w, steps, t, steps[t].env.slot)
    && Run(p, w, steps[..i]).channel.Some?
    && steps[i].env.slot > steps[t].env.slot + Run(p, w, steps[..i]).channel.value.challengeDuration
  }

  lemma TimeoutFollowsChallenge(p: Program, w: World, steps: seq<Step>, i: nat) returns (t: nat)
    requires Start(w) && ValidRun(p, steps) && i < |steps| && TimedOut(Run(p, w, steps[..i]), steps[i])
    ensures ChallengePeriodOver(p, w, steps, t, i)
  {
    t := ChallengeHappened(p, w, steps[..i]);
    assert steps[..i][..t] == steps[..t];
  }

  lemma AcceptedMeansCarried(v: World, s: Step)
    requires BothAccepted(v, s) && Genuine(s.env)
    ensures BothCarried(v, s)
  {
    var c := v.channel.value;
    GenuineMeansCarried(s.env, c.userPubkey, SettleMessage(c, s.ix));
    GenuineMeansCarried(s.env, c.providerPubkey, SettleMessage(c, s.ix));
  }

  /** Settlement reachability: whenever step `i` of a run settles the channel, either the account passed to
      it is accepted for both parties over the current root, or more than the challenge duration passed
      since a challenge earlier in the run. If that account is the instructions sysvar, the transaction
      itself carries both; SettlingIsCarriedIff shows that for no other account it has to. */
  lemma SettlementReachability(p: Program, w: World, steps: seq<Step>, i: nat)
    requires Start(w) && ValidRun(p, steps) && i < |steps|
    requires !Settled(Run(p, w, steps[..i])) && Settled(Run(p, w, steps[..i + 1]))
    ensures
      var (v, s) := (Run(p, w, steps[..i]), steps[i]);
      || (BothAccepted(v, s) && (Genuine(s.env) ==> BothCarried(v, s)))
      || exists t :: ChallengePeriodOver(p, w, steps, t, i)
  {
    var (v, s) := (Run(p, w, steps[..i]), steps[i]);
    assert steps[..i + 1][..i] == steps[..i] && steps[..i + 1][i] == s;
    RunKeepsInv(p, w, steps[..i]);
    EntryStep(p, v, s);
    if TimedOut(v, s) {
      var t := TimeoutFollowsChallenge(p, w, steps, i);
    } else if Genuine(s.env) {
      AcceptedMeansCarried(v, s);
    }
  }

  // ----- Runs whose transactions never name the expected program -----

  /** Every call passes the sysvar itself, and no instruction of its transaction names the program that
      the walk looks for. */
  ghost predicate NoExpectedProgram(steps: seq<Step>)
  {
    forall i :: 0 <= i < |steps| && steps[i].Call? ==>
                  Genuine(steps[i].env) && NamesNoExpectedProgram(steps[i].env.transaction)
  }

  /** In such a run no channel is ever opened, although its transactions may hold any
      instructions of the precompile. */
  lemma {:induction false} PrecompileInstructionsOpenNothing(p: Program, w: World, steps: seq<Step>)
    requires Start(w) && NoExpectedProgram(steps)
    ensures Run(p, w, steps).channel.None?
  {
    if steps != [] {
      var init, s := steps[..|steps| - 1], steps[|steps| - 1];
      PrecompileInstructionsOpenNothing(p, w, init);
      if s.Call? && s.ix.OpenChannel? {
        OpensIff(Run(p, w, init), s.env, s.ix);
      }
    }
  }

  /** The status never moves backwards, and no channel ever has an automatic closing slot. */
  lemma StatusNeverMovesBack(p: Program, w: World, steps: seq<Step>, i: nat, j: nat)
    requires Start(w) && ValidRun(p, steps) && i <= j <= |steps|
    requires Run(p, w, steps[..i]).channel.Some?
    ensures Run(p, w, steps[..j]).channel.Some?
    ensures Rank(Run(p, w, steps[..i]).channel.value.status) <= Rank(Run(p, w, steps[..j]).channel.value.status)
    ensures Run(p, w, steps[..j]).channel.value.autoCloseSlot == None
  {
    TwoStates(p, w, steps, i, j);
    RunKeepsInv(p, w, steps[..j]);
  }

  // ----- The windows of a challenge -----

  /** Neither window is open, and both gates fail because the end of the challenge does not fit. */
  predicate NoWindow(c: ChannelState, slot: u64)
  {
    HtlcGate(c, slot) == Fail(ArithmeticOverflow) && TimeoutGate(c, slot) == Fail(Panicked)
  }

  /** While Challenged no slot has both the HTLC window and the timeout; a slot has one of them
      exactly when the end of the challenge period fits u64. */
  lemma ChallengeWindows(c: ChannelState, slot: u64)
    requires ChannelInv(c) && c.status == Challenged
    ensures !(HtlcGate(c, slot).Pass? && TimeoutGate(c, slot).Pass?)
    ensures HtlcGate(c, slot).Pass? || TimeoutGate(c, slot).Pass?
            <==> c.challengeSlot.value + c.challengeDuration <= U64_MAX
  {
  }

  /** A channel with a deposit of one and the longest challenges, both parties being one key. */
  function NewChannel(key: Pubkey, mint: Pubkey, vault: Pubkey): ChannelState
  {
    ChannelState(key, key, key, mint, Open, 0, key, 1, 0, None, vault, vault, 1, 0, U64_MAX, 0, 0, None, 0, 1, [], None)
  }

  /** Opening it. */
  lemma OpenLongest(p: Program, w: World, key: Pubkey, mint: Pubkey, vault: Pubkey, call: Introspection.Instruction)
    returns (s: Step)
    requires w.channel.None? && vault in w.ledger.accounts && w.ledger.accounts[vault].mint == mint && IsSmall(call)
    ensures s.Call? && Genuine(s.env) && !s.ix.FundChannel?
    ensures Next(p, w, s) == World(Some(NewChannel(key, mint, vault)), w.ledger)
  {
    var ix := OpenChannel(key, key, key, mint, vault, vault, key, 1, 0, 0, U64_MAX, 0, key);
    var env := GenuineEnv(1, key, OpenMessage(key, 1, 0, key), call);
    s := Call(env, ix);
    assert DoOpen(w, env, ix).Ok?;
  }

  lemma ChallengeEffect(c: ChannelState, l: Ledger, env: Env, ix: Instruction)
    requires ix.TriggerChallenge? && ChallengeGuard(c, env, ix).Pass?
    ensures DoTriggerChallenge(c, l, env, ix)
            == Ok(World(Some(c.(status := Challenged, challengeSlot := Some(env.slot),
                                currentRoot := ix.submittedRoot, sequence := ix.submittedSequence)), l))
  {
  }

  /** Challenging at slot 1. */
  lemma ChallengeAtOne(p: Program, w: World, call: Introspection.Instruction) returns (s: Step, n: World)
    requires w.channel.Some? && IsSmall(call)
    requires
      var c := w.channel.value;
      c.status == Open && c.openSlot == 0 && c.minChallengeDelay == 0 && c.sequence == 0
    ensures s.Call? && Genuine(s.env) && !s.ix.FundChannel? && Next(p, w, s) == n
    ensures n == World(Some(w.channel.value.(status := Challenged, challengeSlot := Some(1), sequence := 1)), w.ledger)
  {
    var c := w.channel.value;
    var ix := TriggerChallenge(c.userPubkey, c.currentRoot, 1);
    var env := GenuineEnv(1, c.userPubkey, StateMessage(c.channelId, 1, c.currentRoot), call);
    s := Call(env, ix);
    assert ChallengeGuard(c, env, ix).Pass?;
    ChallengeEffect(c, w.ledger, env, ix);
    n := Next(p, w, s);
  }

  /** Every step is a call with the sysvar passed. */
  ghost predicate AllGenuine(steps: seq<Step>)
  {
    forall i :: 0 <= i < |steps| ==> steps[i].Call? && Genuine(steps[i].env)
  }

  lemma TwoCalls(p: Program, s: Step, t: Step)
    requires s.Call? && Genuine(s.env) && !s.ix.FundChannel?
    requires t.Call? && Genuine(t.env) && !t.ix.FundChannel?
    ensures ValidRun(p, [s, t]) && AllGenuine([s, t])
  {
  }

  lemma RunOfTwo(p: Program, w: World, s: Step, t: Step)
    ensures Run(p, w, [s, t]) == Next(p, Next(p, w, s), t)
  {
    assert [s, t][..1] == [s] && [s][..0] == [];
    assert Run(p, w, [s]) == Next(p, Run(p, w, []), s);
  }

  /** Such a state is reachable: a channel opened with the longest duration and challenged at slot 1. */
  lemma OverlongChallengeIsReachable(
    p: Program, key: Pubkey, mint: Pubkey, vault: Pubkey, call: Introspection.Instruction)
    returns (w: World, steps: seq<Step>)
    requires IsSmall(call)
    ensures Start(w) && ValidRun(p, steps) && AllGenuine(steps) && HasStatus(Run(p, w, steps), Challenged)
    ensures forall slot: u64 :: NoWindow(Run(p, w, steps).channel.value, slot)
  {
    w := World(None, Ledger(map[vault := TokenAccount(mint, key, 0, None, 0, false)], []));
    var first := OpenLongest(p, w, key, mint, vault, call);
    var second, last := ChallengeAtOne(p, World(Some(NewChannel(key, mint, vault)), w.ledger), call);
    steps := [first, second];
    TwoCalls(p, first, second);
    RunOfTwo(p, w, first, second);
    assert Run(p, w, steps) == last;
  }

  predicate LeavesChallenged(p: Program, w: World, env: Env, ix: Instruction)
  {
    Exec(p, w, env, ix).Ok? && !HasStatus(Exec(p, w, env, ix).value, Challenged)
  }

  lemma OnlyTimeoutLeavesChallenged(p: Program, w: World, env: Env, ix: Instruction)
    requires Inv(p, w) && HasStatus(w, Challenged) && LeavesChallenged(p, w, env, ix)
    ensures TimeoutGate(w.channel.value, env.slot).Pass?
  {
    if IsPayout(ix) {
      PayoutInstructions(p, w, env, ix);
    } else if ix.FinalizeSettlement? {
      FinalizeGoesForward(p, w.channel.value, w.ledger, env, ix);
    }
  }

  /** A challenged channel can be settled by some instruction at some slot exactly when its
      challenge period ends before the last slot a u64 can name. */
  lemma ChallengedCanSettle(p: Program, w: World)
    requires Inv(p, w) && HasStatus(w, Challenged)
    ensures (exists env, ix :: RuntimeRule(env) && LeavesChallenged(p, w, env, ix))
            <==> w.channel.value.challengeSlot.value + w.channel.value.challengeDuration < U64_MAX
  {
    var c := w.channel.value;
    var end := c.challengeSlot.value + c.challengeDuration;
    if env, ix :| LeavesChallenged(p, w, env, ix) {
      OnlyTimeoutLeavesChallenged(p, w, env, ix);
    }
    if end < U64_MAX {
      var env := CallAlone(end + 1, Introspection.Instruction([], c.channelId, []));
      assert RuntimeRule(env) && LeavesChallenged(p, w, env, SettleAfterTimeout(0));
    }
  }

  /** Otherwise it stays Challenged in every run, and nothing leaves escrow if not even the sum fits. */
  lemma {:induction false} OverlongChallengeIsStuck(p: Program, w: World, steps: seq<Step>)
    requires Inv(p, w) && ValidRun(p, steps) && HasStatus(w, Challenged)
    requires w.channel.value.challengeSlot.value + w.channel.value.challengeDuration >= U64_MAX
    ensures HasStatus(Run(p, w, steps), Challenged)
    ensures w.channel.value.challengeSlot.value + w.channel.value.challengeDuration > U64_MAX
            ==> Run(p, w, steps).ledger.log == w.ledger.log
  {
    if steps != [] {
      var init, s := steps[..|steps| - 1], steps[|steps| - 1];
      OverlongChallengeIsStuck(p, w, init);
      RunKeepsInv(p, w, init);
      RunGoesForward(p, w, init, 0);
      assert init[..0] == [];
      StuckStep(p, Run(p, w, init), s);
    }
  }

  lemma StuckStep(p: Program, v: World, s: Step)
    requires Inv(p, v) && HasStatus(v, Challenged)
    requires v.channel.value.challengeSlot.value + v.channel.value.challengeDuration >= U64_MAX
    ensures HasStatus(Next(p, v, s), Challenged)
    ensures v.channel.value.challengeSlot.value + v.channel.value.challengeDuration > U64_MAX
            ==> Next(p, v, s).ledger.log == v.ledger.log
  {
    if s.Call? && Exec(p, v, s.env, s.ix).Ok? {
      if LeavesChallenged(p, v, s.env, s.ix) {
        OnlyTimeoutLeavesChallenged(p, v, s.env, s.ix);
      }
      if IsPayout(s.ix) {
        PayoutPassesGate(p, v, s.env, s.ix);
      }
    }
  }

  lemma PayoutPassesGate(p: Program, w: World, env: Env, ix: Instruction)
    requires HasStatus(w, Challenged) && IsPayout(ix) && Exec(p, w, env, ix).Ok?
    ensures HtlcGate(w.channel.value, env.slot).Pass?
  {
    if ix.VerifyHtlc? {
      assert DoVerifyHtlc(p, w.channel.value, w.ledger, env, ix).Ok?;
    } else if ix.HtlcRefund? {
      assert DoHtlcRefund(p, w.channel.value, w.ledger, env, ix).Ok?;
    }
  }

  // ----- The final refund -----

  /** In every reachable Settling state no checked operation of the refund fails, the cast is
      lossless, and the two refunds are a fair split of what is unclaimed. */
  lemma ProRataRefund(p: Program, w: World, steps: seq<Step>) returns (a: u64, b: u64)
    requires Start(w) && ValidRun(p, steps) && HasStatus(Run(p, w, steps), Settling)
    ensures
      var c := Run(p, w, steps).channel.value;
      && c.totalClaimed <= c.totalDeposited
      && CheckedRefunds(c.totalDeposited - c.totalClaimed, c.depositA, c.depositB) == Ok((a, b))
      && ProRata.FairSplit(a, b, c.totalDeposited - c.totalClaimed, c.depositA, c.depositB)
  {
    RunKeepsInv(p, w, steps);
    var c := Run(p, w, steps).channel.value;
    a, b := ProRata.RefundsAreFair(c.totalDeposited - c.totalClaimed, c.depositA, c.depositB);
  }

  function Sent(escrow: Pubkey, vault: Pubkey, amount: u64): seq<TransferRecord>
  {
    if amount == 0 then [] else [TransferRecord(escrow, vault, escrow, amount)]
  }

  lemma SendLog(l: Ledger, escrow: Pubkey, vault: Pubkey, amount: u64)
    requires SendIfPositive(l, escrow, vault, amount).Ok?
    ensures SendIfPositive(l, escrow, vault, amount).value.log == l.log + Sent(escrow, vault, amount)
  {
  }

  /** The transfers of a committed refund: the first refund to the first vault, the second to the second. */
  lemma RefundsPay(l: Ledger, escrow: Pubkey, unclaimed: u64, c: ChannelState, ix: Instruction, a: u64, b: u64)
    requires ix.FinalizeSettlement? && SendRefunds(l, escrow, unclaimed, c, ix).Ok?
    requires CheckedRefunds(unclaimed, c.depositA, c.depositB) == Ok((a, b))
    ensures SendRefunds(l, escrow, unclaimed, c, ix).value.log
            == l.log + Sent(escrow, ix.refundVaultA, a) + Sent(escrow, ix.refundVaultB, b)
  {
    if unclaimed > 0 {
      SendLog(l, escrow, ix.refundVaultA, a);
      SendLog(SendIfPositive(l, escrow, ix.refundVaultA, a).value, escrow, ix.refundVaultB, b);
    }
  }

  /** Step `i` is a finalize that commits. */
  predicate Finalizes(p: Program, w: World, steps: seq<Step>, i: nat)
    requires i < |steps|
  {
    steps[i].Call? && steps[i].ix.FinalizeSettlement? && Exec(p, Run(p, w, steps[..i]), steps[i].env, steps[i].ix).Ok?
  }

  lemma FinalizeNext(p: Program, v: World, env: Env, ix: Instruction)
    requires v.channel.Some? && ix.FinalizeSettlement? && Exec(p, v, env, ix).Ok?
    ensures v.channel.value.status == Settling && v.channel.value.totalClaimed <= v.channel.value.totalDeposited
    ensures Exec(p, v, env, ix).value.channel == Some(v.channel.value.(status := Closed))
    ensures
      var c := v.channel.value;
      SendRefunds(v.ledger, p.escrowOf(c.channelId), c.totalDeposited - c.totalClaimed, c, ix)
      == Ok(Exec(p, v, env, ix).value.ledger)
  {
    assert DoFinalize(p, v.channel.value, v.ledger, env, ix).Ok?;
  }

  /** From `v` to `n`: a fair split of what was unclaimed went to the vaults that `ix` names, the user's
      part first, and the channel is Closed. */
  ghost predicate PaidFairly(p: Program, v: World, n: World, ix: Instruction, a: u64, b: u64)
    requires ix.FinalizeSettlement?
  {
    && v.channel.Some?
    && var c := v.channel.value;
    && var escrow := p.escrowOf(c.channelId);
    && c.totalClaimed <= c.totalDeposited
    && ProRata.FairSplit(a, b, c.totalDeposited - c.totalClaimed, c.depositA, c.depositB)
    && n.ledger.log == v.ledger.log + Sent(escrow, ix.refundVaultA, a) + Sent(escrow, ix.refundVaultB, b)
    && n.channel == Some(c.(status := Closed))
  }

  lemma RefundsPaidFairly(p: Program, v: World, n: World, ix: Instruction, a: u64, b: u64)
    requires v.channel.Some? && ix.FinalizeSettlement?
    requires v.channel.value.totalClaimed <= v.channel.value.totalDeposited
    requires n.channel == Some(v.channel.value.(status := Closed))
    requires
      var c := v.channel.value;
      var unclaimed := c.totalDeposited - c.totalClaimed;
      && SendRefunds(v.ledger, p.escrowOf(c.channelId), unclaimed, c, ix) == Ok(n.ledger)
      && CheckedRefunds(unclaimed, c.depositA, c.depositB) == Ok((a, b))
      && ProRata.FairSplit(a, b, unclaimed, c.depositA, c.depositB)
    ensures PaidFairly(p, v, n, ix, a, b)
  {
    var c := v.channel.value;
    RefundsPay(v.ledger, p.escrowOf(c.channelId), c.totalDeposited - c.totalClaimed, c, ix, a, b);
  }

  lemma CommitPays(p: Program, v: World, env: Env, ix: Instruction) returns (a: u64, b: u64)
    requires Inv(p, v) && v.channel.Some? && ix.FinalizeSettlement? && Exec(p, v, env, ix).Ok?
    ensures PaidFairly(p, v, Exec(p, v, env, ix).value, ix, a, b)
  {
    var c := v.channel.value;
    FinalizeNext(p, v, env, ix);
    a, b := ProRata.RefundsAreFair(c.totalDeposited - c.totalClaimed, c.depositA, c.depositB);
    RefundsPaidFairly(p, v, Exec(p, v, env, ix).value, ix, a, b);
  }

  lemma RunStep(p: Program, w: World, steps: seq<Step>, i: nat)
    requires i < |steps|
    ensures Run(p, w, steps[..i + 1]) == Next(p, Run(p, w, steps[..i]), steps[i])
  {
    assert steps[..i + 1][..i] == steps[..i];
  }

  /** Every finalize that commits in a run pays a fair split of exactly what was unclaimed. */
  lemma FinalizePays(p: Program, w: World, steps: seq<Step>, i: nat) returns (a: u64, b: u64)
    requires Start(w) && ValidRun(p, steps) && i < |steps| && Finalizes(p, w, steps, i)
    ensures PaidFairly(p, Run(p, w, steps[..i]), Run(p, w, steps[..i + 1]), steps[i].ix, a, b)
  {
    RunStep(p, w, steps, i);
    RunKeepsInv(p, w, steps[..i]);
    a, b := CommitPays(p, Run(p, w, steps[..i]), steps[i].env, steps[i].ix);
  }
}
