/** What every run of the settlement program keeps. */
module ChannelRuns {
  import opened Bytes
  import opened TokenLedger
  import opened Channel
  import ProRata

  // ----- Runs -----

  /** A step is one instruction, or anything other programs do to token accounts. */
  datatype Step = Call(env: Env, ix: Instruction) | Outside(accounts: map<Pubkey, TokenAccount>)

  /** The runtime commits a successful instruction and reverts a failed one. */
  function Next(p: Program, w: World, s: Step): World
  {
    match s
    case Call(env, ix) => (match Exec(p, w, env, ix) case Ok(w') => w' case Err(_) => w)
    case Outside(accounts) => w.(ledger := w.ledger.(accounts := accounts))
  }

  function Run(p: Program, w: World, steps: seq<Step>): World
  {
    if steps == [] then w
    else Next(p, Run(p, w, steps[..|steps| - 1]), steps[|steps| - 1])
  }

  /** Nothing opened, nothing sent. */
  predicate Start(w: World)
  {
    w.channel.None? && w.ledger.log == []
  }

  /** A derived escrow address has no private key, so it signs nothing by itself. */
  ghost predicate SignersHaveKeys(p: Program, s: Step)
  {
    s.Call? && s.ix.FundChannel? ==> forall id :: p.escrowOf(id) != s.ix.signer
  }

  ghost predicate ValidRun(p: Program, steps: seq<Step>)
  {
    forall i :: 0 <= i < |steps| ==> SignersHaveKeys(p, steps[i])
  }

  // ----- The invariant -----

  /** What the program accounts for as paid out of the escrow. */
  function Released(c: ChannelState): nat
  {
    if c.status == Closed then c.totalDeposited else c.totalClaimed
  }

  ghost predicate ChannelInv(c: ChannelState)
  {
    && c.depositA > 0 && c.totalDeposited == c.depositA + c.depositB
    && c.totalClaimed <= c.totalDeposited
    && c.autoCloseSlot == None
    && (c.status == Open ==> c.totalClaimed == 0 && c.claimedLeaves == [] && c.challengeSlot == None)
    && (c.status == Challenged ==> c.challengeSlot.Some?)
    && (c.status == Settling || c.status == Closed ==> c.settleDeadline.Some?)
    && NoRepeats(c.claimedLeaves)
  }

  ghost predicate Inv(p: Program, w: World)
  {
    match w.channel
    case None => w.ledger.log == []
    case Some(c) =>
      var escrow := p.escrowOf(c.channelId);
      ChannelInv(c) && Outflow(w.ledger.log, escrow) + Kept(w.ledger.log, escrow) == Released(c)
  }

  lemma OpenKeepsInv(p: Program, w: World, env: Env, ix: Instruction)
    requires Inv(p, w) && ix.OpenChannel? && DoOpen(w, env, ix).Ok?
    ensures Inv(p, DoOpen(w, env, ix).value)
  {
  }

  lemma FundKeepsInv(p: Program, c: ChannelState, l: Ledger, ix: Instruction)
    requires Inv(p, World(Some(c), l)) && ix.FundChannel? && DoFund(c, l, ix).Ok?
    requires ix.signer != p.escrowOf(c.channelId)
    ensures Inv(p, DoFund(c, l, ix).value)
  {
    var t := TransferRecord(ix.sourceVault, ix.fundVaultB, ix.signer, ix.depositB);
    FlowAppend(l.log, t, p.escrowOf(c.channelId));
  }

  lemma PayoutKeepsInv(p: Program, c: ChannelState, l: Ledger, vault: Pubkey, leaf: Leaf)
    requires Inv(p, World(Some(c), l)) && (c.status == Challenged || c.status == Settling)
    requires leaf.index !in c.claimedLeaves && Payout(p, c, l, vault, leaf).Ok?
    ensures Inv(p, Payout(p, c, l, vault, leaf).value)
  {
    var escrow := p.escrowOf(c.channelId);
    FlowAppend(l.log, TransferRecord(escrow, vault, escrow, leaf.amount), escrow);
  }

  lemma SendOutflow(l: Ledger, escrow: Pubkey, vault: Pubkey, amount: u64)
    requires SendIfPositive(l, escrow, vault, amount).Ok?
    ensures
      var log := SendIfPositive(l, escrow, vault, amount).value.log;
      && Outflow(log, escrow) == Outflow(l.log, escrow) + (if vault == escrow then 0 else amount)
      && Kept(log, escrow) == Kept(l.log, escrow) + (if vault == escrow then amount else 0)
  {
    FlowAppend(l.log, TransferRecord(escrow, vault, escrow, amount), escrow);
  }

  lemma FinalizeKeepsInv(p: Program, c: ChannelState, l: Ledger, env: Env, ix: Instruction)
    requires Inv(p, World(Some(c), l)) && ix.FinalizeSettlement? && DoFinalize(p, c, l, env, ix).Ok?
    ensures Inv(p, DoFinalize(p, c, l, env, ix).value)
  {
    var unclaimed := c.totalDeposited - c.totalClaimed;
    if unclaimed > 0 {
      var escrow := p.escrowOf(c.channelId);
      ProRata.RefundArithmeticNeverFails(unclaimed, c.depositA, c.depositB);
      var (a, b) := CheckedRefunds(unclaimed, c.depositA, c.depositB).value;
      SendOutflow(l, escrow, ix.refundVaultA, a);
      SendOutflow(SendIfPositive(l, escrow, ix.refundVaultA, a).value, escrow, ix.refundVaultB, b);
    }
  }

  predicate IsPayout(ix: Instruction)
  {
    ix.Claim? || ix.VerifyHtlc? || ix.HtlcRefund?
  }

  /** Whatever a successful payout instruction checks, its effect is Payout on an unclaimed leaf. */
  lemma PayoutInstructions(p: Program, w: World, env: Env, ix: Instruction)
    requires w.channel.Some? && Exec(p, w, env, ix).Ok?
    requires IsPayout(ix)
    ensures ix.leaf.index !in w.channel.value.claimedLeaves
    ensures w.channel.value.status == Challenged || w.channel.value.status == Settling
    ensures Exec(p, w, env, ix) == Payout(p, w.channel.value, w.ledger, ix.vault, ix.leaf)
  {
    if ix.Claim? {
      assert DoClaim(p, w.channel.value, w.ledger, env, ix).Ok?;
    } else if ix.VerifyHtlc? {
      assert DoVerifyHtlc(p, w.channel.value, w.ledger, env, ix).Ok?;
    } else {
      assert DoHtlcRefund(p, w.channel.value, w.ledger, env, ix).Ok?;
    }
  }

  lemma ExecKeepsInv(p: Program, w: World, env: Env, ix: Instruction)
    requires Inv(p, w) && SignersHaveKeys(p, Call(env, ix)) && Exec(p, w, env, ix).Ok?
    ensures Inv(p, Exec(p, w, env, ix).value)
  {
    if ix.OpenChannel? {
      OpenKeepsInv(p, w, env, ix);
    } else {
      var c, l := w.channel.value, w.ledger;
      assert w == World(Some(c), l);
      if IsPayout(ix) {
        PayoutInstructions(p, w, env, ix);
        PayoutKeepsInv(p, c, l, ix.vault, ix.leaf);
      } else if ix.FundChannel? {
        FundKeepsInv(p, c, l, ix);
      } else if ix.FinalizeSettlement? {
        FinalizeKeepsInv(p, c, l, env, ix);
      }
    }
  }

  lemma {:induction false} RunKeepsInv(p: Program, w: World, steps: seq<Step>)
    requires Inv(p, w) && ValidRun(p, steps)
    ensures Inv(p, Run(p, w, steps))
  {
    if steps != [] {
      var init, s := steps[..|steps| - 1], steps[|steps| - 1];
      RunKeepsInv(p, w, init);
      var v := Run(p, w, init);
      assert SignersHaveKeys(p, s);
      if s.Call? && Exec(p, v, s.env, s.ix).Ok? {
        ExecKeepsInv(p, v, s.env, s.ix);
      }
    }
  }

  // ----- What leaves the escrow -----

  /** Escrow accounting: in every reachable state the total is the sum of the deposits; before Closed the
      escrow's transfers add up to what was claimed, never more than was deposited, and once Closed to the
      deposits; part of them may have gone to the escrow itself. */
  lemma EscrowConservation(p: Program, w: World, steps: seq<Step>)
    requires Start(w) && ValidRun(p, steps)
    ensures
      var v := Run(p, w, steps);
      match v.channel
      case None => v.ledger.log == []
      case Some(c) =>
        && c.totalDeposited == c.depositA + c.depositB
        && c.totalClaimed <= c.totalDeposited
        && var escrow := p.escrowOf(c.channelId);
        && var transferred := Outflow(v.ledger.log, escrow) + Kept(v.ledger.log, escrow);
        && (c.status != Closed ==> transferred == c.totalClaimed)
        && (c.status == Closed ==> transferred == c.totalDeposited)
  {
    RunKeepsInv(p, w, steps);
  }

  // ----- How one state follows another -----

  function Rank(s: ChannelStatus): nat
  {
    match s
    case Open => 0
    case Challenged => 1
    case Settling => 2
    case Closed => 3
  }

  /** What holds between an earlier and a later state of one channel. */
  ghost predicate Later(c: ChannelState, d: ChannelState)
  {
    && d.channelId == c.channelId && d.userPubkey == c.userPubkey && d.providerPubkey == c.providerPubkey
    && d.challengeDuration == c.challengeDuration && d.depositA == c.depositA
    && Rank(c.status) <= Rank(d.status)
    && c.sequence <= d.sequence
    && (c.sequence == d.sequence ==> c.currentRoot == d.currentRoot)
    && (Rank(c.status) >= 2 ==> c.sequence == d.sequence && c.settleDeadline == d.settleDeadline)
    && (c.status != Open ==> c.totalDeposited == d.totalDeposited)
    && (c.challengeSlot.Some? ==> c.challengeSlot == d.challengeSlot)
    && c.totalClaimed <= d.totalClaimed && c.claimedLeaves <= d.claimedLeaves
    && (c.status == Closed ==> d == c)
  }

  ghost predicate LaterWorld(v: World, w: World)
  {
    && (v.channel.Some? ==> w.channel.Some? && Later(v.channel.value, w.channel.value))
    && (v.channel.Some? && v.channel.value.status == Closed ==> w.ledger.log == v.ledger.log)
  }

  lemma LaterTransitive(u: World, v: World, w: World)
    requires LaterWorld(u, v) && LaterWorld(v, w)
    ensures LaterWorld(u, w)
  {
  }

  lemma PayoutGoesForward(p: Program, c: ChannelState, l: Ledger, vault: Pubkey, leaf: Leaf)
    requires Payout(p, c, l, vault, leaf).Ok? && c.status != Closed
    ensures Payout(p, c, l, vault, leaf).value.channel.Some?
    ensures Later(c, Payout(p, c, l, vault, leaf).value.channel.value)
  {
  }

  lemma FinalizeGoesForward(p: Program, c: ChannelState, l: Ledger, env: Env, ix: Instruction)
    requires ix.FinalizeSettlement? && DoFinalize(p, c, l, env, ix).Ok?
    ensures c.status == Settling
    ensures DoFinalize(p, c, l, env, ix).value.channel == Some(c.(status := Closed))
  {
  }

  lemma ExecGoesForward(p: Program, w: World, env: Env, ix: Instruction)
    requires Inv(p, w) && Exec(p, w, env, ix).Ok?
    ensures LaterWorld(w, Exec(p, w, env, ix).value)
  {
    if IsPayout(ix) {
      PayoutInstructions(p, w, env, ix);
      PayoutGoesForward(p, w.channel.value, w.ledger, ix.vault, ix.leaf);
    } else if ix.FinalizeSettlement? {
      FinalizeGoesForward(p, w.channel.value, w.ledger, env, ix);
    }
  }

  /** Any two states of a run, in the order they occur. */
  lemma {:induction false} RunGoesForward(p: Program, w: World, steps: seq<Step>, i: nat)
    requires Inv(p, w) && ValidRun(p, steps) && i <= |steps|
    ensures LaterWorld(Run(p, w, steps[..i]), Run(p, w, steps))
  {
    if i == |steps| {
      assert steps[..i] == steps;
    } else {
      var init, s := steps[..|steps| - 1], steps[|steps| - 1];
      RunGoesForward(p, w, init, i);
      RunKeepsInv(p, w, init);
      assert init[..i] == steps[..i];
      var v := Run(p, w, init);
      if s.Call? && Exec(p, v, s.env, s.ix).Ok? {
        ExecGoesForward(p, v, s.env, s.ix);
      }
      LaterTransitive(Run(p, w, steps[..i]), v, Run(p, w, steps));
    }
  }

  lemma TwoStates(p: Program, w: World, steps: seq<Step>, i: nat, j: nat)
    requires Start(w) && ValidRun(p, steps) && i <= j <= |steps|
    ensures LaterWorld(Run(p, w, steps[..i]), Run(p, w, steps[..j]))
  {
    RunGoesForward(p, w, steps[..j], i);
    assert steps[..j][..i] == steps[..i];
  }

  /** The root is a function of the sequence number along a run, and frozen from Settling on. */
  lemma RootIsFunctionOfSequence(p: Program, w: World, steps: seq<Step>, i: nat, j: nat)
    requires Start(w) && ValidRun(p, steps) && i <= j <= |steps|
    requires Run(p, w, steps[..i]).channel.Some?
    ensures Run(p, w, steps[..j]).channel.Some?
    ensures
      var (c, d) := (Run(p, w, steps[..i]).channel.value, Run(p, w, steps[..j]).channel.value);
      && c.sequence <= d.sequence
      && (c.sequence == d.sequence ==> c.currentRoot == d.currentRoot)
      && (c.status == Settling || c.status == Closed ==> c.sequence == d.sequence && c.currentRoot == d.currentRoot)
  {
    TwoStates(p, w, steps, i, j);
  }

  /** A closed channel never changes again and nothing more leaves its escrow. */
  lemma ClosedIsFinal(p: Program, w: World, steps: seq<Step>, i: nat, j: nat)
    requires Start(w) && ValidRun(p, steps) && i <= j <= |steps|
    requires Run(p, w, steps[..i]).channel.Some? && Run(p, w, steps[..i]).channel.value.status == Closed
    ensures Run(p, w, steps[..j]).channel == Run(p, w, steps[..i]).channel
    ensures Run(p, w, steps[..j]).ledger.log == Run(p, w, steps[..i]).ledger.log
  {
    TwoStates(p, w, steps, i, j);
  }

  // ----- At most one payout per leaf index -----

  datatype Paid = Paid(index: u32, amount: u64)

  /** What one step paid out. */
  function PaidBy(p: Program, w: World, s: Step): seq<Paid>
  {
    if s.Call? && IsPayout(s.ix) && Exec(p, w, s.env, s.ix).Ok?
    then [Paid(s.ix.leaf.index, s.ix.leaf.amount)] else []
  }

  /** The payouts that succeeded, in order: claims, HTLC claims and HTLC refunds together. */
  function Payouts(p: Program, w: World, steps: seq<Step>): seq<Paid>
  {
    if steps == [] then []
    else
      var (init, s) := (steps[..|steps| - 1], steps[|steps| - 1]);
      Payouts(p, w, init) + PaidBy(p, Run(p, w, init), s)
  }

  function Indices(paid: seq<Paid>): seq<u32>
  {
    if paid == [] then [] else Indices(paid[..|paid| - 1]) + [paid[|paid| - 1].index]
  }

  function Amounts(paid: seq<Paid>): nat
  {
    if paid == [] then 0 else Amounts(paid[..|paid| - 1]) + paid[|paid| - 1].amount
  }

  ghost predicate Accounts(w: World, paid: seq<Paid>)
  {
    match w.channel
    case None => paid == []
    case Some(c) => c.claimedLeaves == Indices(paid) && c.totalClaimed == Amounts(paid)
  }

  lemma OtherInstructionsPayNothing(p: Program, w: World, env: Env, ix: Instruction)
    requires Inv(p, w) && Exec(p, w, env, ix).Ok?
    requires !IsPayout(ix)
    ensures
      var d := Exec(p, w, env, ix).value.channel;
      && d.Some?
      && (w.channel.None? ==> d.value.claimedLeaves == [] && d.value.totalClaimed == 0)
      && (w.channel.Some? ==> d.value.claimedLeaves == w.channel.value.claimedLeaves
                              && d.value.totalClaimed == w.channel.value.totalClaimed)
  {
    if ix.FinalizeSettlement? {
      FinalizeGoesForward(p, w.channel.value, w.ledger, env, ix);
    }
  }

  lemma AppendPaid(paid: seq<Paid>, last: Paid)
    ensures Indices(paid + [last]) == Indices(paid) + [last.index]
    ensures Amounts(paid + [last]) == Amounts(paid) + last.amount
  {
    assert (paid + [last])[..|paid|] == paid;
  }

  lemma StepIsAccounted(p: Program, w: World, s: Step, paid: seq<Paid>)
    requires Inv(p, w) && Accounts(w, paid)
    ensures Accounts(Next(p, w, s), paid + PaidBy(p, w, s))
  {
    assert paid + [] == paid;
    if s.Call? && Exec(p, w, s.env, s.ix).Ok? {
      if IsPayout(s.ix) {
        PayoutInstructions(p, w, s.env, s.ix);
        AppendPaid(paid, Paid(s.ix.leaf.index, s.ix.leaf.amount));
      } else {
        OtherInstructionsPayNothing(p, w, s.env, s.ix);
      }
    }
  }

  lemma {:induction false} PayoutsAreAccounted(p: Program, w: World, steps: seq<Step>)
    requires Start(w) && ValidRun(p, steps)
    ensures Accounts(Run(p, w, steps), Payouts(p, w, steps))
  {
    if steps != [] {
      var init, s := steps[..|steps| - 1], steps[|steps| - 1];
      PayoutsAreAccounted(p, w, init);
      RunKeepsInv(p, w, init);
      StepIsAccounted(p, Run(p, w, init), s, Payouts(p, w, init));
    }
  }

  lemma {:induction false} IndicesAt(paid: seq<Paid>, i: nat)
    requires i < |paid|
    ensures |Indices(paid)| == |paid| && Indices(paid)[i] == paid[i].index
  {
    var init := paid[..|paid| - 1];
    if i < |paid| - 1 { IndicesAt(init, i); }
    else if init != [] { IndicesAt(init, 0); }
  }

  /** At most one payout per leaf index over the whole run, even when the root is replaced in between;
      the claimed set lists exactly the paid indices and the claimed total is the sum of the payouts. */
  lemma AtMostOncePerIndex(p: Program, w: World, steps: seq<Step>)
    requires Start(w) && ValidRun(p, steps)
    ensures
      var paid := Payouts(p, w, steps);
      && (forall i, j :: 0 <= i < j < |paid| ==> paid[i].index != paid[j].index)
      && (var v := Run(p, w, steps);
          v.channel.Some? ==> v.channel.value.claimedLeaves == Indices(paid)
                              && v.channel.value.totalClaimed == Amounts(paid))
  {
    PayoutsAreAccounted(p, w, steps);
    RunKeepsInv(p, w, steps);
    var paid := Payouts(p, w, steps);
    forall i, j | 0 <= i < j < |paid|
      ensures paid[i].index != paid[j].index
    {
      IndicesAt(paid, i);
      IndicesAt(paid, j);
    }
  }
}
