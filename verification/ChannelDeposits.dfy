/** Opening and funding: exactly when they commit, what they record, and that a deposit is a transfer
    (ignite-pay-program/src/lib.rs:88-190). */
module ChannelDeposits {
  import opened Bytes
  import opened TokenLedger
  import opened Channel
  import opened ChannelRuns
  import opened ChannelSettlement
  import opened ChannelClaims

  // ----- Opening -----

  predicate HoldsMint(l: Ledger, vault: Pubkey, mint: Pubkey)
  {
    vault in l.accounts && l.accounts[vault].mint == mint
  }

  /** An opening commits exactly once for an account: when its user signs for himself, both vaults hold the mint,
      the depth is at most 12, the deposit positive, and the user accepted with id, deposit, depth and root. */
  lemma OpenCommitsIff(p: Program, w: World, env: Env, ix: Instruction)
    requires ix.OpenChannel?
    ensures Exec(p, w, env, ix).Ok? <==>
              && w.channel.None? && ix.userAccount == ix.user
              && HoldsMint(w.ledger, ix.openVaultA, ix.mint) && HoldsMint(w.ledger, ix.openVaultB, ix.mint)
              && ix.treeDepth <= 12 && ix.depositA > 0
              && Accepted(env.passed.data, ix.user, OpenMessage(ix.channelId, ix.depositA, ix.treeDepth, ix.initialRoot))
  {
  }

  /** What an opening fixes for the whole life of the channel. */
  predicate OpenedOn(ix: Instruction, c: ChannelState)
    requires ix.OpenChannel?
  {
    && c.channelId == ix.channelId && c.userPubkey == ix.user && c.providerPubkey == ix.provider
    && c.tokenMint == ix.mint && c.vaultA == ix.openVaultA && c.vaultB == ix.openVaultB
    && c.depositA == ix.depositA && c.treeDepth == ix.treeDepth
    && c.openSlot == ix.openSlot && c.challengeDuration == ix.challengeDuration
    && c.minChallengeDelay == ix.minChallengeDelay
  }

  /** The rest of a new channel: nothing happened yet, and no token moves. */
  lemma OpenEffect(p: Program, w: World, env: Env, ix: Instruction)
    requires ix.OpenChannel? && Exec(p, w, env, ix).Ok?
    ensures
      var n := Exec(p, w, env, ix).value;
      && n.channel.Some? && n.ledger == w.ledger
      && var c := n.channel.value;
      && OpenedOn(ix, c)
      && c.status == Open && c.sequence == 0 && c.currentRoot == ix.initialRoot
      && c.totalDeposited == ix.depositA && c.depositB == 0 && c.totalClaimed == 0 && c.claimedLeaves == []
      && c.challengeSlot == None && c.settleDeadline == None && c.autoCloseSlot == None && c.leafCount == 1
  {
  }

  /** The user's acceptance holds neither the provider nor the vaults, slots and durations: an opening that commits
      also commits, in the same transaction, with any others of them. */
  lemma OpeningBindsNoProvider(
    p: Program, w: World, env: Env, ix: Instruction, provider: Pubkey, a: Pubkey, b: Pubkey,
    openSlot: u64, duration: u64, delay: u64)
    requires ix.OpenChannel? && Exec(p, w, env, ix).Ok?
    ensures
      Exec(p, w, env, OpenChannel(ix.user, ix.userAccount, provider, ix.mint, a, b, ix.channelId, ix.depositA,
                                  ix.treeDepth, openSlot, duration, delay, ix.initialRoot)).Ok?
      <==> HoldsMint(w.ledger, a, ix.mint) && HoldsMint(w.ledger, b, ix.mint)
  {
  }

  /** Step `s` opens the channel. */
  predicate Opens(p: Program, v: World, s: Step)
  {
    s.Call? && s.ix.OpenChannel? && Exec(p, v, s.env, s.ix).Ok?
  }

  /** A channel appears exactly in a step that opens it. */
  lemma OpensNext(p: Program, v: World, s: Step)
    ensures Opens(p, v, s) <==> v.channel.None? && Next(p, v, s).channel.Some?
    ensures Opens(p, v, s) ==> OpenedOn(s.ix, Next(p, v, s).channel.value)
  {
    if Opens(p, v, s) { OpenEffect(p, v, s.env, s.ix); }
  }

  predicate OpensAt(p: Program, w: World, steps: seq<Step>, t: nat)
    requires t < |steps|
  {
    Opens(p, Run(p, w, steps[..t]), steps[t])
  }

  /** Two states of one channel that agree on what an opening fixes. */
  predicate SameTerms(c: ChannelState, d: ChannelState)
  {
    && c.channelId == d.channelId && c.userPubkey == d.userPubkey && c.providerPubkey == d.providerPubkey
    && c.tokenMint == d.tokenMint && c.vaultA == d.vaultA && c.vaultB == d.vaultB
    && c.depositA == d.depositA && c.treeDepth == d.treeDepth && c.openSlot == d.openSlot
    && c.challengeDuration == d.challengeDuration && c.minChallengeDelay == d.minChallengeDelay
  }

  lemma StepKeepsTerms(p: Program, v: World, s: Step)
    requires v.channel.Some?
    ensures Next(p, v, s).channel.Some? && SameTerms(v.channel.value, Next(p, v, s).channel.value)
  {
    if s.Call? && Exec(p, v, s.env, s.ix).Ok? {
      if IsPayout(s.ix) {
        PayoutInstructions(p, v, s.env, s.ix);
      } else if s.ix.FinalizeSettlement? {
        FinalizeGoesForward(p, v.channel.value, v.ledger, s.env, s.ix);
      }
    }
  }

  lemma {:induction false} StaysOpen(p: Program, w: World, steps: seq<Step>, i: nat)
    requires i <= |steps| && Run(p, w, steps[..i]).channel.Some?
    ensures Run(p, w, steps).channel.Some?
    ensures SameTerms(Run(p, w, steps[..i]).channel.value, Run(p, w, steps).channel.value)
  {
    if i == |steps| {
      assert steps[..i] == steps;
    } else {
      var n := |steps| - 1;
      assert steps[..n][..i] == steps[..i];
      StaysOpen(p, w, steps[..n], i);
      StepKeepsTerms(p, Run(p, w, steps[..n]), steps[n]);
    }
  }

  lemma OpenedOnce(p: Program, w: World, steps: seq<Step>, i: nat, j: nat)
    requires i < j < |steps| && OpensAt(p, w, steps, i)
    ensures !OpensAt(p, w, steps, j)
  {
    RunStep(p, w, steps, i);
    OpensNext(p, Run(p, w, steps[..i]), steps[i]);
    assert steps[..j][..i + 1] == steps[..i + 1];
    StaysOpen(p, w, steps[..j], i + 1);
    OpensNext(p, Run(p, w, steps[..j]), steps[j]);
  }

  lemma {:induction false} FirstOpening(p: Program, w: World, steps: seq<Step>) returns (t: nat)
    requires w.channel.None? && Run(p, w, steps).channel.Some?
    ensures t < |steps| && OpensAt(p, w, steps, t)
  {
    var n := |steps| - 1;
    if Run(p, w, steps[..n]).channel.Some? {
      t := FirstOpening(p, w, steps[..n]);
      assert steps[..n][..t] == steps[..t];
    } else {
      t := n;
      OpensNext(p, Run(p, w, steps[..n]), steps[n]);
    }
  }

  /** In every reachable state the parties, the mint, both vaults, the first deposit, the slot and the durations are
      those of the one opening of the run. */
  lemma OpenedWith(p: Program, w: World, steps: seq<Step>) returns (t: nat)
    requires Start(w) && Run(p, w, steps).channel.Some?
    ensures t < |steps| && OpensAt(p, w, steps, t) && OpenedOn(steps[t].ix, Run(p, w, steps).channel.value)
    ensures forall i :: 0 <= i < |steps| && OpensAt(p, w, steps, i) ==> i == t
  {
    t := FirstOpening(p, w, steps);
    RunStep(p, w, steps, t);
    OpensNext(p, Run(p, w, steps[..t]), steps[t]);
    StaysOpen(p, w, steps, t + 1);
    forall i | 0 <= i < |steps| && OpensAt(p, w, steps, i) ensures i == t {
      if i < t { OpenedOnce(p, w, steps, i, t); }
      if t < i { OpenedOnce(p, w, steps, t, i); }
    }
  }

  // ----- Funding -----

  /** The key may take the amount out of the account, as its owner or within its allowance. */
  predicate Controls(a: TokenAccount, key: Pubkey, amount: u64)
  {
    a.owner == key || (a.delegate == Some(key) && amount <= a.delegatedAmount)
  }

  /** What a second deposit needs: an Open channel without one, its provider as signer, its second vault as
      destination, a positive amount, and a transfer of it that can be made. */
  predicate Fundable(c: ChannelState, l: Ledger, ix: Instruction)
    requires ix.FundChannel?
  {
    && c.status == Open && c.depositB == 0
    && ix.signer == c.providerPubkey && ix.fundVaultB == c.vaultB && ix.depositB > 0
    && CanTransfer(l, ix.sourceVault, c.vaultB, c.providerPubkey, ix.depositB)
    && c.totalDeposited + ix.depositB <= U64_MAX
  }

  /** From `v` to `n`: the provider moved exactly the second deposit from the source to the second vault, in one
      transfer, and it is counted. */
  ghost predicate Deposited(v: World, n: World, ix: Instruction)
    requires ix.FundChannel?
  {
    && v.channel.Some? && n.channel.Some?
    && var (c, d) := (v.channel.value, n.channel.value);
    && d.depositB == ix.depositB > c.depositB == 0 && d.totalDeposited - c.totalDeposited == ix.depositB
    && d == c.(depositB := d.depositB, totalDeposited := d.totalDeposited, leafCount := 2)
    && n.ledger.log == v.ledger.log + [TransferRecord(ix.sourceVault, c.vaultB, c.providerPubkey, ix.depositB)]
    && Moved(v.ledger, n.ledger, ix.sourceVault, c.vaultB, ix.depositB)
    && ix.sourceVault in v.ledger.accounts
    && Controls(v.ledger.accounts[ix.sourceVault], c.providerPubkey, ix.depositB)
  }

  /** One leaf for each deposit. */
  predicate CountsLeaves(w: World)
  {
    w.channel.Some? ==> w.channel.value.leafCount == if w.channel.value.depositB == 0 then 1 else 2
  }

  lemma FundCommitsIff(p: Program, w: World, env: Env, ix: Instruction)
    requires w.channel.Some? && ix.FundChannel? && CountsLeaves(w)
    ensures Exec(p, w, env, ix).Ok? <==> Fundable(w.channel.value, w.ledger, ix)
    ensures Exec(p, w, env, ix).Ok? ==> Deposited(w, Exec(p, w, env, ix).value, ix)
  {
    var (c, l) := (w.channel.value, w.ledger);
    if Fundable(c, l, ix) { TransferMoves(l, ix.sourceVault, c.vaultB, c.providerPubkey, ix.depositB); }
  }

  lemma StepCountsLeaves(p: Program, v: World, s: Step)
    requires CountsLeaves(v)
    ensures CountsLeaves(Next(p, v, s))
  {
    if s.Call? && Exec(p, v, s.env, s.ix).Ok? {
      if IsPayout(s.ix) {
        PayoutInstructions(p, v, s.env, s.ix);
      } else if s.ix.FinalizeSettlement? {
        FinalizeGoesForward(p, v.channel.value, v.ledger, s.env, s.ix);
      }
    }
  }

  lemma {:induction false} RunCountsLeaves(p: Program, w: World, steps: seq<Step>)
    requires Start(w)
    ensures CountsLeaves(Run(p, w, steps))
  {
    if steps != [] {
      RunCountsLeaves(p, w, steps[..|steps| - 1]);
      StepCountsLeaves(p, Run(p, w, steps[..|steps| - 1]), steps[|steps| - 1]);
    }
  }

  /** A fund step of a run commits exactly when the channel before it is fundable by it. Then its signer is the
      provider and its destination the second vault of the opening, and it is exactly one transfer of exactly what is
      added to the total. */
  lemma FundingOfRun(p: Program, w: World, steps: seq<Step>, i: nat) returns (t: nat)
    requires Start(w) && i < |steps| && steps[i].Call? && steps[i].ix.FundChannel?
    ensures
      var (v, ix) := (Run(p, w, steps[..i]), steps[i].ix);
      && (Commits(p, w, steps, i) <==> v.channel.Some? && Fundable(v.channel.value, v.ledger, ix))
      && (Commits(p, w, steps, i) ==>
            && t < i && OpensAt(p, w, steps, t)
            && ix.signer == steps[t].ix.provider && ix.fundVaultB == steps[t].ix.openVaultB
            && Deposited(v, Run(p, w, steps[..i + 1]), ix))
  {
    t := 0;
    var v, ix := Run(p, w, steps[..i]), steps[i].ix;
    if v.channel.Some? {
      RunCountsLeaves(p, w, steps[..i]);
      FundCommitsIff(p, v, steps[i].env, ix);
      RunStep(p, w, steps, i);
      t := OpenedWith(p, w, steps[..i]);
      assert steps[..i][..t] == steps[..t];
    }
  }

  lemma StepKeepsDeposit(p: Program, v: World, s: Step)
    requires v.channel.Some? && v.channel.value.depositB > 0
    ensures Next(p, v, s).channel.Some? && Next(p, v, s).channel.value.depositB == v.channel.value.depositB
  {
    if s.Call? && Exec(p, v, s.env, s.ix).Ok? {
      if IsPayout(s.ix) {
        PayoutInstructions(p, v, s.env, s.ix);
      } else if s.ix.FinalizeSettlement? {
        FinalizeGoesForward(p, v.channel.value, v.ledger, s.env, s.ix);
      }
    }
  }

  lemma {:induction false} DepositStays(p: Program, w: World, steps: seq<Step>, i: nat)
    requires i <= |steps| && Run(p, w, steps[..i]).channel.Some? && Run(p, w, steps[..i]).channel.value.depositB > 0
    ensures Run(p, w, steps).channel.Some?
    ensures Run(p, w, steps).channel.value.depositB == Run(p, w, steps[..i]).channel.value.depositB
  {
    if i == |steps| {
      assert steps[..i] == steps;
    } else {
      var n := |steps| - 1;
      assert steps[..n][..i] == steps[..i];
      DepositStays(p, w, steps[..n], i);
      StepKeepsDeposit(p, Run(p, w, steps[..n]), steps[n]);
    }
  }

  /** A channel is funded at most once. */
  lemma FundedAtMostOnce(p: Program, w: World, steps: seq<Step>, i: nat, j: nat)
    requires Start(w) && i < j < |steps|
    requires Commits(p, w, steps, i) && steps[i].ix.FundChannel?
    ensures !(Commits(p, w, steps, j) && steps[j].ix.FundChannel?)
  {
    var _ := FundingOfRun(p, w, steps, i);
    assert steps[..j][..i + 1] == steps[..i + 1];
    DepositStays(p, w, steps[..j], i + 1);
    if Commits(p, w, steps, j) && steps[j].ix.FundChannel? {
      var _ := FundingOfRun(p, w, steps, j);
    }
  }
}
