/** What a payout and a final refund depend on, and what they leave to their caller
    (ignite-pay-program/src/lib.rs:427-905). */
module ChannelPayouts {
  import opened Bytes
  import opened TokenLedger
  import opened Channel
  import opened ChannelRuns
  import opened ChannelSettlement

  // ----- Claims -----

  /** Everything a claim checks before the payout itself. */
  predicate ClaimAdmitted(p: Program, c: ChannelState, l: Ledger, env: Env, ix: Instruction)
    requires ix.Claim?
  {
    && c.status == Settling && PayoutAccounts(c, l, ix.claimer, ix.vault).Pass?
    && c.settleDeadline.Some? && env.slot <= c.settleDeadline.value
    && ix.claimer == ix.leaf.owner && ix.leaf.index !in c.claimedLeaves
    && CheckLeafData(p, ix.leaf).Pass? && CheckProof(p, c, env, ix.claimer, ix.leaf).Pass?
  }

  /** ClaimAdmitted is what a claim checks, and the payout what it does. */
  lemma ClaimIff(p: Program, c: ChannelState, l: Ledger, env: Env, ix: Instruction)
    requires ix.Claim?
    ensures DoClaim(p, c, l, env, ix).Ok? <==>
            ClaimAdmitted(p, c, l, env, ix) && Payout(p, c, l, ix.vault, ix.leaf).Ok?
    ensures ClaimAdmitted(p, c, l, env, ix) ==> DoClaim(p, c, l, env, ix) == Payout(p, c, l, ix.vault, ix.leaf)
  {
  }

  /** The owner of a plain leaf is not read from its data: an admitted claim is admitted for any party
      that names itself, in exactly the transactions that are accepted for that party. */
  lemma ClaimBindsNoOwner(p: Program, c: ChannelState, l: Ledger, env: Env, ix: Instruction, party: Pubkey)
    requires ix.Claim? && ClaimAdmitted(p, c, l, env, ix)
    ensures ClaimAdmitted(p, c, l, env, Claim(party, ix.vault, ix.leaf.(owner := party)))
            <==> && (party == c.userPubkey || party == c.providerPubkey)
                 && Accepted(env.passed.data, party, StateMessage(c.channelId, env.slot, c.currentRoot))
  {
  }

  /** The index is not part of the proof: after a successful claim the same leaf is admitted again in the
      same transaction under exactly those indices that are not claimed yet. */
  lemma ClaimBindsNoIndex(p: Program, c: ChannelState, l: Ledger, env: Env, ix: Instruction, index: u32)
    requires ix.Claim? && DoClaim(p, c, l, env, ix).Ok?
    ensures
      var w := DoClaim(p, c, l, env, ix).value;
      && w.channel.Some?
      && w.channel.value.claimedLeaves == c.claimedLeaves + [ix.leaf.index]
      && (ClaimAdmitted(p, w.channel.value, w.ledger, env, Claim(ix.claimer, ix.vault, ix.leaf.(index := index)))
          <==> index != ix.leaf.index && index !in c.claimedLeaves)
  {
    ClaimIff(p, c, l, env, ix);
    PayoutChangesOnlyClaims(p, c, l, ix.vault, ix.leaf);
  }

  /** What a payout leaves as it was. */
  lemma PayoutChangesOnlyClaims(p: Program, c: ChannelState, l: Ledger, vault: Pubkey, leaf: Leaf)
    requires Payout(p, c, l, vault, leaf).Ok?
    ensures
      var w := Payout(p, c, l, vault, leaf).value;
      && w.channel == Some(c.(totalClaimed := c.totalClaimed + leaf.amount,
                              claimedLeaves := c.claimedLeaves + [leaf.index]))
      && w.ledger.accounts.Keys == l.accounts.Keys + (if leaf.amount == 0 then {} else {vault})
  {
  }

  /** Hash lock and time lock of an HTLC payout are the caller's words, not the leaf's: the outcome is the
      same for any two choices of preimage, lock and time lock that fit each other. */
  lemma HtlcTermsAreTheCallers(
    p: Program, c: ChannelState, l: Ledger, env: Env, ix: Instruction,
    preimage: Digest, hashLock: Digest, timelockSlot: u64)
    requires ix.VerifyHtlc?
    requires p.hash(ix.preimage) == ix.hashLock && env.slot <= ix.timelockSlot
    requires p.hash(preimage) == hashLock && env.slot <= timelockSlot
    ensures DoVerifyHtlc(p, c, l, env, VerifyHtlc(ix.claimer, ix.vault, ix.leaf, preimage, hashLock, timelockSlot))
            == DoVerifyHtlc(p, c, l, env, ix)
  {
  }

  /** So whatever a hash-locked claim pays after slot 0, the refund pays with a time lock of 0 and no preimage. */
  lemma RefundPaysWithoutPreimage(p: Program, c: ChannelState, l: Ledger, env: Env, ix: Instruction)
    requires ix.VerifyHtlc? && env.slot > 0 && DoVerifyHtlc(p, c, l, env, ix).Ok?
    ensures DoHtlcRefund(p, c, l, env, HtlcRefund(ix.claimer, ix.vault, ix.leaf, 0)) == DoVerifyHtlc(p, c, l, env, ix)
  {
  }

  /** And while Settling a plain claim pays it, again without a preimage. */
  lemma ClaimPaysHtlcLeaf(p: Program, c: ChannelState, l: Ledger, env: Env, ix: Instruction)
    requires ix.VerifyHtlc? && c.status == Settling && DoVerifyHtlc(p, c, l, env, ix).Ok?
    ensures DoClaim(p, c, l, env, Claim(ix.claimer, ix.vault, ix.leaf)) == DoVerifyHtlc(p, c, l, env, ix)
  {
  }

  // ----- The final refund -----

  /** Claims are open up to the deadline and the final refund from the deadline on. */
  predicate ClaimsOpen(c: ChannelState, slot: u64)
  {
    c.settleDeadline.Some? && slot <= c.settleDeadline.value
  }

  predicate FinalizeOpen(c: ChannelState, slot: u64)
  {
    c.settleDeadline.Some? && slot >= c.settleDeadline.value
  }

  /** A channel that enters Settling can be finalized in the same slot exactly when the window is zero, and
      claims and finalize are open together in exactly one slot, the deadline. */
  lemma WindowOfSettling(c: ChannelState, l: Ledger, slot: u64, window: u64, t: u64)
    requires EnterSettling(c, l, slot, window).Ok?
    ensures EnterSettling(c, l, slot, window).value.channel.Some?
    ensures
      var d := EnterSettling(c, l, slot, window).value.channel.value;
      && (FinalizeOpen(d, slot) <==> window == 0)
      && (ClaimsOpen(d, t) && FinalizeOpen(d, t) <==> t == slot + window)
  {
  }

  /** The guard of the final refund accepts any token accounts as vaults: it is the same for any two pairs. */
  lemma FinalizeBindsNoVault(
    c: ChannelState, l: Ledger, env: Env, caller: Pubkey, a: Pubkey, b: Pubkey, a': Pubkey, b': Pubkey)
    requires a in l.accounts && b in l.accounts && a' in l.accounts && b' in l.accounts
    ensures FinalizeGuard(c, l, env, FinalizeSettlement(caller, a', b'))
            == FinalizeGuard(c, l, env, FinalizeSettlement(caller, a, b))
  {
  }
}
