/** Which leaves a channel pays, to whom and when: every payout of every run, and exactly when one commits
    (ignite-pay-program/src/lib.rs:394-777). */
module ChannelClaims {
  import opened Bytes
  import opened TokenLedger
  import opened Channel
  import opened ChannelPayouts
  import opened ChannelRuns
  import opened ChannelSettlement
  import opened ChannelRoots
  import AuditMerkle
  import MerkleProof

  // ----- What a payout is entitled by -----

  /** The data hashes to the leaf, the leaf folds to the channel's root, and bytes 33 to 41 of the data are
      the amount in little-endian order. */
  predicate LeafProven(p: Program, c: ChannelState, leaf: Leaf)
  {
    && p.hash(leaf.data) == leaf.hash
    && MerkleProof.Fold(p.hash, leaf.hash, leaf.proof) == c.currentRoot
    && |leaf.data| >= 41 && leaf.data[33..41] == LE64(leaf.amount)
  }

  /** The data is that of a hash-locked leaf of `key`. */
  predicate HtlcLeafOf(data: bytes, key: Pubkey)
  {
    |data| >= 41 && data[0] == 1 && data[1..33] == key
  }

  /** `key` is one of the two parties and accepted with this slot and the current root. */
  predicate PartyAccepted(c: ChannelState, env: Env, key: Pubkey)
  {
    && (key == c.userPubkey || key == c.providerPubkey)
    && Accepted(env.passed.data, key, StateMessage(c.channelId, env.slot, c.currentRoot))
  }

  predicate WhileSettling(c: ChannelState, slot: u64)
  {
    c.status == Settling && ClaimsOpen(c, slot)
  }

  /** During a challenge, up to its end, if that is a slot at all. */
  predicate WhileChallenged(c: ChannelState, slot: u64)
  {
    && c.status == Challenged && c.challengeSlot.Some?
    && slot <= c.challengeSlot.value + c.challengeDuration <= U64_MAX
  }

  /** What each kind of payout asks of time, and of the caller's words. */
  predicate TermsMet(p: Program, c: ChannelState, env: Env, ix: Instruction)
    requires IsPayout(ix)
  {
    match ix
    case Claim(_, _, _) => WhileSettling(c, env.slot)
    case VerifyHtlc(claimer, _, leaf, preimage, hashLock, timelockSlot) =>
      && (WhileChallenged(c, env.slot) || WhileSettling(c, env.slot))
      && HtlcLeafOf(leaf.data, claimer)
      && p.hash(preimage) == hashLock && env.slot <= timelockSlot
    case HtlcRefund(claimer, _, leaf, timelockSlot) =>
      && (WhileChallenged(c, env.slot) || WhileSettling(c, env.slot))
      && HtlcLeafOf(leaf.data, claimer)
      && env.slot > timelockSlot
  }

  predicate Entitled(p: Program, c: ChannelState, env: Env, ix: Instruction)
    requires IsPayout(ix)
  {
    && PartyAccepted(c, env, ix.claimer) && ix.claimer == ix.leaf.owner
    && LeafProven(p, c, ix.leaf) && TermsMet(p, c, env, ix)
    && ix.leaf.index !in c.claimedLeaves
  }

  /** The amount is within the deposits and the escrow can send it. */
  predicate Payable(p: Program, c: ChannelState, l: Ledger, ix: Instruction)
    requires IsPayout(ix)
  {
    var escrow := p.escrowOf(c.channelId);
    && ix.vault in l.accounts
    && c.totalClaimed + ix.leaf.amount <= c.totalDeposited
    && (ix.leaf.amount > 0 ==> CanTransfer(l, escrow, ix.vault, escrow, ix.leaf.amount))
  }

  /** From `v` to `n`: the index is claimed, the amount counted, and sent from the escrow to the vault. */
  ghost predicate PaidOut(p: Program, v: World, n: World, ix: Instruction)
    requires IsPayout(ix)
  {
    && v.channel.Some?
    && var c := v.channel.value;
    && var escrow := p.escrowOf(c.channelId);
    && c.totalClaimed + ix.leaf.amount <= c.totalDeposited
    && n.channel == Some(c.(totalClaimed := c.totalClaimed + ix.leaf.amount,
                            claimedLeaves := c.claimedLeaves + [ix.leaf.index]))
    && n.ledger.log == v.ledger.log + Sent(escrow, ix.vault, ix.leaf.amount)
    && Moved(v.ledger, n.ledger, escrow, ix.vault, ix.leaf.amount)
  }

  // ----- One call -----

  lemma AmountIff(leaf: Leaf)
    requires |leaf.data| >= 41
    ensures LeafAmount(leaf.data) == leaf.amount <==> leaf.data[33..41] == LE64(leaf.amount)
  {
    LE64Iff(leaf.data[33..41], leaf.amount);
  }

  lemma PayoutIff(p: Program, c: ChannelState, l: Ledger, ix: Instruction)
    requires IsPayout(ix) && ix.vault in l.accounts
    ensures Payout(p, c, l, ix.vault, ix.leaf).Ok? <==> Payable(p, c, l, ix)
  {
  }

  lemma ClaimCommitsIff(p: Program, c: ChannelState, l: Ledger, env: Env, ix: Instruction)
    requires ix.Claim?
    ensures Exec(p, World(Some(c), l), env, ix).Ok? <==> Entitled(p, c, env, ix) && Payable(p, c, l, ix)
  {
    if |ix.leaf.data| >= 41 { AmountIff(ix.leaf); }
    if ix.vault in l.accounts { PayoutIff(p, c, l, ix); }
    assert Exec(p, World(Some(c), l), env, ix) == DoClaim(p, c, l, env, ix);
  }

  lemma VerifyHtlcCommitsIff(p: Program, c: ChannelState, l: Ledger, env: Env, ix: Instruction)
    requires ix.VerifyHtlc?
    ensures Exec(p, World(Some(c), l), env, ix).Ok? <==> Entitled(p, c, env, ix) && Payable(p, c, l, ix)
  {
    if |ix.leaf.data| >= 41 { AmountIff(ix.leaf); }
    if ix.vault in l.accounts { PayoutIff(p, c, l, ix); }
    assert Exec(p, World(Some(c), l), env, ix) == DoVerifyHtlc(p, c, l, env, ix);
  }

  lemma HtlcRefundCommitsIff(p: Program, c: ChannelState, l: Ledger, env: Env, ix: Instruction)
    requires ix.HtlcRefund?
    ensures Exec(p, World(Some(c), l), env, ix).Ok? <==> Entitled(p, c, env, ix) && Payable(p, c, l, ix)
  {
    if |ix.leaf.data| >= 41 { AmountIff(ix.leaf); }
    if ix.vault in l.accounts { PayoutIff(p, c, l, ix); }
    assert Exec(p, World(Some(c), l), env, ix) == DoHtlcRefund(p, c, l, env, ix);
  }

  /** A payout commits exactly when its caller is entitled to the leaf and the escrow can pay it. */
  lemma PayoutCommitsIff(p: Program, w: World, env: Env, ix: Instruction)
    requires w.channel.Some? && IsPayout(ix)
    ensures Exec(p, w, env, ix).Ok?
            <==> Entitled(p, w.channel.value, env, ix) && Payable(p, w.channel.value, w.ledger, ix)
  {
    var c, l := w.channel.value, w.ledger;
    assert w == World(Some(c), l);
    match ix
    case Claim(_, _, _) => ClaimCommitsIff(p, c, l, env, ix);
    case VerifyHtlc(_, _, _, _, _, _) => VerifyHtlcCommitsIff(p, c, l, env, ix);
    case HtlcRefund(_, _, _, _) => HtlcRefundCommitsIff(p, c, l, env, ix);
  }

  lemma PayoutMoves(p: Program, c: ChannelState, l: Ledger, ix: Instruction)
    requires IsPayout(ix) && Payout(p, c, l, ix.vault, ix.leaf).Ok?
    ensures PaidOut(p, World(Some(c), l), Payout(p, c, l, ix.vault, ix.leaf).value, ix)
  {
    var escrow := p.escrowOf(c.channelId);
    if ix.leaf.amount > 0 { TransferMoves(l, escrow, ix.vault, escrow, ix.leaf.amount); }
  }

  // ----- Every payout of every run -----

  /** Step `i` of the run commits. */
  predicate Commits(p: Program, w: World, steps: seq<Step>, i: nat)
    requires i < |steps|
  {
    steps[i].Call? && Exec(p, Run(p, w, steps[..i]), steps[i].env, steps[i].ix).Ok?
  }

  predicate PayoutAt(steps: seq<Step>, i: nat)
    requires i < |steps|
  {
    steps[i].Call? && IsPayout(steps[i].ix)
  }

  /** A claim, hash-locked claim or refund of a run commits exactly when there is a channel whose state before the
      step entitles the caller and whose escrow can pay; it then pays the amount in the proven data, and nothing
      else moves. */
  lemma PayoutsOfRun(p: Program, w: World, steps: seq<Step>, i: nat)
    requires i < |steps| && PayoutAt(steps, i)
    ensures
      var (v, s) := (Run(p, w, steps[..i]), steps[i]);
      Commits(p, w, steps, i) <==>
        && v.channel.Some?
        && Entitled(p, v.channel.value, s.env, s.ix) && Payable(p, v.channel.value, v.ledger, s.ix)
    ensures Commits(p, w, steps, i) ==> PaidOut(p, Run(p, w, steps[..i]), Run(p, w, steps[..i + 1]), steps[i].ix)
  {
    var v, s := Run(p, w, steps[..i]), steps[i];
    if v.channel.Some? {
      PayoutCommitsIff(p, v, s.env, s.ix);
      if Commits(p, w, steps, i) {
        RunStep(p, w, steps, i);
        PayoutInstructions(p, v, s.env, s.ix);
        assert v == World(Some(v.channel.value), v.ledger);
        PayoutMoves(p, v.channel.value, v.ledger, s.ix);
      }
    }
  }

  /** Every paid leaf is under a root that an earlier step of the run set, with the acceptance that this
      kind of step needs. */
  lemma PaidUnderAcceptedRoot(p: Program, w: World, steps: seq<Step>, i: nat) returns (t: nat, sequence: u64)
    requires Start(w) && ValidRun(p, steps) && i < |steps| && PayoutAt(steps, i) && Commits(p, w, steps, i)
    ensures t < i
    ensures
      var leaf := steps[i].ix.leaf;
      SetsRoot(p, Run(p, w, steps[..t]), steps[t], MerkleProof.Fold(p.hash, p.hash(leaf.data), leaf.proof), sequence)
  {
    PayoutsOfRun(p, w, steps, i);
    t := RootProvenance(p, w, steps[..i]);
    sequence := Run(p, w, steps[..i]).channel.value.sequence;
    assert steps[..i][..t] == steps[..t];
  }

  /** When the root before the step is that of a list of leaves, the paid data is one of them, as long as the strings
      hashed for the root and for the proof do not collide. */
  lemma PaidDataIsALeaf(p: Program, w: World, steps: seq<Step>, i: nat, leafData: seq<bytes>, strings: set<bytes>)
    requires i < |steps| && PayoutAt(steps, i) && Commits(p, w, steps, i)
    requires Run(p, w, steps[..i]).channel.Some?
    requires Run(p, w, steps[..i]).channel.value.currentRoot == AuditMerkle.RootOf(p.hash, leafData)
    requires leafData != [] && AuditMerkle.NoLeafLooksLikeAPair(leafData) && |steps[i].ix.leaf.data| != 64
    requires
      var leaf := steps[i].ix.leaf;
      AuditMerkle.HashedStrings(p.hash, leafData) + MerkleProof.FoldStrings(p.hash, p.hash(leaf.data), leaf.proof) + {leaf.data}
      <= strings
    requires AuditMerkle.CollisionFree(p.hash, strings)
    ensures steps[i].ix.leaf.data in leafData
  {
    PayoutsOfRun(p, w, steps, i);
    var leaf := steps[i].ix.leaf;
    AuditMerkle.AcceptedProofProvesMembership(p.hash, leafData, leaf.data, leaf.proof, strings);
  }
}
