/** Challenges, counter states and the ways into Settling: exactly when each commits and what it records
    (ignite-pay-program/src/lib.rs:194-390). */
module ChannelDisputes {
  import opened Bytes
  import opened TokenLedger
  import opened Channel
  import opened ChannelRuns
  import opened ChannelSettlement
  import opened ChannelClaims
  import opened ChannelDeposits

  predicate BothAgree(c: ChannelState, env: Env, sequence: u64, root: Digest)
  {
    && Accepted(env.passed.data, c.userPubkey, StateMessage(c.channelId, sequence, root))
    && Accepted(env.passed.data, c.providerPubkey, StateMessage(c.channelId, sequence, root))
  }

  // ----- Challenge and counter state -----

  /** A challenge commits exactly on an Open channel, by one of its parties, from the minimum delay after the open
      slot on, with a larger sequence, and accepted for the challenger with slot and root. */
  lemma ChallengeCommitsIff(p: Program, w: World, env: Env, ix: Instruction)
    requires w.channel.Some? && ix.TriggerChallenge?
    ensures
      var c := w.channel.value;
      Exec(p, w, env, ix).Ok? <==>
        && c.status == Open && (ix.challenger == c.userPubkey || ix.challenger == c.providerPubkey)
        && env.slot - c.openSlot >= c.minChallengeDelay && ix.submittedSequence > c.sequence
        && Accepted(env.passed.data, ix.challenger, StateMessage(c.channelId, env.slot, ix.submittedRoot))
    ensures Exec(p, w, env, ix).Ok? ==>
              var (c, n) := (w.channel.value, Exec(p, w, env, ix).value);
              && n.ledger == w.ledger
              && n.channel == Some(c.(status := Challenged, challengeSlot := Some(env.slot),
                                      currentRoot := ix.submittedRoot, sequence := ix.submittedSequence))
  {
  }

  /** A committed challenge came no earlier than the open slot plus the minimum delay that the opening of the
      run named. */
  lemma ChallengeWaits(p: Program, w: World, steps: seq<Step>, i: nat) returns (t: nat)
    requires Start(w) && i < |steps| && Commits(p, w, steps, i) && steps[i].ix.TriggerChallenge?
    ensures t < i && OpensAt(p, w, steps, t)
    ensures steps[i].env.slot >= steps[t].ix.openSlot + steps[t].ix.minChallengeDelay
    ensures steps[i].ix.challenger == steps[t].ix.user || steps[i].ix.challenger == steps[t].ix.provider
  {
    var v := Run(p, w, steps[..i]);
    t := OpenedWith(p, w, steps[..i]);
    assert steps[..i][..t] == steps[..t];
    ChallengeCommitsIff(p, v, steps[i].env, steps[i].ix);
  }

  /** While Challenged every later state that both parties accepted is taken, and no other; the time plays no part. */
  lemma CounterStateCommitsIff(p: Program, w: World, env: Env, ix: Instruction)
    requires w.channel.Some? && ix.SubmitCounterState?
    ensures
      var c := w.channel.value;
      Exec(p, w, env, ix).Ok? <==>
        c.status == Challenged && ix.sequence > c.sequence && BothAgree(c, env, ix.sequence, ix.root)
    ensures Exec(p, w, env, ix).Ok? ==>
              var (c, n) := (w.channel.value, Exec(p, w, env, ix).value);
              n.ledger == w.ledger && n.channel == Some(c.(sequence := ix.sequence, currentRoot := ix.root))
  {
  }

  /** Between two challenged states of a run, the root is the one of the last counter state: after a committed counter
      state the root changes only to that of a later one that both parties accepted. */
  lemma OnlyLaterAgreedStatesReplace(p: Program, v: World, s: Step)
    requires Inv(p, v) && HasStatus(v, Challenged) && Next(p, v, s).channel.Some?
    ensures
      var (c, d) := (v.channel.value, Next(p, v, s).channel.value);
      d.currentRoot != c.currentRoot || d.sequence != c.sequence ==>
        && s.Call? && d.status == Challenged && d.sequence > c.sequence
        && BothAgree(c, s.env, d.sequence, d.currentRoot)
  {
    if s.Call? && Exec(p, v, s.env, s.ix).Ok? {
      if IsPayout(s.ix) {
        PayoutInstructions(p, v, s.env, s.ix);
      } else if s.ix.FinalizeSettlement? {
        FinalizeGoesForward(p, v.channel.value, v.ledger, s.env, s.ix);
      }
    }
  }

  // ----- Into Settling -----

  /** From `v` to `n`: Settling, with a deadline `window` slots after `slot`, and nothing else changed. */
  predicate SettlingFrom(v: World, n: World, slot: u64, window: u64)
  {
    && v.channel.Some? && n.channel.Some? && n.ledger == v.ledger
    && slot + window <= U64_MAX
    && n.channel == Some(v.channel.value.(status := Settling, settleDeadline := Some(slot + window)))
  }

  /** A cooperative settle commits exactly on an Open channel, with its current root, no smaller sequence, a deadline
      that fits u64, and both parties accepted with sequence and root. */
  lemma CooperativeSettleCommitsIff(p: Program, w: World, env: Env, ix: Instruction)
    requires w.channel.Some? && ix.CooperativeSettle?
    ensures
      var c := w.channel.value;
      Exec(p, w, env, ix).Ok? <==>
        && c.status == Open && ix.root == c.currentRoot && ix.sequence >= c.sequence
        && BothAgree(c, env, ix.sequence, c.currentRoot) && env.slot + ix.settleWindow <= U64_MAX
    ensures Exec(p, w, env, ix).Ok? ==> SettlingFrom(w, Exec(p, w, env, ix).value, env.slot, ix.settleWindow)
  {
  }

  /** In a reachable state a settle after timeout commits exactly when the channel is Challenged, more than the
      challenge duration has passed, and the deadline fits u64; nobody needs to be accepted. */
  lemma TimeoutCommitsIff(p: Program, w: World, env: Env, ix: Instruction)
    requires Inv(p, w) && w.channel.Some? && ix.SettleAfterTimeout?
    ensures
      var c := w.channel.value;
      Exec(p, w, env, ix).Ok? <==>
        && c.status == Challenged && c.challengeSlot.Some?
        && env.slot - c.challengeSlot.value > c.challengeDuration && env.slot + ix.settleWindow <= U64_MAX
    ensures Exec(p, w, env, ix).Ok? ==> SettlingFrom(w, Exec(p, w, env, ix).value, env.slot, ix.settleWindow)
  {
  }
}
