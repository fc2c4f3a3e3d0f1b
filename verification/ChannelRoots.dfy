/** Where the root of a channel comes from (ignite-pay-program/src/lib.rs:88-348). */
module ChannelRoots {
  import opened Bytes
  import opened TokenLedger
  import opened Channel
  import opened ChannelRuns
  import opened ChannelSettlement

  /** Step `s` commits and sets root and sequence: opening, on acceptance of the user with the initial root;
      a challenge, on acceptance of the challenger alone with slot and root; or a counter state, on acceptance
      of both parties with sequence and root. */
  predicate SetsRoot(p: Program, v: World, s: Step, root: Digest, sequence: u64)
  {
    && s.Call? && Exec(p, v, s.env, s.ix).Ok?
    && match s.ix
       case OpenChannel(user, _, _, _, _, _, id, deposit, depth, _, _, _, initial) =>
         && initial == root && sequence == 0
         && Accepted(s.env.passed.data, user, OpenMessage(id, deposit, depth, root))
       case TriggerChallenge(challenger, submitted, number) =>
         && submitted == root && number == sequence && v.channel.Some?
         && (challenger == v.channel.value.userPubkey || challenger == v.channel.value.providerPubkey)
         && Accepted(s.env.passed.data, challenger, StateMessage(v.channel.value.channelId, s.env.slot, root))
       case SubmitCounterState(number, counter) =>
         && counter == root && number == sequence && v.channel.Some?
         && Accepted(s.env.passed.data, v.channel.value.userPubkey, StateMessage(v.channel.value.channelId, number, root))
         && Accepted(s.env.passed.data, v.channel.value.providerPubkey, StateMessage(v.channel.value.channelId, number, root))
       case _ => false
  }

  predicate SameRoot(v: World, w: World)
  {
    && v.channel.Some? && w.channel.Some?
    && v.channel.value.currentRoot == w.channel.value.currentRoot
    && v.channel.value.sequence == w.channel.value.sequence
  }

  lemma StepRoot(p: Program, v: World, s: Step)
    requires Inv(p, v) && Next(p, v, s).channel.Some?
    ensures
      var d := Next(p, v, s).channel.value;
      SameRoot(v, Next(p, v, s)) || SetsRoot(p, v, s, d.currentRoot, d.sequence)
  {
    if s.Call? && Exec(p, v, s.env, s.ix).Ok? {
      if IsPayout(s.ix) {
        PayoutInstructions(p, v, s.env, s.ix);
      } else if s.ix.FinalizeSettlement? {
        FinalizeGoesForward(p, v.channel.value, v.ledger, s.env, s.ix);
      }
    }
  }

  /** Provenance: in every reachable state the current root and sequence are those that some earlier step of
      the run set, with the acceptance that this kind of step needs. */
  lemma {:induction false} RootProvenance(p: Program, w: World, steps: seq<Step>) returns (t: nat)
    requires Start(w) && ValidRun(p, steps) && Run(p, w, steps).channel.Some?
    ensures t < |steps|
    ensures
      var c := Run(p, w, steps).channel.value;
      SetsRoot(p, Run(p, w, steps[..t]), steps[t], c.currentRoot, c.sequence)
  {
    var init, s := steps[..|steps| - 1], steps[|steps| - 1];
    var v := Run(p, w, init);
    RunKeepsInv(p, w, init);
    StepRoot(p, v, s);
    if SameRoot(v, Run(p, w, steps)) {
      t := RootProvenance(p, w, init);
      assert init[..t] == steps[..t];
    } else {
      t := |steps| - 1;
    }
  }

  /** The accepted message of a challenge holds the slot and not the sequence: a challenge that passes, passes
      with every larger sequence than the channel's, and with no other. */
  lemma ChallengeBindsNoSequence(c: ChannelState, env: Env, ix: Instruction, sequence: u64)
    requires ix.TriggerChallenge? && ChallengeGuard(c, env, ix).Pass?
    ensures ChallengeGuard(c, env, TriggerChallenge(ix.challenger, ix.submittedRoot, sequence)).Pass?
            <==> sequence > c.sequence
  {
  }

  /** The highest sequence is final: from a state that has it no counter state is accepted any more, and the
      root stays as it is for the rest of the run. */
  lemma HighestSequenceIsFinal(p: Program, w: World, steps: seq<Step>, i: nat, j: nat, env: Env, ix: Instruction)
    requires Start(w) && ValidRun(p, steps) && i <= j <= |steps|
    requires Run(p, w, steps[..i]).channel.Some? && Run(p, w, steps[..i]).channel.value.sequence == U64_MAX
    requires ix.SubmitCounterState?
    ensures SameRoot(Run(p, w, steps[..i]), Run(p, w, steps[..j]))
    ensures Exec(p, Run(p, w, steps[..j]), env, ix).Err?
  {
    TwoStates(p, w, steps, i, j);
  }
}
