/** What acceptance by the introspection walk says about the transaction itself. */
module Acceptance {
  import opened Bytes
  import opened TokenLedger
  import opened Channel
  import Introspection

  /** The address of the instructions sysvar: base58 of Sysvar1nstructions and 25 ones. */
  const INSTRUCTIONS_SYSVAR_ID: Pubkey :=
    [0x06, 0xa7, 0xd5, 0x17, 0x18, 0x7b, 0xd1, 0x66, 0x35, 0xda, 0xd4, 0x04, 0x55, 0xfd, 0xc2, 0xc0,
     0xc1, 0x24, 0xc6, 0x8f, 0x21, 0x56, 0x75, 0xa5, 0xdb, 0xba, 0xcb, 0x5f, 0x08, 0x00, 0x00, 0x00]

  /** The runtime's rule: the call is an instruction of its transaction, and the sysvar holds that
      transaction in the documented layout. It says nothing about any other account. */
  ghost predicate RuntimeRule(env: Env)
  {
    && env.current < |env.transaction|
    && (env.passed.address == INSTRUCTIONS_SYSVAR_ID ==>
          && Introspection.FitsU16(env.transaction)
          && env.passed.data == Introspection.Serialize(env.transaction, env.current))
  }

  /** The sysvar itself was passed. */
  ghost predicate Genuine(env: Env)
  {
    RuntimeRule(env) && env.passed.address == INSTRUCTIONS_SYSVAR_ID
  }

  /** An instruction of the transaction before the current one carries key and message. */
  ghost predicate Carried(env: Env, key: Pubkey, message: bytes)
  {
    exists i: nat :: i < |env.transaction| && i < env.current && Introspection.IsAccepted(env.transaction[i], key, message)
  }

  /** With the sysvar passed, acceptance is exactly a statement about the transaction. */
  lemma GenuineMeansCarried(env: Env, key: Pubkey, message: bytes)
    requires Genuine(env)
    ensures Accepted(env.passed.data, key, message) <==> Carried(env, key, message)
  {
    Introspection.SysvarParserCorrect(env.transaction, env.current, key, message);
  }

  // ----- Instructions in the shape that signing libraries build -----

  /** Zeros in place of the 64 bytes of a signature, which the walk does not read. */
  function Zeros(n: nat): (b: bytes)
    ensures |b| == n
  {
    if n == 0 then [] else [0] + Zeros(n - 1)
  }

  const LONGEST_MESSAGE: nat := 60000

  /** Header, public key, signature, message. */
  function Formed(programId: Digest, key: Digest, message: bytes): Introspection.Instruction
    requires |message| <= LONGEST_MESSAGE
  {
    var offsets := Introspection.SignatureOffsets(48, 0xFFFF, 16, 0xFFFF, 112, |message|, 0xFFFF);
    Introspection.Instruction([], programId, Introspection.Header(offsets) + (key + (Zeros(64) + message)))
  }

  lemma FormedCarries(key: Digest, message: bytes)
    requires |message| <= LONGEST_MESSAGE
    ensures Introspection.IsAccepted(Formed(Introspection.EXPECTED_PROGRAM_ID, key, message), key, message)
  {
    var ix := Formed(Introspection.EXPECTED_PROGRAM_ID, key, message);
    var offsets := Introspection.SignatureOffsets(48, 0xFFFF, 16, 0xFFFF, 112, |message|, 0xFFFF);
    Introspection.AtSplit4(Introspection.Header(offsets), key, Zeros(64), message);
    assert Introspection.Carries(ix, offsets, key, message);
  }

  /** An instruction that fits a transaction on its own, as the call itself. */
  predicate IsSmall(call: Introspection.Instruction)
  {
    |call.accounts| <= U16_MAX && |call.data| <= U16_MAX
  }

  /** The transaction [carrier, call]: the first instruction carries `message` for `key`. */
  lemma GenuineEnv(slot: u64, key: Digest, message: bytes, call: Introspection.Instruction) returns (env: Env)
    requires |message| <= LONGEST_MESSAGE && IsSmall(call)
    ensures env.slot == slot && Genuine(env) && env.transaction[env.current] == call
    ensures Accepted(env.passed.data, key, message)
  {
    var carrier := Formed(Introspection.EXPECTED_PROGRAM_ID, key, message);
    var ixs := [carrier, call];
    PairFits(carrier, call);
    env := Env(slot, PassedAccount(INSTRUCTIONS_SYSVAR_ID, Introspection.Serialize(ixs, 1)), ixs, 1);
    FormedCarries(key, message);
    assert Introspection.IsAccepted(env.transaction[0], key, message);
    GenuineMeansCarried(env, key, message);
  }

  /** The transaction [call]. */
  lemma CallAlone(slot: u64, call: Introspection.Instruction) returns (env: Env)
    requires IsSmall(call)
    ensures env.slot == slot && Genuine(env)
  {
    env := Env(slot, PassedAccount(INSTRUCTIONS_SYSVAR_ID, Introspection.Serialize([call], 0)), [call], 0);
  }

  /** Account data laid out like a transaction that carries `message` for both keys. */
  function PairData(k1: Digest, k2: Digest, message: bytes): bytes
    requires |message| <= LONGEST_MESSAGE
  {
    var id := Introspection.EXPECTED_PROGRAM_ID;
    Introspection.Serialize([Formed(id, k1, message), Formed(id, k2, message)], 2)
  }

  lemma PairAccepted(k1: Digest, k2: Digest, message: bytes)
    requires |message| <= LONGEST_MESSAGE
    ensures Accepted(PairData(k1, k2, message), k1, message)
    ensures Accepted(PairData(k1, k2, message), k2, message)
  {
    var id := Introspection.EXPECTED_PROGRAM_ID;
    var ixs := [Formed(id, k1, message), Formed(id, k2, message)];
    PairFits(ixs[0], ixs[1]);
    FormedCarries(k1, message);
    FormedCarries(k2, message);
    Introspection.SysvarParserCorrect(ixs, 2, k1, message);
    Introspection.SysvarParserCorrect(ixs, 2, k2, message);
    assert Introspection.IsAccepted(ixs[0], k1, message) && Introspection.IsAccepted(ixs[1], k2, message);
  }

  lemma PairFits(a: Introspection.Instruction, b: Introspection.Instruction)
    requires a.accounts == [] && |a.data| <= 112 + LONGEST_MESSAGE && IsSmall(b)
    ensures Introspection.FitsU16([a, b])
  {
    assert [a, b][1..] == [b];
  }

  // ----- Settling cooperatively -----

  /** Whenever `call` settles this channel cooperatively with the account at `address` passed, its transaction
      carries the current root for the user and for the provider. */
  ghost predicate SettlingIsCarried(c: ChannelState, address: Pubkey, call: Introspection.Instruction)
  {
    forall env: Env, ix: Instruction |
      && ix.CooperativeSettle? && env.passed.address == address
      && RuntimeRule(env) && env.transaction[env.current] == call
      && CooperativeGuard(c, env, ix).Pass? ::
        && Carried(env, c.userPubkey, StateMessage(c.channelId, ix.sequence, c.currentRoot))
        && Carried(env, c.providerPubkey, StateMessage(c.channelId, ix.sequence, c.currentRoot))
  }

  /** Any other account can hold data with which an Open channel settles, in whatever transaction. */
  lemma SettlesWhateverTheTransaction(
    c: ChannelState, l: Ledger, slot: u64, window: u64, address: Pubkey,
    transaction: seq<Introspection.Instruction>, current: u16) returns (env: Env, ix: Instruction)
    requires c.status == Open && slot + window <= U64_MAX && address != INSTRUCTIONS_SYSVAR_ID
    requires current < |transaction|
    ensures ix == CooperativeSettle(c.sequence, c.currentRoot, window)
    ensures env.slot == slot && env.passed.address == address
    ensures env.transaction == transaction && env.current == current && RuntimeRule(env)
    ensures DoCooperativeSettle(c, l, env, ix) == EnterSettling(c, l, slot, window)
    ensures DoCooperativeSettle(c, l, env, ix).Ok?
  {
    var message := StateMessage(c.channelId, c.sequence, c.currentRoot);
    PairAccepted(c.userPubkey, c.providerPubkey, message);
    env := Env(slot, PassedAccount(address, PairData(c.userPubkey, c.providerPubkey, message)), transaction, current);
    ix := CooperativeSettle(c.sequence, c.currentRoot, window);
  }

  /** Acceptance of both parties says something about the transaction exactly for the sysvar itself, whose
      address the program does not compare; for any other account not even when the call stands alone. */
  lemma SettlingIsCarriedIff(c: ChannelState, address: Pubkey, call: Introspection.Instruction)
    requires c.status == Open
    ensures SettlingIsCarried(c, address, call) <==> address == INSTRUCTIONS_SYSVAR_ID
  {
    if address == INSTRUCTIONS_SYSVAR_ID {
      forall env: Env, ix: Instruction |
        && ix.CooperativeSettle? && env.passed.address == address
        && RuntimeRule(env) && env.transaction[env.current] == call
        && CooperativeGuard(c, env, ix).Pass?
        ensures Carried(env, c.userPubkey, StateMessage(c.channelId, ix.sequence, c.currentRoot))
        ensures Carried(env, c.providerPubkey, StateMessage(c.channelId, ix.sequence, c.currentRoot))
      {
        GenuineMeansCarried(env, c.userPubkey, StateMessage(c.channelId, ix.sequence, c.currentRoot));
        GenuineMeansCarried(env, c.providerPubkey, StateMessage(c.channelId, ix.sequence, c.currentRoot));
      }
    } else {
      var env, ix := SettlesWhateverTheTransaction(c, Ledger(map[], []), 0, 0, address, [call], 0);
      assert CooperativeGuard(c, env, ix).Pass?;
      assert !Carried(env, c.userPubkey, StateMessage(c.channelId, ix.sequence, c.currentRoot));
    }
  }

  // ----- The expected program is not the precompile -----

  lemma ExpectedProgramIsNotThePrecompile()
    ensures Introspection.EXPECTED_PROGRAM_ID != Introspection.ED25519_PRECOMPILE_ID
  {
    assert Introspection.EXPECTED_PROGRAM_ID[0] != Introspection.ED25519_PRECOMPILE_ID[0];
  }

  /** No instruction of the transaction names the expected program: for instance because every one
      that verifies signatures is the precompile's, and nothing else is deployed there. */
  predicate NamesNoExpectedProgram(transaction: seq<Introspection.Instruction>)
  {
    forall i :: 0 <= i < |transaction| ==> transaction[i].programId != Introspection.EXPECTED_PROGRAM_ID
  }

  /** The precompile's own instructions are never accepted. */
  lemma PrecompileIsNeverAccepted(ix: Introspection.Instruction, key: Digest, message: bytes)
    requires ix.programId == Introspection.ED25519_PRECOMPILE_ID
    ensures !Introspection.IsAccepted(ix, key, message)
  {
    ExpectedProgramIsNotThePrecompile();
  }

  /** Opening with the sysvar passed: exactly when its checks pass and an earlier instruction of the
      expected program carries the user's message. */
  lemma OpensIff(w: World, env: Env, ix: Instruction)
    requires ix.OpenChannel? && Genuine(env)
    ensures DoOpen(w, env, ix).Ok? <==>
              && OpenGuard(w, env, ix).Pass?
              && Carried(env, ix.user, OpenMessage(ix.channelId, ix.depositA, ix.treeDepth, ix.initialRoot))
  {
    GenuineMeansCarried(env, ix.user, OpenMessage(ix.channelId, ix.depositA, ix.treeDepth, ix.initialRoot));
  }
}
