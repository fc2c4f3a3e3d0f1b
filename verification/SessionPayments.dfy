/** What a session key may do, in the terms of its registration: exactly when each instruction commits, over
    whole lives (ignite-pay-session-program/src/lib.rs:31-377). */
module SessionPayments {
  import opened Bytes
  import opened Permutations
  import opened TokenLedger
  import opened Session
  import opened SessionRuns

  // ----- What a payment needs -----

  /** What a registration fixes for the life of the session. */
  predicate RegisteredAs(reg: Instruction, s: SessionState)
    requires reg.RegisterSessionKey?
  {
    && s.owner == reg.owner && s.ephemeralSigner == reg.ephemeral && s.targetProgram == reg.targetProgram
    && s.tokenMint == reg.tokenMint && s.expiresAt == reg.expiresAt && s.spendingLimit == reg.spendingLimit
    && s.scopes == reg.scopes && s.perTxLimit == reg.perTxLimit && s.dailyTxCountLimit == reg.dailyTxCountLimit
  }

  /** The registered key signs, in time, a payment within a positive limit, with a registered scope; a token
      payment names the registered mint, which is not the default key. */
  predicate WithinTerms(reg: Instruction, now: i64, ix: Instruction)
    requires reg.RegisterSessionKey? && IsPayment(ix)
  {
    && ix.signer == reg.ephemeral && now < reg.expiresAt && ix.scope in reg.scopes
    && (reg.perTxLimit > 0 ==> ix.amount <= reg.perTxLimit)
    && (ix.ExecuteSplPayment? ==> ix.mint == reg.tokenMint != DEFAULT_KEY)
  }

  /** The payments already made in the window that `now` falls into. */
  function MadeInWindow(s: SessionState, now: i64): u32
  {
    if now - s.lastDailyReset >= 86400 then 0 else s.currentDailyCount
  }

  /** Not revoked, the time since the last reset fits its type, and one more payment of `amount` fits the daily
      limit, if there is one, and the spending limit. */
  predicate HasRoom(s: SessionState, now: i64, amount: u64)
  {
    && !s.revoked && I64_MIN <= now - s.lastDailyReset <= I64_MAX
    && (s.dailyTxCountLimit > 0 ==> MadeInWindow(s, now) < s.dailyTxCountLimit)
    && s.currentSpent + amount <= s.spendingLimit
  }

  /** The session can pay: from its lamports to an account that can take them, or by a token transfer. */
  predicate CanPay(w: World, env: Env, ix: Instruction)
    requires IsPayment(ix)
  {
    if ix.ExecutePayment? then
      && ix.amount <= BalanceOf(w.lamports, env.address)
      && (ix.recipient != env.address ==> BalanceOf(w.lamports, ix.recipient) + ix.amount <= U64_MAX)
    else CanTransfer(w.ledger, ix.sourceAta, ix.destAta, env.address, ix.amount)
  }

  /** `m` is `l` after exactly `amount` went from `from` to `to`, and no other account's lamports moved. */
  ghost predicate LamportsMoved(l: Lamports, m: Lamports, from: Pubkey, to: Pubkey, amount: nat)
  {
    forall key: Pubkey :: BalanceOf(m, key) == BalanceOf(l, key) + Change(key, from, to, amount)
  }

  /** From `v` to `n` exactly the amount went from the session to the recipient, in lamports or in tokens. */
  ghost predicate PaidBySession(v: World, n: World, env: Env, ix: Instruction)
    requires IsPayment(ix)
  {
    if ix.ExecutePayment? then
      n.ledger == v.ledger && LamportsMoved(v.lamports, n.lamports, env.address, ix.recipient, ix.amount)
    else
      && n.lamports == v.lamports && Moved(v.ledger, n.ledger, ix.sourceAta, ix.destAta, ix.amount)
      && n.ledger.log == v.ledger.log + [TransferRecord(ix.sourceAta, ix.destAta, env.address, ix.amount)]
  }

  /** From `s` to `t`: the amount is spent, one more payment counted in the window of `now`, nothing else. */
  predicate Charged(s: SessionState, t: SessionState, now: i64, amount: u64)
  {
    && t.currentSpent == s.currentSpent + amount
    && t.currentDailyCount == (if MadeInWindow(s, now) == U32_MAX then U32_MAX else MadeInWindow(s, now) + 1)
    && t.lastDailyReset == (if now - s.lastDailyReset >= 86400 then now else s.lastDailyReset)
    && t == s.(currentSpent := t.currentSpent, currentDailyCount := t.currentDailyCount, lastDailyReset := t.lastDailyReset)
  }

  lemma MoveMoves(m: Lamports, from: Pubkey, to: Pubkey, amount: u64)
    requires amount <= BalanceOf(m, from)
    ensures Move(m, from, to, amount).Ok? <==> (to != from ==> BalanceOf(m, to) + amount <= U64_MAX)
    ensures Move(m, from, to, amount).Ok? ==> LamportsMoved(m, Move(m, from, to, amount).value, from, to, amount)
  {
  }

  // ----- One payment -----

  lemma AuthorizeIff(reg: Instruction, s: SessionState, now: i64, ix: Instruction, mint: Option<Pubkey>)
    requires reg.RegisterSessionKey? && RegisteredAs(reg, s) && IsPayment(ix) && !s.revoked
    requires mint == if ix.ExecuteSplPayment? then Some(ix.mint) else None
    ensures Authorize(s, now, ix.signer, ix.amount, ix.scope, mint).Pass? <==> WithinTerms(reg, now, ix)
  {
  }

  lemma LimitsIff(s: SessionState, now: i64, amount: u64)
    requires !s.revoked
    ensures WithinLimits(s, now, amount).Pass? <==> HasRoom(s, now, amount)
    ensures HasRoom(s, now, amount) ==> Charged(s, Charge(s, now, amount), now, amount)
  {
  }

  lemma SolPaymentIff(w: World, env: Env, reg: Instruction, ix: Instruction)
    requires w.session.Some? && reg.RegisterSessionKey? && RegisteredAs(reg, w.session.value) && ix.ExecutePayment?
    ensures Exec(w, env, ix).Ok? <==>
              WithinTerms(reg, env.now, ix) && HasRoom(w.session.value, env.now, ix.amount) && CanPay(w, env, ix)
    ensures Exec(w, env, ix).Ok? ==>
              var n := Exec(w, env, ix).value;
              && n.session.Some? && Charged(w.session.value, n.session.value, env.now, ix.amount)
              && PaidBySession(w, n, env, ix)
  {
    var s := w.session.value;
    if !s.revoked {
      AuthorizeIff(reg, s, env.now, ix, None);
      LimitsIff(s, env.now, ix.amount);
      if ix.amount <= BalanceOf(w.lamports, env.address) { MoveMoves(w.lamports, env.address, ix.recipient, ix.amount); }
    }
  }

  lemma TokenPaymentIff(w: World, env: Env, reg: Instruction, ix: Instruction)
    requires w.session.Some? && reg.RegisterSessionKey? && RegisteredAs(reg, w.session.value) && ix.ExecuteSplPayment?
    ensures Exec(w, env, ix).Ok? <==>
              WithinTerms(reg, env.now, ix) && HasRoom(w.session.value, env.now, ix.amount) && CanPay(w, env, ix)
    ensures Exec(w, env, ix).Ok? ==>
              var n := Exec(w, env, ix).value;
              && n.session.Some? && Charged(w.session.value, n.session.value, env.now, ix.amount)
              && PaidBySession(w, n, env, ix)
  {
    var s := w.session.value;
    if !s.revoked {
      AuthorizeIff(reg, s, env.now, ix, Some(ix.mint));
      LimitsIff(s, env.now, ix.amount);
      if CanPay(w, env, ix) { TransferMoves(w.ledger, ix.sourceAta, ix.destAta, env.address, ix.amount); }
    }
  }

  // ----- Registration and the owner's instructions -----

  lemma {:induction false} ScopesSizeIs(scopes: seq<bytes>)
    ensures ScopesSize(scopes) == 4 * |scopes| + |Concat(scopes)|
  {
    if scopes != [] {
      var init, last := scopes[..|scopes| - 1], scopes[|scopes| - 1];
      ScopesSizeIs(init);
      ConcatSnoc(init, last);
      assert scopes == init + [last];
    }
  }

  /** A registration commits exactly where there is no session yet, for a key other than the default one, a future
      expiry, and at least one scope, all of them with a colon and together, each with a four-byte length, within the
      account's room. */
  lemma RegisterCommitsIff(w: World, env: Env, ix: Instruction)
    requires ix.RegisterSessionKey?
    ensures Exec(w, env, ix).Ok? <==>
              && w.session.None? && ix.ephemeral != DEFAULT_KEY && env.now < ix.expiresAt && ix.scopes != []
              && (forall scope :: scope in ix.scopes ==> COLON in scope) && 4 * |ix.scopes| + |Concat(ix.scopes)| <= 360
    ensures Exec(w, env, ix).Ok? ==>
              var n := Exec(w, env, ix).value;
              && n.session.Some? && RegisteredAs(ix, n.session.value)
              && n.lamports == w.lamports && n.ledger == w.ledger
  {
    ScopesSizeIs(ix.scopes);
  }

  /** What is above the rent-exempt minimum. */
  function Excess(w: World, env: Env): nat
  {
    var balance := BalanceOf(w.lamports, env.address);
    if balance <= env.rentExempt then 0 else balance - env.rentExempt
  }

  /** The owner's instructions commit exactly for the owner: a withdrawal to an account of the system program, a token
      withdrawal that can be made, one revocation, and closing a session that is revoked or expired. */
  predicate OwnerMay(w: World, env: Env, ix: Instruction)
    requires w.session.Some? && !IsPayment(ix) && !ix.RegisterSessionKey?
  {
    var s := w.session.value;
    && ix.owner == s.owner
    && match ix
       case WithdrawRemaining(_, recipient) =>
         && recipient in env.systemAccounts
         && (recipient != env.address && Excess(w, env) > 0 ==> BalanceOf(w.lamports, recipient) + Excess(w, env) <= U64_MAX)
       case WithdrawSplRemaining(_, source, dest, amount) => CanTransfer(w.ledger, source, dest, env.address, amount)
       case RevokeSession(_) => !s.revoked
       case CloseSession(owner) =>
         && (s.revoked || env.now >= s.expiresAt)
         && (owner != env.address ==>
               BalanceOf(w.lamports, owner) + BalanceOf(w.lamports, env.address) <= U64_MAX)
  }

  /** What the owner's instructions do, to the session, to lamports and to tokens. */
  ghost predicate OwnerDid(v: World, n: World, env: Env, ix: Instruction)
    requires v.session.Some? && !IsPayment(ix) && !ix.RegisterSessionKey?
  {
    match ix
    case WithdrawRemaining(_, recipient) =>
      && n.session == v.session && n.ledger == v.ledger
      && LamportsMoved(v.lamports, n.lamports, env.address, recipient, Excess(v, env))
    case WithdrawSplRemaining(_, source, dest, amount) =>
      && n.session == v.session && n.lamports == v.lamports && Moved(v.ledger, n.ledger, source, dest, amount)
      && n.ledger.log == v.ledger.log + [TransferRecord(source, dest, env.address, amount)]
    case RevokeSession(_) =>
      n.session == Some(v.session.value.(revoked := true)) && n.lamports == v.lamports && n.ledger == v.ledger
    case CloseSession(owner) =>
      && n.session == None && n.ledger == v.ledger
      && LamportsMoved(v.lamports, n.lamports, env.address, owner, BalanceOf(v.lamports, env.address))
  }

  lemma OwnerCommitsIff(w: World, env: Env, ix: Instruction)
    requires w.session.Some? && !IsPayment(ix) && !ix.RegisterSessionKey?
    ensures Exec(w, env, ix).Ok? <==> OwnerMay(w, env, ix)
    ensures Exec(w, env, ix).Ok? ==> OwnerDid(w, Exec(w, env, ix).value, env, ix)
  {
    var balance := BalanceOf(w.lamports, env.address);
    match ix
    case WithdrawRemaining(_, recipient) =>
      if balance > env.rentExempt { MoveMoves(w.lamports, env.address, recipient, balance - env.rentExempt); }
    case WithdrawSplRemaining(_, source, dest, amount) =>
      if CanTransfer(w.ledger, source, dest, env.address, amount) {
        TransferMoves(w.ledger, source, dest, env.address, amount);
      }
    case RevokeSession(_) =>
    case CloseSession(owner) => MoveMoves(w.lamports, env.address, owner, balance);
  }

  // ----- Whole lives -----

  /** The session, while it lives, is as registered. */
  predicate Keeps(reg: Instruction, w: World)
    requires reg.RegisterSessionKey?
  {
    w.session.Some? ==> RegisteredAs(reg, w.session.value)
  }

  lemma CallKeeps(reg: Instruction, w: World, call: Call)
    requires reg.RegisterSessionKey? && Keeps(reg, w) && !call.ix.RegisterSessionKey?
    ensures Keeps(reg, Next(w, call))
  {
    CallEffect(w, call);
  }

  lemma {:induction false} LifeKeeps(reg: Instruction, w: World, calls: seq<Call>)
    requires reg.RegisterSessionKey? && Keeps(reg, w)
    requires forall i :: 0 <= i < |calls| ==> !calls[i].ix.RegisterSessionKey?
    ensures Keeps(reg, Run(w, calls))
    decreases |calls|
  {
    if calls != [] {
      CallKeeps(reg, w, calls[0]);
      LifeKeeps(reg, Next(w, calls[0]), calls[1..]);
    }
  }

  /** The session that `reg` creates, after the first `i` of `calls`, as call `i` finds it. */
  function FoundAt(w: World, env: Env, reg: Instruction, calls: seq<Call>, i: nat): World
    requires Exec(w, env, reg).Ok? && i < |calls|
  {
    Found(Run(Exec(w, env, reg).value, calls[..i]), calls[i])
  }

  /** Every payment of every life, in the terms of its registration: the `i`th call pays exactly when the session
      still lives, the payment is within the terms, there is room for it, and the session can pay. It then moves
      exactly the amount from the session to the recipient, and is charged. */
  lemma PaymentsOfLife(w: World, env: Env, reg: Instruction, calls: seq<Call>, i: nat)
    requires reg.RegisterSessionKey? && Exec(w, env, reg).Ok? && OneLife(env.now, calls)
    requires i < |calls| && IsPayment(calls[i].ix)
    ensures
      var (v, e, ix) := (FoundAt(w, env, reg, calls, i), calls[i].env, calls[i].ix);
      && (Exec(v, e, ix).Ok? <==>
            && v.session.Some? && WithinTerms(reg, e.now, ix)
            && HasRoom(v.session.value, e.now, ix.amount) && CanPay(v, e, ix))
      && (Exec(v, e, ix).Ok? ==>
            var n := Exec(v, e, ix).value;
            && n.session.Some? && Charged(v.session.value, n.session.value, e.now, ix.amount)
            && PaidBySession(v, n, e, ix))
  {
    var v := FoundAt(w, env, reg, calls, i);
    RegisterCommitsIff(w, env, reg);
    LifeKeeps(reg, Exec(w, env, reg).value, calls[..i]);
    if v.session.Some? {
      if calls[i].ix.ExecutePayment? {
        SolPaymentIff(v, calls[i].env, reg, calls[i].ix);
      } else {
        TokenPaymentIff(v, calls[i].env, reg, calls[i].ix);
      }
    }
  }

  /** Every other call of a life that commits is the registered owner's. */
  lemma OnlyTheOwnerActs(w: World, env: Env, reg: Instruction, calls: seq<Call>, i: nat)
    requires reg.RegisterSessionKey? && Exec(w, env, reg).Ok? && OneLife(env.now, calls)
    requires i < |calls| && !IsPayment(calls[i].ix)
    ensures
      var (v, e, ix) := (FoundAt(w, env, reg, calls, i), calls[i].env, calls[i].ix);
      && (Exec(v, e, ix).Ok? <==> v.session.Some? && ix.owner == reg.owner && OwnerMay(v, e, ix))
      && (Exec(v, e, ix).Ok? ==> OwnerDid(v, Exec(v, e, ix).value, e, ix))
  {
    var v := FoundAt(w, env, reg, calls, i);
    RegisterCommitsIff(w, env, reg);
    LifeKeeps(reg, Exec(w, env, reg).value, calls[..i]);
    if v.session.Some? { OwnerCommitsIff(v, calls[i].env, calls[i].ix); }
  }
}
