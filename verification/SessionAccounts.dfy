/** The session account as the program updates it: one method per instruction, each proved equal
    to its specification in module Session, and the runtime that reverts failed instructions. */
module SessionAccounts {
  import opened Bytes
  import opened TokenLedger
  import opened Session
  import SessionRuns

  /** Everyone's lamports. */
  class Bank {
    var lamports: Lamports
  }

  class SessionKeyAccount {
    var initialized: bool
    var owner: Pubkey
    var ephemeralSigner: Pubkey
    var targetProgram: Pubkey
    var tokenMint: Pubkey
    var expiresAt: i64
    var spendingLimit: u64
    var currentSpent: u64
    var scopes: seq<bytes>
    var perTxLimit: u64
    var dailyTxCountLimit: u32
    var currentDailyCount: u32
    var lastDailyReset: i64
    var revoked: bool

    function State(): SessionState
      reads this
    {
      SessionState(owner, ephemeralSigner, targetProgram, tokenMint, expiresAt, spendingLimit, currentSpent, scopes,
                   perTxLimit, dailyTxCountLimit, currentDailyCount, lastDailyReset, revoked)
    }

    function View(bank: Bank, token: TokenProgram): World
      reads this, bank, token
    {
      World(if initialized then Some(State()) else None, bank.lamports, token.View())
    }

    /** The three parties are in the state `spec` prescribes, or `r` is its error. */
    ghost predicate Meets(bank: Bank, token: TokenProgram, spec: Result<World>, r: Outcome)
      reads this, bank, token
    {
      match spec
      case Ok(w) => r == Pass && View(bank, token) == w
      case Err(e) => r == Fail(e)
    }

    /** The fields fixed at registration. */
    method StoreTerms(v: SessionState)
      modifies this`owner, this`ephemeralSigner, this`targetProgram, this`tokenMint, this`expiresAt
      modifies this`spendingLimit, this`perTxLimit
      ensures owner == v.owner && ephemeralSigner == v.ephemeralSigner && targetProgram == v.targetProgram
      ensures tokenMint == v.tokenMint && expiresAt == v.expiresAt && spendingLimit == v.spendingLimit
      ensures perTxLimit == v.perTxLimit
    {
      owner := v.owner;
      ephemeralSigner := v.ephemeralSigner;
      targetProgram := v.targetProgram;
      tokenMint := v.tokenMint;
      expiresAt := v.expiresAt;
      spendingLimit := v.spendingLimit;
      perTxLimit := v.perTxLimit;
    }

    method Store(s: Option<SessionState>)
      modifies this
      ensures initialized == s.Some? && (s.Some? ==> State() == s.value)
    {
      initialized := s.Some?;
      if s.Some? {
        var v := s.value;
        StoreTerms(v);
        currentSpent := v.currentSpent;
        scopes := v.scopes;
        dailyTxCountLimit := v.dailyTxCountLimit;
        currentDailyCount := v.currentDailyCount;
        lastDailyReset := v.lastDailyReset;
        revoked := v.revoked;
      }
    }

    method RegisterSessionKey(bank: Bank, token: TokenProgram, env: Env, ix: Instruction) returns (r: Outcome)
      requires ix.RegisterSessionKey?
      modifies this
      ensures Meets(bank, token, DoRegister(old(View(bank, token)), env, ix), r)
    {
      if initialized {
        return Fail(AccountAlreadyInUse);
      }
      if ix.ephemeral == DEFAULT_KEY {
        return Fail(InvalidScope);
      }
      if ix.expiresAt <= env.now {
        return Fail(SessionExpired);
      }
      if ix.scopes == [] {
        return Fail(InvalidScope);
      }
      for i := 0 to |ix.scopes|
        invariant forall j :: 0 <= j < i ==> COLON in ix.scopes[j]
      {
        if COLON !in ix.scopes[i] {
          return Fail(InvalidScope);
        }
      }
      Store(Some(SessionState(
        ix.owner, ix.ephemeral, ix.targetProgram, ix.tokenMint, ix.expiresAt, ix.spendingLimit, 0,
        ix.scopes, ix.perTxLimit, ix.dailyTxCountLimit, 0, env.now, false)));
      // Anchor writes the account back when the instruction ends.
      r := if ScopesSize(ix.scopes) <= SCOPES_SPACE then Pass else Fail(AccountDidNotSerialize);
    }

    /** The checks that only read the session. */
    method CheckAuthorized(now: i64, signer: Pubkey, amount: u64, scope: bytes, mint: Option<Pubkey>) returns (r: Outcome)
      ensures r == Authorize(State(), now, signer, amount, scope, mint)
    {
      if revoked {
        return Fail(SessionRevoked);
      }
      if ephemeralSigner != signer {
        return Fail(Unauthorized);
      }
      if now >= expiresAt {
        return Fail(SessionExpired);
      }
      if scope !in scopes {
        return Fail(ScopeNotPermitted);
      }
      if mint.Some? {
        if tokenMint != mint.value {
          return Fail(InvalidMint);
        }
        if tokenMint == DEFAULT_KEY {
          return Fail(SolSessionOnly);
        }
      }
      if perTxLimit > 0 && amount > perTxLimit {
        return Fail(PerTxLimitExceeded);
      }
      r := Pass;
    }

    /** Restarts the daily window if it is over, then checks the limits. */
    method RollAndCheck(now: i64, amount: u64) returns (r: Outcome)
      modifies this`currentDailyCount, this`lastDailyReset
      ensures r == WithinLimits(old(State()), now, amount)
      ensures r.Pass? ==> State() == Roll(old(State()), now)
    {
      if now - lastDailyReset > I64_MAX || now - lastDailyReset < I64_MIN {
        return Fail(Panicked);
      }
      if now - lastDailyReset >= DAY {
        currentDailyCount := 0;
        lastDailyReset := now;
      }
      if dailyTxCountLimit > 0 {
        if currentDailyCount + 1 > U32_MAX {
          return Fail(Panicked);
        }
        if currentDailyCount + 1 > dailyTxCountLimit {
          return Fail(DailyTxCountExceeded);
        }
      }
      if currentSpent + amount > U64_MAX {
        return Fail(ArithmeticOverflow);
      }
      var newSpent := currentSpent + amount;
      r := if newSpent <= spendingLimit then Pass else Fail(SpendingLimitExceeded);
    }

    /** Records a payment on the rolled window. */
    method Record(amount: u64)
      requires currentSpent + amount <= U64_MAX
      modifies this`currentSpent, this`currentDailyCount
      ensures currentSpent == old(currentSpent) + amount
      ensures currentDailyCount == if old(currentDailyCount) < U32_MAX then old(currentDailyCount) + 1 else U32_MAX
    {
      currentSpent := currentSpent + amount;
      if currentDailyCount < U32_MAX {
        currentDailyCount := currentDailyCount + 1;
      }
    }

    /** Direct lamport manipulation: debit first, then credit. */
    method MoveLamports(bank: Bank, from: Pubkey, to: Pubkey, amount: u64) returns (r: Outcome)
      requires amount <= BalanceOf(bank.lamports, from)
      modifies bank
      ensures
        match Move(old(bank.lamports), from, to, amount)
        case Ok(m) => r == Pass && bank.lamports == m
        case Err(e) => r == Fail(e)
    {
      bank.lamports := bank.lamports[from := BalanceOf(bank.lamports, from) - amount];
      if BalanceOf(bank.lamports, to) + amount > U64_MAX {
        return Fail(Panicked);
      }
      bank.lamports := bank.lamports[to := BalanceOf(bank.lamports, to) + amount];
      r := Pass;
    }

    method ExecutePayment(bank: Bank, token: TokenProgram, env: Env, ix: Instruction) returns (r: Outcome)
      requires ix.ExecutePayment? && initialized
      modifies this, bank
      ensures Meets(bank, token, DoPayment(old(State()), old(View(bank, token)), env, ix), r)
    {
      r := CheckAuthorized(env.now, ix.signer, ix.amount, ix.scope, None);
      if r.Fail? {
        return;
      }
      r := RollAndCheck(env.now, ix.amount);
      if r.Fail? {
        return;
      }
      if BalanceOf(bank.lamports, env.address) < ix.amount {
        return Fail(InsufficientVaultBalance);
      }
      r := MoveLamports(bank, env.address, ix.recipient, ix.amount);
      if r.Fail? {
        return;
      }
      Record(ix.amount);
    }

    method ExecuteSplPayment(bank: Bank, token: TokenProgram, env: Env, ix: Instruction) returns (r: Outcome)
      requires ix.ExecuteSplPayment? && initialized
      modifies this, token
      ensures Meets(bank, token, DoSplPayment(old(State()), old(View(bank, token)), env, ix), r)
    {
      r := CheckAuthorized(env.now, ix.signer, ix.amount, ix.scope, Some(ix.mint));
      if r.Fail? {
        return;
      }
      r := RollAndCheck(env.now, ix.amount);
      if r.Fail? {
        return;
      }
      var sent := token.Transfer(ix.sourceAta, ix.destAta, env.address, ix.amount);
      if !sent {
        return Fail(TransferFailed);
      }
      Record(ix.amount);
    }

    method WithdrawRemaining(bank: Bank, token: TokenProgram, env: Env, ix: Instruction) returns (r: Outcome)
      requires ix.WithdrawRemaining? && initialized
      modifies bank
      ensures Meets(bank, token, DoWithdraw(State(), old(View(bank, token)), env, ix), r)
    {
      if owner != ix.owner {
        return Fail(Unauthorized);
      }
      if ix.recipient !in env.systemAccounts {
        return Fail(NotSystemAccount);
      }
      var balance := BalanceOf(bank.lamports, env.address);
      var withdrawAmount: u64 := if balance <= env.rentExempt then 0 else balance - env.rentExempt;
      if withdrawAmount == 0 {
        return Pass;
      }
      r := MoveLamports(bank, env.address, ix.recipient, withdrawAmount);
    }

    method WithdrawSplRemaining(bank: Bank, token: TokenProgram, env: Env, ix: Instruction) returns (r: Outcome)
      requires ix.WithdrawSplRemaining? && initialized
      modifies token
      ensures Meets(bank, token, DoWithdrawSpl(State(), old(View(bank, token)), env, ix), r)
    {
      if owner != ix.owner {
        return Fail(Unauthorized);
      }
      var sent := token.Transfer(ix.sourceAta, ix.destAta, env.address, ix.amount);
      r := if sent then Pass else Fail(TransferFailed);
    }

    method RevokeSession(bank: Bank, token: TokenProgram, ix: Instruction) returns (r: Outcome)
      requires ix.RevokeSession? && initialized
      modifies this
      ensures Meets(bank, token, DoRevoke(old(State()), old(View(bank, token)), ix), r)
    {
      if owner != ix.owner {
        return Fail(Unauthorized);
      }
      if revoked {
        return Fail(SessionRevoked);
      }
      revoked := true;
      r := Pass;
    }

    method CloseSession(bank: Bank, token: TokenProgram, env: Env, ix: Instruction) returns (r: Outcome)
      requires ix.CloseSession? && initialized
      modifies this, bank
      ensures Meets(bank, token, DoClose(old(State()), old(View(bank, token)), env, ix), r)
    {
      if owner != ix.owner {
        return Fail(Unauthorized);
      }
      if !revoked && env.now < expiresAt {
        return Fail(SessionStillActive);
      }
      r := MoveLamports(bank, env.address, ix.owner, BalanceOf(bank.lamports, env.address));
      initialized := false;
    }

    method Dispatch(bank: Bank, token: TokenProgram, env: Env, ix: Instruction) returns (r: Outcome)
      modifies this, bank, token
      ensures Meets(bank, token, Exec(old(View(bank, token)), env, ix), r)
    {
      if !ix.RegisterSessionKey? && !initialized {
        return Fail(AccountNotInitialized);
      }
      match ix
      case RegisterSessionKey(_, _, _, _, _, _, _, _, _) => r := RegisterSessionKey(bank, token, env, ix);
      case ExecutePayment(_, _, _, _) => r := ExecutePayment(bank, token, env, ix);
      case ExecuteSplPayment(_, _, _, _, _, _) => r := ExecuteSplPayment(bank, token, env, ix);
      case WithdrawRemaining(_, _) => r := WithdrawRemaining(bank, token, env, ix);
      case WithdrawSplRemaining(_, _, _, _) => r := WithdrawSplRemaining(bank, token, env, ix);
      case RevokeSession(_) => r := RevokeSession(bank, token, ix);
      case CloseSession(_) => r := CloseSession(bank, token, env, ix);
    }

    /** The runtime: whatever a failed instruction already wrote is undone. */
    method Process(bank: Bank, token: TokenProgram, env: Env, ix: Instruction) returns (r: Outcome)
      modifies this, bank, token
      ensures r.Pass? <==> Exec(old(View(bank, token)), env, ix).Ok?
      ensures r.Fail? ==> Exec(old(View(bank, token)), env, ix) == Err(r.error)
      ensures View(bank, token) ==
              SessionRuns.Next(old(View(bank, token)), SessionRuns.Call(env, ix, SessionRuns.Around(old(View(bank, token)))))
    {
      var before := View(bank, token);
      r := Dispatch(bank, token, env, ix);
      if r.Fail? {
        Store(before.session);
        bank.lamports := before.lamports;
        token.accounts, token.log := before.ledger.accounts, before.ledger.log;
      }
    }
  }
}
