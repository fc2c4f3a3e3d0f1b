/** The session-key program (ignite-pay-session-program/src/lib.rs): what each instruction does. */
module Session {
  import opened Bytes
  import opened TokenLedger

  const DAY: int := 86400

  /** The all-zero key: marks a SOL session, and is refused as session key. */
  const DEFAULT_KEY: Pubkey := [0, 0, 0, 0, 0, 0, 0, 0, 0, 0, 0, 0, 0, 0, 0, 0,
                                0, 0, 0, 0, 0, 0, 0, 0, 0, 0, 0, 0, 0, 0, 0, 0]

  datatype SessionError =
    | SessionRevoked | SessionExpired | SpendingLimitExceeded | ScopeNotPermitted | Unauthorized
    | SessionStillActive | ArithmeticOverflow | InvalidScope | InvalidMint | SolSessionOnly
    | PerTxLimitExceeded | DailyTxCountExceeded | InsufficientVaultBalance
      // Raised by the runtime or by Anchor, not by the program:
    | Panicked | AccountAlreadyInUse | AccountNotInitialized | NotSystemAccount | TransferFailed
    | AccountDidNotSerialize

  datatype Outcome = Pass | Fail(error: SessionError) {
    predicate IsFailure() { Fail? }
    function PropagateFailure<T>(): Result<T>
      requires Fail?
    {
      Err(error)
    }
  }

  datatype Result<+T> = Ok(value: T) | Err(error: SessionError) {
    predicate IsFailure() { Err? }
    function PropagateFailure<U>(): Result<U>
      requires Err?
    {
      Err(error)
    }
    function Extract(): T
      requires Ok?
    {
      value
    }
  }

  function Need(condition: bool, error: SessionError): Outcome
  {
    if condition then Pass else Fail(error)
  }

  datatype SessionState = SessionState(
    owner: Pubkey, ephemeralSigner: Pubkey, targetProgram: Pubkey, tokenMint: Pubkey,
    expiresAt: i64, spendingLimit: u64, currentSpent: u64, scopes: seq<bytes>, perTxLimit: u64,
    dailyTxCountLimit: u32, currentDailyCount: u32, lastDailyReset: i64, revoked: bool)

  type Lamports = map<Pubkey, u64>

  /** The session account, if registered and not closed; everyone's lamports; token accounts. */
  datatype World = World(session: Option<SessionState>, lamports: Lamports, ledger: Ledger)

  /** Address of the session account; clock; rent-exempt minimum of the account; which accounts the system
      program owns. */
  datatype Env = Env(address: Pubkey, now: i64, rentExempt: u64, systemAccounts: set<Pubkey>)

  datatype Instruction =
    | RegisterSessionKey(owner: Pubkey, ephemeral: Pubkey, targetProgram: Pubkey, expiresAt: i64, spendingLimit: u64,
                         scopes: seq<bytes>, tokenMint: Pubkey, perTxLimit: u64, dailyTxCountLimit: u32)
    | ExecutePayment(signer: Pubkey, recipient: Pubkey, amount: u64, scope: bytes)
    | ExecuteSplPayment(signer: Pubkey, sourceAta: Pubkey, destAta: Pubkey, mint: Pubkey, amount: u64, scope: bytes)
    | WithdrawRemaining(owner: Pubkey, recipient: Pubkey)
    | WithdrawSplRemaining(owner: Pubkey, sourceAta: Pubkey, destAta: Pubkey, amount: u64)
    | RevokeSession(owner: Pubkey)
    | CloseSession(owner: Pubkey)

  predicate IsPayment(ix: Instruction)
  {
    ix.ExecutePayment? || ix.ExecuteSplPayment?
  }

  // ----- Lamports -----

  function BalanceOf(m: Lamports, key: Pubkey): (n: u64)
  {
    if key in m then m[key] else 0
  }

  /** Takes from one account, then adds to the other, reading the second after the first was written. */
  function Move(m: Lamports, from: Pubkey, to: Pubkey, amount: u64): Result<Lamports>
    requires amount <= BalanceOf(m, from)
  {
    var m' := m[from := BalanceOf(m, from) - amount];
    :- Need(BalanceOf(m', to) + amount <= U64_MAX, Panicked);
    Ok(m'[to := BalanceOf(m', to) + amount])
  }

  // ----- Register -----

  /** Scopes are UTF-8 texts. */
  predicate AllScopesHaveColon(scopes: seq<bytes>)
  {
    forall i :: 0 <= i < |scopes| ==> COLON in scopes[i]
  }

  /** Room in the account: ten scopes of 32 bytes, each with its four-byte length. */
  const SCOPES_SPACE: nat := 10 * (4 + 32)

  function ScopesSize(scopes: seq<bytes>): nat
  {
    if scopes == [] then 0 else ScopesSize(scopes[..|scopes| - 1]) + 4 + |scopes[|scopes| - 1]|
  }

  function DoRegister(w: World, env: Env, ix: Instruction): Result<World>
    requires ix.RegisterSessionKey?
  {
    if w.session.Some? then Err(AccountAlreadyInUse) else
    :- Need(ix.ephemeral != DEFAULT_KEY, InvalidScope);
    :- Need(ix.expiresAt > env.now, SessionExpired);
    :- Need(ix.scopes != [], InvalidScope);
    :- Need(AllScopesHaveColon(ix.scopes), InvalidScope);
    :- Need(ScopesSize(ix.scopes) <= SCOPES_SPACE, AccountDidNotSerialize);
    var s := SessionState(
      ix.owner, ix.ephemeral, ix.targetProgram, ix.tokenMint, ix.expiresAt, ix.spendingLimit, 0,
      ix.scopes, ix.perTxLimit, ix.dailyTxCountLimit, 0, env.now, false);
    Ok(w.(session := Some(s)))
  }

  // ----- Payments -----

  /** The daily window restarts at the first payment at least a day after its start. */
  function Roll(s: SessionState, now: i64): SessionState
  {
    if now - s.lastDailyReset >= DAY then s.(currentDailyCount := 0, lastDailyReset := now) else s
  }

  /** Checks on the key and the session; `mint` is given for token payments only. */
  function Authorize(s: SessionState, now: i64, signer: Pubkey, amount: u64, scope: bytes, mint: Option<Pubkey>): Outcome
  {
    if s.revoked then Fail(SessionRevoked)
    else if s.ephemeralSigner != signer then Fail(Unauthorized)
    else if now >= s.expiresAt then Fail(SessionExpired)
    else if scope !in s.scopes then Fail(ScopeNotPermitted)
    else if mint.Some? && s.tokenMint != mint.value then Fail(InvalidMint)
    else if mint.Some? && s.tokenMint == DEFAULT_KEY then Fail(SolSessionOnly)
    else Need(s.perTxLimit == 0 || amount <= s.perTxLimit, PerTxLimitExceeded)
  }

  /** Checks on the counters, after the window was rolled. */
  function WithinLimits(s: SessionState, now: i64, amount: u64): Outcome
  {
    if now - s.lastDailyReset > I64_MAX || now - s.lastDailyReset < I64_MIN then Fail(Panicked)
    else
      var r := Roll(s, now);
      if r.dailyTxCountLimit > 0 && r.currentDailyCount + 1 > U32_MAX then Fail(Panicked)
      else if r.dailyTxCountLimit > 0 && r.currentDailyCount + 1 > r.dailyTxCountLimit then Fail(DailyTxCountExceeded)
      else if s.currentSpent + amount > U64_MAX then Fail(ArithmeticOverflow)
      else Need(s.currentSpent + amount <= s.spendingLimit, SpendingLimitExceeded)
  }

  /** The counters after a payment; the daily count saturates. */
  function Charge(s: SessionState, now: i64, amount: u64): SessionState
    requires s.currentSpent + amount <= U64_MAX
  {
    var r := Roll(s, now);
    r.(currentSpent := s.currentSpent + amount,
       currentDailyCount := if r.currentDailyCount < U32_MAX then r.currentDailyCount + 1 else U32_MAX)
  }

  function DoPayment(s: SessionState, w: World, env: Env, ix: Instruction): Result<World>
    requires ix.ExecutePayment?
  {
    var authorized := Authorize(s, env.now, ix.signer, ix.amount, ix.scope, None);
    :- authorized;
    :- WithinLimits(s, env.now, ix.amount);
    :- Need(ix.amount <= BalanceOf(w.lamports, env.address), InsufficientVaultBalance);
    var lamports :- Move(w.lamports, env.address, ix.recipient, ix.amount);
    Ok(w.(session := Some(Charge(s, env.now, ix.amount)), lamports := lamports))
  }

  function DoSplPayment(s: SessionState, w: World, env: Env, ix: Instruction): Result<World>
    requires ix.ExecuteSplPayment?
  {
    var authorized := Authorize(s, env.now, ix.signer, ix.amount, ix.scope, Some(ix.mint));
    :- authorized;
    :- WithinLimits(s, env.now, ix.amount);
    :- Need(CanTransfer(w.ledger, ix.sourceAta, ix.destAta, env.address, ix.amount), TransferFailed);
    var ledger := AfterTransfer(w.ledger, ix.sourceAta, ix.destAta, env.address, ix.amount);
    Ok(w.(session := Some(Charge(s, env.now, ix.amount)), ledger := ledger))
  }

  // ----- Owner's instructions -----

  function DoWithdraw(s: SessionState, w: World, env: Env, ix: Instruction): Result<World>
    requires ix.WithdrawRemaining?
  {
    if s.owner != ix.owner then Err(Unauthorized) else
    :- Need(ix.recipient in env.systemAccounts, NotSystemAccount);
    var balance := BalanceOf(w.lamports, env.address);
    if balance <= env.rentExempt then Ok(w) else
    var lamports :- Move(w.lamports, env.address, ix.recipient, balance - env.rentExempt);
    Ok(w.(lamports := lamports))
  }

  function DoWithdrawSpl(s: SessionState, w: World, env: Env, ix: Instruction): Result<World>
    requires ix.WithdrawSplRemaining?
  {
    if s.owner != ix.owner then Err(Unauthorized) else
    :- Need(CanTransfer(w.ledger, ix.sourceAta, ix.destAta, env.address, ix.amount), TransferFailed);
    Ok(w.(ledger := AfterTransfer(w.ledger, ix.sourceAta, ix.destAta, env.address, ix.amount)))
  }

  function DoRevoke(s: SessionState, w: World, ix: Instruction): Result<World>
    requires ix.RevokeSession?
  {
    if s.owner != ix.owner then Err(Unauthorized) else
    :- Need(!s.revoked, SessionRevoked);
    Ok(w.(session := Some(s.(revoked := true))))
  }

  /** Closing sends the account's lamports to the owner and removes the account. */
  function DoClose(s: SessionState, w: World, env: Env, ix: Instruction): Result<World>
    requires ix.CloseSession?
  {
    if s.owner != ix.owner then Err(Unauthorized) else
    :- Need(s.revoked || env.now >= s.expiresAt, SessionStillActive);
    var lamports :- Move(w.lamports, env.address, ix.owner, BalanceOf(w.lamports, env.address));
    Ok(w.(session := None, lamports := lamports))
  }

  function Exec(w: World, env: Env, ix: Instruction): Result<World>
  {
    if ix.RegisterSessionKey? then DoRegister(w, env, ix) else
    :- Need(w.session.Some?, AccountNotInitialized);
    var s := w.session.value;
    match ix
    case ExecutePayment(_, _, _, _) => DoPayment(s, w, env, ix)
    case ExecuteSplPayment(_, _, _, _, _, _) => DoSplPayment(s, w, env, ix)
    case WithdrawRemaining(_, _) => DoWithdraw(s, w, env, ix)
    case WithdrawSplRemaining(_, _, _, _) => DoWithdrawSpl(s, w, env, ix)
    case RevokeSession(_) => DoRevoke(s, w, ix)
    case CloseSession(_) => DoClose(s, w, env, ix)
  }
}
