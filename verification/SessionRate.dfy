/** The rate bound of session keys is reached, for every limit and every number of days
    (ignite-pay-session-program/src/lib.rs:133-144). */
module SessionRate {
  import opened Arithmetic
  import opened Bytes
  import opened TokenLedger
  import opened Session
  import opened SessionRuns

  /** The session account, its owner, its signing key, its target program, and whom it pays. */
  datatype Parties = Parties(address: Pubkey, owner: Pubkey, signer: Pubkey, program: Pubkey, recipient: Pubkey)

  /** A session for payments of nothing: `count` made in the window that started at `reset`. */
  function SessionAt(k: Parties, limit: u32, expiresAt: i64, count: u32, reset: i64): SessionState
  {
    SessionState(k.owner, k.signer, k.program, DEFAULT_KEY, expiresAt, 0, 0, [[COLON]], 0, limit, count, reset, false)
  }

  predicate IsAt(w: World, k: Parties, limit: u32, expiresAt: i64, count: u32, reset: i64)
  {
    w.session == Some(SessionAt(k, limit, expiresAt, count, reset))
  }

  /** The session pays the recipient nothing at time `t`. */
  function PayAt(k: Parties, t: i64): Call
  {
    Call(Env(k.address, t, 0, {}), ExecutePayment(k.signer, k.recipient, 0, [COLON]), Surroundings(map[], map[]))
  }

  /** `call` made `n` times, then `rest`. */
  function Burst(call: Call, n: nat, rest: seq<Call>): seq<Call>
  {
    if n == 0 then rest else [call] + Burst(call, n - 1, rest)
  }

  /** `limit` payments at the start of each of the days `first` to `last`. */
  function DailyBursts(k: Parties, limit: nat, first: nat, last: nat): seq<Call>
    requires last * DAY <= I64_MAX
    decreases last + 1 - first
  {
    if first > last then [] else Burst(PayAt(k, first * DAY), limit, DailyBursts(k, limit, first + 1, last))
  }

  lemma AuthorizedAt(k: Parties, limit: u32, expiresAt: i64, count: u32, reset: i64, t: i64)
    requires 0 <= reset <= t < expiresAt && limit > 0
    requires count < limit || t - reset >= DAY
    ensures
      var s := SessionAt(k, limit, expiresAt, count, reset);
      && Authorize(s, t, k.signer, 0, [COLON], None) == Pass
      && WithinLimits(s, t, 0) == Pass
      && Charge(s, t, 0) == if t - reset >= DAY then SessionAt(k, limit, expiresAt, 1, t)
                            else SessionAt(k, limit, expiresAt, count + 1, reset)
  {
    var scopes: seq<bytes> := [[COLON]];
    assert [COLON] in scopes;
  }

  /** One payment: in a new window if the old one is over, otherwise in the old one if it has room. */
  lemma PaysAt(w: World, k: Parties, limit: u32, expiresAt: i64, count: u32, reset: i64, t: i64)
    requires IsAt(w, k, limit, expiresAt, count, reset)
    requires 0 <= reset <= t < expiresAt && limit > 0
    requires count < limit || t - reset >= DAY
    ensures Pays(w, PayAt(k, t))
    ensures if t - reset >= DAY then IsAt(Next(w, PayAt(k, t)), k, limit, expiresAt, 1, t)
            else IsAt(Next(w, PayAt(k, t)), k, limit, expiresAt, count + 1, reset)
  {
    AuthorizedAt(k, limit, expiresAt, count, reset, t);
    assert Move(map[], k.address, k.recipient, 0).Ok?;
  }

  // ----- Bursts -----

  function AfterBurst(w: World, call: Call, n: nat): World
    decreases n
  {
    if n == 0 then w else AfterBurst(Next(w, call), call, n - 1)
  }

  predicate AllPay(w: World, call: Call, n: nat)
    decreases n
  {
    n == 0 || (Pays(w, call) && AllPay(Next(w, call), call, n - 1))
  }

  lemma CountFirst(w: World, call: Call, rest: seq<Call>, a: int, b: int)
    requires Pays(w, call) && a <= call.env.now < b
    ensures PaymentsIn(w, [call] + rest, a, b) == 1 + PaymentsIn(Next(w, call), rest, a, b)
  {
    assert ([call] + rest)[1..] == rest;
  }

  lemma {:induction false} CountBurst(w: World, call: Call, n: nat, rest: seq<Call>, a: int, b: int)
    requires AllPay(w, call, n) && a <= call.env.now < b
    ensures PaymentsIn(w, Burst(call, n, rest), a, b) == n + PaymentsIn(AfterBurst(w, call, n), rest, a, b)
    decreases n
  {
    if n > 0 {
      CountBurst(Next(w, call), call, n - 1, rest, a, b);
      CountFirst(w, call, Burst(call, n - 1, rest), a, b);
    }
  }

  /** While the window that started at `reset` has room, `call` is one more payment in it. */
  ghost predicate FillsWindow(call: Call, k: Parties, limit: u32, expiresAt: i64, reset: i64)
  {
    forall w: World, count: u32 {:trigger Pays(w, call), IsAt(w, k, limit, expiresAt, count, reset)} ::
      count < limit && IsAt(w, k, limit, expiresAt, count, reset) ==>
      Pays(w, call) && IsAt(Next(w, call), k, limit, expiresAt, count + 1, reset)
  }

  lemma PayFillsWindow(k: Parties, limit: u32, expiresAt: i64, reset: i64, t: i64)
    requires 0 <= reset <= t < expiresAt && t - reset < DAY && limit > 0
    ensures FillsWindow(PayAt(k, t), k, limit, expiresAt, reset)
  {
    forall w: World, count: u32 | count < limit && IsAt(w, k, limit, expiresAt, count, reset)
      ensures Pays(w, PayAt(k, t)) && IsAt(Next(w, PayAt(k, t)), k, limit, expiresAt, count + 1, reset)
    {
      PaysAt(w, k, limit, expiresAt, count, reset, t);
    }
  }

  /** A burst that takes the current window from `count` payments to `total`. */
  lemma {:induction false} BurstInWindow(
    w: World, k: Parties, limit: u32, expiresAt: i64, count: u32, total: u32, reset: i64, call: Call)
    requires IsAt(w, k, limit, expiresAt, count, reset) && FillsWindow(call, k, limit, expiresAt, reset)
    requires count <= total <= limit
    ensures AllPay(w, call, total - count)
    ensures IsAt(AfterBurst(w, call, total - count), k, limit, expiresAt, total, reset)
    decreases total - count
  {
    if count < total {
      assert Pays(w, call);
      BurstInWindow(Next(w, call), k, limit, expiresAt, count + 1, total, reset, call);
    }
  }

  /** A full burst once the window is over. */
  lemma BurstAfterWindow(w: World, k: Parties, limit: u32, expiresAt: i64, count: u32, reset: i64, t: i64)
    requires IsAt(w, k, limit, expiresAt, count, reset)
    requires 0 <= reset <= t < expiresAt && t - reset >= DAY && limit > 0
    ensures AllPay(w, PayAt(k, t), limit)
    ensures IsAt(AfterBurst(w, PayAt(k, t), limit), k, limit, expiresAt, limit, t)
  {
    var call := PayAt(k, t);
    PaysAt(w, k, limit, expiresAt, count, reset, t);
    PayFillsWindow(k, limit, expiresAt, t, t);
    BurstInWindow(Next(w, call), k, limit, expiresAt, 1, limit, t, call);
  }

  lemma {:induction false} DaysPay(
    w: World, k: Parties, limit: u32, expiresAt: i64, count: u32, reset: i64, first: nat, last: nat, a: int, b: int)
    requires IsAt(w, k, limit, expiresAt, count, reset)
    requires limit > 0 && first <= last + 1 && 0 <= reset && reset + DAY <= first * DAY
    requires last * DAY < expiresAt && a <= first * DAY && last * DAY < b
    ensures PaymentsIn(w, DailyBursts(k, limit, first, last), a, b) == limit * (last + 1 - first)
    decreases last + 1 - first
  {
    if first <= last {
      var rest := DailyBursts(k, limit, first + 1, last);
      var call := PayAt(k, first * DAY);
      BurstAfterWindow(w, k, limit, expiresAt, count, reset, first * DAY);
      CountBurst(w, call, limit, rest, a, b);
      DaysPay(AfterBurst(w, call, limit), k, limit, expiresAt, limit, first * DAY, first + 1, last, a, b);
      Distribute(limit, last - first);
    }
  }

  lemma LifeCons(start: i64, call: Call, rest: seq<Call>)
    requires start <= call.env.now && !call.ix.RegisterSessionKey? && OneLife(call.env.now, rest)
    ensures OneLife(start, [call] + rest)
  {
  }

  lemma {:induction false} LifeOfBurst(start: i64, call: Call, n: nat, rest: seq<Call>)
    requires start <= call.env.now && !call.ix.RegisterSessionKey? && OneLife(call.env.now, rest)
    ensures OneLife(start, Burst(call, n, rest))
    decreases n
  {
    if n > 0 {
      LifeOfBurst(call.env.now, call, n - 1, rest);
      LifeCons(start, call, Burst(call, n - 1, rest));
    }
  }

  lemma {:induction false} LifeOfDays(k: Parties, limit: nat, start: i64, first: nat, last: nat)
    requires last * DAY <= I64_MAX && start <= first * DAY
    ensures OneLife(start, DailyBursts(k, limit, first, last))
    decreases last + 1 - first
  {
    if first <= last {
      LifeOfDays(k, limit, first * DAY, first + 1, last);
      LifeOfBurst(start, PayAt(k, first * DAY), limit, DailyBursts(k, limit, first + 1, last));
    }
  }

  /** A session as registration at time 0 leaves it. */
  lemma RegisteredAt(k: Parties, limit: u32, expiresAt: i64) returns (w: World)
    requires k.signer != DEFAULT_KEY && expiresAt > 0
    ensures IsAt(w, k, limit, expiresAt, 0, 0)
    ensures exists before: World, env: Env, ix: Instruction ::
              ix.RegisterSessionKey? && env.address == k.address && Exec(before, env, ix) == Ok(w)
  {
    var before := World(None, map[], Ledger(map[], []));
    var scopes: seq<bytes> := [[COLON]];
    var ix := RegisterSessionKey(k.owner, k.signer, k.program, expiresAt, 0, scopes, DEFAULT_KEY, 0, limit);
    assert scopes[..0] == [] && ScopesSize([]) == 0 && ScopesSize(scopes) == 5;
    assert COLON in scopes[0];
    w := before.(session := Some(SessionAt(k, limit, expiresAt, 0, 0)));
    assert Exec(before, Env(k.address, 0, 0, {}), ix) == Ok(w);
  }

  /** Tightness: for all parties, every limit and every number of days that the clock can count there is a
      registered session and an interval of that many days in which exactly (days + 1) * limit payments succeed. */
  lemma RateBoundIsTight(k: Parties, limit: u32, days: nat) returns (w: World, calls: seq<Call>)
    requires k.signer != DEFAULT_KEY && limit > 0 && days > 0 && days * DAY < I64_MAX
    ensures JustRegistered(w, 0) && OneLife(0, calls) && w.session.value.dailyTxCountLimit == limit
    ensures PaymentsIn(w, calls, DAY - 1, DAY - 1 + days * DAY) == limit * (days + 1)
  {
    var expiresAt := days * DAY + 1;
    w := RegisteredAt(k, limit, expiresAt);
    var later := DailyBursts(k, limit, 1, days);
    var first := PayAt(k, DAY - 1);
    calls := Burst(first, limit, later);
    LifeOfDays(k, limit, DAY - 1, 1, days);
    LifeOfBurst(0, first, limit, later);
    var (a, b) := (DAY - 1, DAY - 1 + days * DAY);
    PayFillsWindow(k, limit, expiresAt, 0, DAY - 1);
    BurstInWindow(w, k, limit, expiresAt, 0, limit, 0, first);
    CountBurst(w, first, limit, later, a, b);
    DaysPay(AfterBurst(w, first, limit), k, limit, expiresAt, limit, 0, 1, days, a, b);
    Distribute(limit, days);
  }
}
