/** What every life of a session key keeps: its spend ledger, its rate bound, its lamports. */
module SessionRuns {
  import opened Arithmetic
  import opened Bytes
  import opened TokenLedger
  import opened Session

  // ----- Runs -----

  /** Everyone's lamports and token accounts. */
  datatype Surroundings = Surroundings(lamports: Lamports, accounts: map<Pubkey, TokenAccount>)

  /** A call and the surroundings it finds: between two calls anybody may send lamports to the session or to
      others, and other programs may do anything to token accounts. */
  datatype Call = Call(env: Env, ix: Instruction, found: Surroundings)

  function Around(w: World): Surroundings
  {
    Surroundings(w.lamports, w.ledger.accounts)
  }

  /** The world as `call` finds it; the session account changes only by the program's instructions. */
  function Found(w: World, call: Call): World
  {
    w.(lamports := call.found.lamports, ledger := w.ledger.(accounts := call.found.accounts))
  }

  function Next(w: World, call: Call): World
  {
    match Exec(Found(w, call), call.env, call.ix)
    case Ok(w') => w'
    case Err(_) => Found(w, call)
  }

  function Run(w: World, calls: seq<Call>): World
    decreases |calls|
  {
    if calls == [] then w else Run(Next(w, calls[0]), calls[1..])
  }

  predicate Pays(w: World, call: Call)
  {
    IsPayment(call.ix) && Exec(Found(w, call), call.env, call.ix).Ok?
  }

  /** The clock never goes back, and the calls belong to one life of the session: no new registration. */
  ghost predicate OneLife(start: i64, calls: seq<Call>)
  {
    && (forall i :: 0 <= i < |calls| ==> start <= calls[i].env.now && !calls[i].ix.RegisterSessionKey?)
    && (forall i, j :: 0 <= i < j < |calls| ==> calls[i].env.now <= calls[j].env.now)
  }

  /** A session as registration leaves it at time `start`. */
  predicate JustRegistered(w: World, start: i64)
  {
    && w.session.Some?
    && var s := w.session.value;
    && s.currentSpent == 0 && s.currentDailyCount == 0 && s.lastDailyReset == start && !s.revoked
  }

  lemma RegisterStartsALife(w: World, env: Env, ix: Instruction)
    requires ix.RegisterSessionKey? && Exec(w, env, ix).Ok?
    ensures JustRegistered(Exec(w, env, ix).value, env.now)
    ensures env.now < Exec(w, env, ix).value.session.value.expiresAt
  {
  }

  lemma LifeTail(start: i64, calls: seq<Call>)
    requires OneLife(start, calls) && calls != []
    ensures OneLife(calls[0].env.now, calls[1..]) && start <= calls[0].env.now
  {
  }

  // ----- One call -----

  /** A payment is charged to a live session; any other call leaves the counters alone or ends the life. */
  lemma CallEffect(w: World, call: Call)
    requires !call.ix.RegisterSessionKey?
    ensures w.session.None? ==> Next(w, call).session.None? && !Pays(w, call)
    ensures w.session.Some? && Pays(w, call) ==>
              var s := w.session.value;
              && !s.revoked && call.env.now < s.expiresAt
              && WithinLimits(s, call.env.now, call.ix.amount).Pass?
              && s.currentSpent + call.ix.amount <= s.spendingLimit
              && Next(w, call).session == Some(Charge(s, call.env.now, call.ix.amount))
    ensures w.session.Some? && !Pays(w, call) ==>
              || Next(w, call).session.None?
              || Next(w, call).session == w.session
              || Next(w, call).session == Some(w.session.value.(revoked := true))
  {
  }

  // ----- Spend ledger -----

  /** The sum of all payments that succeeded. */
  function Spent(w: World, calls: seq<Call>): nat
    decreases |calls|
  {
    if calls == [] then 0
    else (if Pays(w, calls[0]) then calls[0].ix.amount else 0) + Spent(Next(w, calls[0]), calls[1..])
  }

  lemma {:induction false} SpentIsRecorded(w: World, calls: seq<Call>, start: i64)
    requires w.session.Some? && OneLife(start, calls)
    requires w.session.value.currentSpent <= w.session.value.spendingLimit
    ensures w.session.value.currentSpent + Spent(w, calls) <= w.session.value.spendingLimit
    ensures Run(w, calls).session.Some? ==>
              Run(w, calls).session.value.currentSpent == w.session.value.currentSpent + Spent(w, calls)
    decreases |calls|
  {
    if calls != [] {
      LifeTail(start, calls);
      CallEffect(w, calls[0]);
      if Next(w, calls[0]).session.Some? {
        SpentIsRecorded(Next(w, calls[0]), calls[1..], calls[0].env.now);
      } else {
        NothingAfterClose(Next(w, calls[0]), calls[1..], calls[0].env.now);
      }
    }
  }

  lemma {:induction false} NothingAfterClose(w: World, calls: seq<Call>, start: i64)
    requires w.session.None? && OneLife(start, calls)
    ensures Spent(w, calls) == 0 && Run(w, calls).session.None?
    ensures forall a, b :: PaymentsIn(w, calls, a, b) == 0
    decreases |calls|
  {
    if calls != [] {
      LifeTail(start, calls);
      CallEffect(w, calls[0]);
      NothingAfterClose(Next(w, calls[0]), calls[1..], calls[0].env.now);
    }
  }

  /** From registration on, the recorded spending is the sum of all SOL and token payments that
      succeeded, and never exceeds the limit, even if the session is closed on the way. */
  lemma SpendLedger(w: World, start: i64, calls: seq<Call>)
    requires JustRegistered(w, start) && OneLife(start, calls)
    ensures Spent(w, calls) <= w.session.value.spendingLimit
    ensures Run(w, calls).session.Some? ==> Run(w, calls).session.value.currentSpent == Spent(w, calls)
  {
    SpentIsRecorded(w, calls, start);
  }

  /** No payment succeeds on a revoked session or from its expiry on, whatever calls come. */
  lemma {:induction false} NoPaymentAfterRevocationOrExpiry(w: World, calls: seq<Call>, start: i64)
    requires w.session.Some? && OneLife(start, calls)
    requires w.session.value.revoked || w.session.value.expiresAt <= start
    ensures Spent(w, calls) == 0
    ensures forall a, b :: PaymentsIn(w, calls, a, b) == 0
    decreases |calls|
  {
    if calls != [] {
      LifeTail(start, calls);
      CallEffect(w, calls[0]);
      if Next(w, calls[0]).session.Some? {
        NoPaymentAfterRevocationOrExpiry(Next(w, calls[0]), calls[1..], calls[0].env.now);
      } else {
        NothingAfterClose(Next(w, calls[0]), calls[1..], calls[0].env.now);
      }
    }
  }

  // ----- Rate bound -----

  /** How many payments succeeded at times from `a` up to, not including, `b`. */
  function PaymentsIn(w: World, calls: seq<Call>, a: int, b: int): nat
    decreases |calls|
  {
    if calls == [] then 0
    else
      (if Pays(w, calls[0]) && a <= calls[0].env.now < b then 1 else 0)
      + PaymentsIn(Next(w, calls[0]), calls[1..], a, b)
  }

  /** How many later windows can start before `b` when one started at `r`. */
  function LaterWindows(r: int, b: int): nat
    decreases b - r
  {
    if r + DAY >= b then 0 else 1 + LaterWindows(r + DAY, b)
  }

  lemma {:induction false} LaterWindowsMonotone(r: int, t: int, b: int)
    requires r <= t
    ensures LaterWindows(t, b) <= LaterWindows(r, b)
    decreases b - r
  {
    if t + DAY < b { LaterWindowsMonotone(r + DAY, t + DAY, b); }
  }

  lemma {:induction false} LaterWindowsInDays(r: int, a: int, k: nat)
    requires a < r + DAY
    ensures LaterWindows(r, a + k * DAY) <= k
    decreases k
  {
    if r + DAY < a + k * DAY { LaterWindowsInDays(r + DAY, a + DAY, k - 1); }
  }

  lemma {:induction false} NoneBeforeStart(w: World, calls: seq<Call>, start: i64, a: int, b: int)
    requires OneLife(start, calls) && b <= start
    ensures PaymentsIn(w, calls, a, b) == 0
    decreases |calls|
  {
    if calls != [] {
      LifeTail(start, calls);
      NoneBeforeStart(Next(w, calls[0]), calls[1..], calls[0].env.now, a, b);
    }
  }

  lemma Distribute(limit: nat, n: nat)
    ensures limit * (n + 1) == limit * n + limit
  {
  }

  /** The window and the count of a session whose limit is `limit`. */
  ghost predicate InWindow(w: World, limit: nat, start: i64)
  {
    && w.session.Some? && limit > 0
    && w.session.value.dailyTxCountLimit == limit && w.session.value.currentDailyCount <= limit
    && w.session.value.lastDailyReset <= start
  }

  lemma InWindowKept(w: World, call: Call, limit: nat, start: i64)
    requires InWindow(w, limit, start) && start <= call.env.now && !call.ix.RegisterSessionKey?
    ensures Next(w, call).session.Some? ==> InWindow(Next(w, call), limit, call.env.now)
    ensures Pays(w, call) ==> Next(w, call).session.Some?
    ensures Pays(w, call) ==>
              var (s, t) := (w.session.value, Next(w, call).session.value);
              if call.env.now - s.lastDailyReset >= DAY
              then t.lastDailyReset == call.env.now && t.currentDailyCount == 1
              else t.lastDailyReset == s.lastDailyReset && t.currentDailyCount == s.currentDailyCount + 1
    ensures !Pays(w, call) && Next(w, call).session.Some? ==>
              && Next(w, call).session.value.lastDailyReset == w.session.value.lastDailyReset
              && Next(w, call).session.value.currentDailyCount == w.session.value.currentDailyCount
  {
    CallEffect(w, call);
  }

  /** From a window that started at `r` with `c` payments made: at most `limit - c` more in it, and
      `limit` in each window that can still start before `b`. */
  lemma {:induction false} PaymentsFromWindow(w: World, calls: seq<Call>, limit: nat, start: i64, a: int, b: int)
    requires InWindow(w, limit, start) && OneLife(start, calls)
    ensures
      var s := w.session.value;
      PaymentsIn(w, calls, a, b) <= limit - s.currentDailyCount + limit * LaterWindows(s.lastDailyReset, b)
    decreases |calls|
  {
    var s := w.session.value;
    MulMono(limit, 0, LaterWindows(s.lastDailyReset, b));
    if calls != [] {
      var call := calls[0];
      var w' := Next(w, call);
      LifeTail(start, calls);
      InWindowKept(w, call, limit, start);
      if call.env.now >= b {
        NoneBeforeStart(w', calls[1..], call.env.now, a, b);
      } else if w'.session.None? {
        NothingAfterClose(w', calls[1..], call.env.now);
      } else {
        PaymentsFromWindow(w', calls[1..], limit, call.env.now, a, b);
        if Pays(w, call) && call.env.now - s.lastDailyReset >= DAY {
          NewWindow(limit, s.lastDailyReset, call.env.now, b);
        }
      }
    }
  }

  lemma NewWindow(limit: nat, r: int, t: int, b: int)
    requires r + DAY <= t < b
    ensures limit + limit * LaterWindows(t, b) <= limit * LaterWindows(r, b)
  {
    LaterWindowsMonotone(r + DAY, t, b);
    MulMono(limit, LaterWindows(t, b) + 1, LaterWindows(r, b));
    Distribute(limit, LaterWindows(t, b));
  }

  /** When the old window is over by `a`, the first payment from `a` on starts a new one. */
  lemma {:induction false} PaymentsAfterWindow(w: World, calls: seq<Call>, limit: nat, start: i64, a: int, b: int)
    requires InWindow(w, limit, start) && OneLife(start, calls)
    requires w.session.value.lastDailyReset + DAY <= a <= start
    ensures PaymentsIn(w, calls, a, b) <= limit + limit * LaterWindows(a, b)
    decreases |calls|
  {
    MulMono(limit, 0, LaterWindows(a, b));
    if calls != [] {
      var call := calls[0];
      var w' := Next(w, call);
      LifeTail(start, calls);
      InWindowKept(w, call, limit, start);
      if w'.session.None? {
        NothingAfterClose(w', calls[1..], call.env.now);
      } else if !Pays(w, call) {
        PaymentsAfterWindow(w', calls[1..], limit, call.env.now, a, b);
      } else {
        PaymentsFromWindow(w', calls[1..], limit, call.env.now, a, b);
        LaterWindowsMonotone(a, call.env.now, b);
        MulMono(limit, LaterWindows(call.env.now, b), LaterWindows(a, b));
      }
    }
  }

  /** The interval has begun when the first remaining call comes. */
  lemma RateFromFirst(w: World, calls: seq<Call>, limit: nat, a: int, k: nat)
    requires calls != [] && a <= calls[0].env.now
    requires InWindow(w, limit, calls[0].env.now) && OneLife(calls[0].env.now, calls)
    ensures PaymentsIn(w, calls, a, a + k * DAY) <= limit * (k + 1)
  {
    var (start, b, r) := (calls[0].env.now, a + k * DAY, w.session.value.lastDailyReset);
    Distribute(limit, k);
    if a < r + DAY {
      PaymentsFromWindow(w, calls, limit, start, a, b);
      LaterWindowsInDays(r, a, k);
      MulMono(limit, LaterWindows(r, b), k);
    } else {
      PaymentsAfterWindow(w, calls, limit, start, a, b);
      LaterWindowsInDays(a, a, k);
      MulMono(limit, LaterWindows(a, b), k);
    }
  }

  /** The calls before the interval only move the window. */
  lemma {:induction false} RateFromWindow(w: World, calls: seq<Call>, limit: nat, start: i64, a: int, k: nat)
    requires InWindow(w, limit, start) && OneLife(start, calls)
    ensures PaymentsIn(w, calls, a, a + k * DAY) <= limit * (k + 1)
    decreases |calls|
  {
    MulMono(limit, 0, k + 1);
    if calls != [] {
      var call := calls[0];
      LifeTail(start, calls);
      if a <= call.env.now {
        RateFromFirst(w, calls, limit, a, k);
      } else {
        InWindowKept(w, call, limit, start);
        if Next(w, call).session.None? {
          NothingAfterClose(Next(w, call), calls[1..], call.env.now);
        } else {
          RateFromWindow(Next(w, call), calls[1..], limit, call.env.now, a, k);
        }
      }
    }
  }

  /** Rate bound: with a daily limit L > 0, in every interval of k days at most (k + 1) * L payments of
      one session life succeed, counting SOL and token payments together. */
  lemma RateBound(w: World, start: i64, calls: seq<Call>, a: int, k: nat)
    requires JustRegistered(w, start) && OneLife(start, calls)
    requires w.session.value.dailyTxCountLimit > 0
    ensures PaymentsIn(w, calls, a, a + k * DAY) <= w.session.value.dailyTxCountLimit * (k + 1)
  {
    RateFromWindow(w, calls, w.session.value.dailyTxCountLimit, start, a, k);
  }

  // ----- Lamports -----

  function Sum(m: Lamports, keys: seq<Pubkey>): nat
  {
    if keys == [] then 0 else BalanceOf(m, keys[0]) + Sum(m, keys[1..])
  }

  lemma {:induction false} SumAfterUpdate(m: Lamports, key: Pubkey, v: u64, keys: seq<Pubkey>)
    requires NoRepeats(keys)
    ensures Sum(m[key := v], keys) == Sum(m, keys) + if key in keys then v - BalanceOf(m, key) else 0
  {
    if keys != [] {
      SumAfterUpdate(m, key, v, keys[1..]);
      assert forall k :: k in keys <==> k == keys[0] || k in keys[1..];
    }
  }

  lemma MoveConserves(m: Lamports, from: Pubkey, to: Pubkey, amount: u64, keys: seq<Pubkey>)
    requires amount <= BalanceOf(m, from) && Move(m, from, to, amount).Ok?
    requires NoRepeats(keys) && from in keys && to in keys
    ensures Sum(Move(m, from, to, amount).value, keys) == Sum(m, keys)
  {
    var m' := m[from := BalanceOf(m, from) - amount];
    SumAfterUpdate(m, from, BalanceOf(m, from) - amount, keys);
    SumAfterUpdate(m', to, BalanceOf(m', to) + amount, keys);
  }

  /** The other account an instruction moves lamports to. */
  function Counterparty(ix: Instruction, address: Pubkey): Pubkey
  {
    match ix
    case ExecutePayment(_, recipient, _, _) => recipient
    case WithdrawRemaining(_, recipient) => recipient
    case CloseSession(owner) => owner
    case _ => address
  }

  /** Every instruction conserves lamports, over any list of accounts without repeats that holds the
      session and its counterparty, even when the two are the same account. */
  lemma LamportsConserved(w: World, env: Env, ix: Instruction, keys: seq<Pubkey>)
    requires Exec(w, env, ix).Ok?
    requires NoRepeats(keys) && env.address in keys && Counterparty(ix, env.address) in keys
    ensures Sum(Exec(w, env, ix).value.lamports, keys) == Sum(w.lamports, keys)
  {
    var balance := BalanceOf(w.lamports, env.address);
    match ix
    case ExecutePayment(_, recipient, amount, _) =>
      MoveConserves(w.lamports, env.address, recipient, amount, keys);
    case WithdrawRemaining(_, recipient) =>
      if balance > env.rentExempt {
        MoveConserves(w.lamports, env.address, recipient, balance - env.rentExempt, keys);
      }
    case CloseSession(owner) =>
      MoveConserves(w.lamports, env.address, owner, balance, keys);
    case _ =>
  }
}
