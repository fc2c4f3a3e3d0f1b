/** SPL token accounts as the programs see them: a transfer moves exactly the amount or fails.
    An owner may have approved a delegate for part of the balance; a frozen account moves nothing. */
module TokenLedger {
  import opened Bytes

  type Pubkey = Digest

  datatype TokenAccount = TokenAccount(
    mint: Pubkey, owner: Pubkey, amount: u64, delegate: Option<Pubkey>, delegatedAmount: u64, frozen: bool)

  datatype TransferRecord = TransferRecord(from: Pubkey, to: Pubkey, authority: Pubkey, amount: u64)

  /** All token accounts, and every transfer the program made so far. */
  datatype Ledger = Ledger(accounts: map<Pubkey, TokenAccount>, log: seq<TransferRecord>)

  /** The owner, unless the authority is the delegate, who may move up to the delegated amount. */
  predicate MayMove(a: TokenAccount, authority: Pubkey, amount: u64)
  {
    if a.delegate == Some(authority) then amount <= a.delegatedAmount else a.owner == authority
  }

  /** The source after `amount` left it; a delegate's allowance shrinks and ends at zero. */
  function Debited(a: TokenAccount, authority: Pubkey, amount: u64): TokenAccount
    requires amount <= a.amount && MayMove(a, authority, amount)
  {
    var paid := a.(amount := a.amount - amount);
    if a.delegate != Some(authority) then paid
    else
      paid.(delegatedAmount := a.delegatedAmount - amount,
            delegate := if a.delegatedAmount == amount then None else a.delegate)
  }

  predicate CanTransfer(l: Ledger, from: Pubkey, to: Pubkey, authority: Pubkey, amount: u64)
  {
    && from in l.accounts && to in l.accounts
    && !l.accounts[from].frozen && !l.accounts[to].frozen
    && MayMove(l.accounts[from], authority, amount)
    && l.accounts[from].mint == l.accounts[to].mint
    && amount <= l.accounts[from].amount
    && (from == to || l.accounts[to].amount + amount <= U64_MAX)
  }

  function AfterTransfer(l: Ledger, from: Pubkey, to: Pubkey, authority: Pubkey, amount: u64): Ledger
    requires CanTransfer(l, from, to, authority, amount)
  {
    var moved :=
      if from == to then l.accounts
      else
        var (src, dst) := (l.accounts[from], l.accounts[to]);
        l.accounts[from := Debited(src, authority, amount)][to := dst.(amount := dst.amount + amount)];
    Ledger(moved, l.log + [TransferRecord(from, to, authority, amount)])
  }

  /** Total of the logged transfers that `account` authorized, to itself or to other accounts. */
  function Flow(log: seq<TransferRecord>, account: Pubkey, toItself: bool): nat
  {
    if log == [] then 0
    else
      var last := log[|log| - 1];
      Flow(log[..|log| - 1], account, toItself)
      + if last.authority == account && (last.to == account) == toItself then last.amount else 0
  }

  /** What left `account` under its own authority. */
  function Outflow(log: seq<TransferRecord>, account: Pubkey): nat
  {
    Flow(log, account, false)
  }

  /** What `account` transferred to itself, which moves nothing. */
  function Kept(log: seq<TransferRecord>, account: Pubkey): nat
  {
    Flow(log, account, true)
  }

  lemma FlowAppend(log: seq<TransferRecord>, t: TransferRecord, account: Pubkey)
    ensures Outflow(log + [t], account)
            == Outflow(log, account) + if t.authority == account && t.to != account then t.amount else 0
    ensures Kept(log + [t], account)
            == Kept(log, account) + if t.authority == account && t.to == account then t.amount else 0
  {
    assert (log + [t])[..|log|] == log;
  }

  /** The balance of `key`, zero for an account that does not exist. */
  function Balance(l: Ledger, key: Pubkey): nat
  {
    if key in l.accounts then l.accounts[key].amount else 0
  }

  /** The change of a balance when `amount` goes from `from` to `to`. */
  function Change(key: Pubkey, from: Pubkey, to: Pubkey, amount: nat): int
  {
    (if key == to then amount else 0) - (if key == from then amount else 0)
  }

  /** `m` is `l` after exactly `amount` went from `from` to `to`, and no other balance moved. */
  ghost predicate Moved(l: Ledger, m: Ledger, from: Pubkey, to: Pubkey, amount: nat)
  {
    forall key :: Balance(m, key) == Balance(l, key) + Change(key, from, to, amount)
  }

  lemma TransferMoves(l: Ledger, from: Pubkey, to: Pubkey, authority: Pubkey, amount: u64)
    requires CanTransfer(l, from, to, authority, amount)
    ensures Moved(l, AfterTransfer(l, from, to, authority, amount), from, to, amount)
  {
  }

  /** Only the owner moves more than a delegate was allowed, and what a delegate moves is taken off its allowance. */
  lemma AllowanceShrinks(l: Ledger, from: Pubkey, to: Pubkey, authority: Pubkey, amount: u64)
    requires CanTransfer(l, from, to, authority, amount) && from != to
    ensures
      var (a, b) := (l.accounts[from], AfterTransfer(l, from, to, authority, amount).accounts[from]);
      if a.delegate == Some(authority)
      then b.delegatedAmount + amount == a.delegatedAmount && (b.delegate == None <==> b.delegatedAmount == 0)
      else a.owner == authority && b.delegate == a.delegate && b.delegatedAmount == a.delegatedAmount
  {
  }

  /** The sum of the balances of the listed accounts. */
  function Total(l: Ledger, keys: seq<Pubkey>): nat
  {
    if keys == [] then 0 else Balance(l, keys[0]) + Total(l, keys[1..])
  }

  ghost predicate NoRepeats<T>(s: seq<T>)
  {
    forall i, j :: 0 <= i < j < |s| ==> s[i] != s[j]
  }

  lemma {:induction false} TotalAfterTransfer(
    l: Ledger, from: Pubkey, to: Pubkey, authority: Pubkey, amount: u64, keys: seq<Pubkey>)
    requires CanTransfer(l, from, to, authority, amount) && from != to
    requires NoRepeats(keys)
    ensures Total(AfterTransfer(l, from, to, authority, amount), keys)
            == Total(l, keys) - (if from in keys then amount else 0) + (if to in keys then amount else 0)
  {
    if keys != [] {
      TotalAfterTransfer(l, from, to, authority, amount, keys[1..]);
      assert forall k :: k in keys <==> k == keys[0] || k in keys[1..];
    }
  }

  /** Conservation: over any list of accounts without repeats that holds both ends, the total stays. */
  lemma TransferConserves(l: Ledger, from: Pubkey, to: Pubkey, authority: Pubkey, amount: u64, keys: seq<Pubkey>)
    requires CanTransfer(l, from, to, authority, amount)
    requires NoRepeats(keys) && from in keys && to in keys
    ensures Total(AfterTransfer(l, from, to, authority, amount), keys) == Total(l, keys)
  {
    if from == to {
      SameBalances(l, AfterTransfer(l, from, to, authority, amount), keys);
    } else {
      TotalAfterTransfer(l, from, to, authority, amount, keys);
    }
  }

  /** The balance of `key`, if it holds `mint`. */
  function Holding(l: Ledger, mint: Pubkey, key: Pubkey): nat
  {
    if key in l.accounts && l.accounts[key].mint == mint then l.accounts[key].amount else 0
  }

  function Supply(l: Ledger, mint: Pubkey, keys: seq<Pubkey>): nat
  {
    if keys == [] then 0 else Holding(l, mint, keys[0]) + Supply(l, mint, keys[1..])
  }

  lemma {:induction false} SupplyAfterTransfer(
    l: Ledger, from: Pubkey, to: Pubkey, authority: Pubkey, amount: u64, mint: Pubkey, keys: seq<Pubkey>)
    requires CanTransfer(l, from, to, authority, amount) && from != to
    requires NoRepeats(keys)
    ensures
      var moved := if l.accounts[from].mint == mint then amount else 0;
      Supply(AfterTransfer(l, from, to, authority, amount), mint, keys)
      == Supply(l, mint, keys) - (if from in keys then moved else 0) + (if to in keys then moved else 0)
  {
    if keys != [] {
      SupplyAfterTransfer(l, from, to, authority, amount, mint, keys[1..]);
      assert forall k :: k in keys <==> k == keys[0] || k in keys[1..];
    }
  }

  lemma {:induction false} SameSupply(l: Ledger, m: Ledger, mint: Pubkey, keys: seq<Pubkey>)
    requires l.accounts == m.accounts
    ensures Supply(l, mint, keys) == Supply(m, mint, keys)
  {
    if keys != [] { SameSupply(l, m, mint, keys[1..]); }
  }

  /** Not only in sum: the supply of every mint stays, and a frozen account keeps its balance. */
  lemma TransferConservesMints(
    l: Ledger, from: Pubkey, to: Pubkey, authority: Pubkey, amount: u64, mint: Pubkey, keys: seq<Pubkey>, key: Pubkey)
    requires CanTransfer(l, from, to, authority, amount)
    requires NoRepeats(keys) && from in keys && to in keys
    ensures Supply(AfterTransfer(l, from, to, authority, amount), mint, keys) == Supply(l, mint, keys)
    ensures key in l.accounts && l.accounts[key].frozen ==>
              AfterTransfer(l, from, to, authority, amount).accounts[key] == l.accounts[key]
  {
    if from == to {
      SameSupply(l, AfterTransfer(l, from, to, authority, amount), mint, keys);
    } else {
      SupplyAfterTransfer(l, from, to, authority, amount, mint, keys);
    }
  }

  lemma {:induction false} SameBalances(l: Ledger, m: Ledger, keys: seq<Pubkey>)
    requires l.accounts == m.accounts
    ensures Total(l, keys) == Total(m, keys)
  {
    if keys != [] { SameBalances(l, m, keys[1..]); }
  }

  class TokenProgram {
    var accounts: map<Pubkey, TokenAccount>
    var log: seq<TransferRecord>

    function View(): Ledger
      reads this
    {
      Ledger(accounts, log)
    }

    method Transfer(from: Pubkey, to: Pubkey, authority: Pubkey, amount: u64) returns (ok: bool)
      modifies this
      ensures ok == CanTransfer(old(View()), from, to, authority, amount)
      ensures ok ==> View() == AfterTransfer(old(View()), from, to, authority, amount)
      ensures !ok ==> View() == old(View())
    {
      if from !in accounts || to !in accounts {
        return false;
      }
      var (src, dst) := (accounts[from], accounts[to]);
      if src.frozen || dst.frozen || src.amount < amount || src.mint != dst.mint {
        return false;
      }
      if src.delegate == Some(authority) {
        if src.delegatedAmount < amount {
          return false;
        }
      } else if src.owner != authority {
        return false;
      }
      if from != to {
        if dst.amount + amount > U64_MAX {
          return false;
        }
        accounts := accounts[from := Debited(src, authority, amount)];
        accounts := accounts[to := dst.(amount := dst.amount + amount)];
      }
      log := log + [TransferRecord(from, to, authority, amount)];
      ok := true;
    }
  }
}
