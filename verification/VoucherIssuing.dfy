/** Concurrent voucher issuing (ignite-pay-mcp/src/main.rs): payment tasks that share a mutex, the
    vault's on-chain capacity and the voucher store, interleaved step by step. */
module VoucherIssuing {
  import opened Bytes
  import opened OrderedTree
  import opened VoucherStore

  datatype Request = Request(channelId: Digest, merchant: Digest, amount: u64, sign: (Digest, u64, u64) -> bytes)

  /** Where a payment task stands. */
  datatype Task =
    | Idle
    | Waiting(req: Request)                           // asked for the mutex
    | Locked(req: Request)                            // has it; funding and balance checks happen here
    | KnowsVault(req: Request, available: u64)        // read the vault capacity from the chain
    | FitsVault(req: Request, available: u64)         // outstanding + amount is within that capacity
    | HasNumber(req: Request, available: u64, number: u64)
    | Done                                            // voucher stored, or payment made another way, or failed

  /** Anything but waiting outside the critical section. */
  predicate InSection(t: Task)
  {
    !t.Idle? && !t.Waiting?
  }

  datatype State = State(holder: Option<nat>, tasks: map<nat, Task>, items: Entries, deposited: u64, reserved: u64)

  function TaskOf(s: State, t: nat): Task
  {
    if t in s.tasks then s.tasks[t] else Idle
  }

  /** total_deposited.saturating_sub(total_allocated) */
  function Available(s: State): u64
  {
    if s.reserved <= s.deposited then s.deposited - s.reserved else 0
  }

  function Voucher(req: Request, number: u64): StoredVoucher
  {
    StoredVoucher(req.channelId, req.merchant, number, req.amount, req.sign(req.channelId, number, req.amount))
  }

  // ----- Steps -----

  datatype Action =
    | Ask(task: nat, req: Request)
    | Lock(task: nat)
    | LeaveOtherwise(task: nat)   // another payment method, a failed check or read, a panic: no voucher
    | ReadVault(task: nat)
    | CheckCapacity(task: nat)
    | PickNumber(task: nat)
    | StoreIt(task: nat)
    | Unlock(task: nat)
    | VaultMoves(deposited: u64, reserved: u64)

  predicate Enabled(s: State, a: Action)
  {
    match a
    case Ask(t, _) => TaskOf(s, t).Idle?
    case Lock(t) => TaskOf(s, t).Waiting? && s.holder.None?
    case LeaveOtherwise(t) => InSection(TaskOf(s, t))
    case ReadVault(t) => TaskOf(s, t).Locked?
    case CheckCapacity(t) => TaskOf(s, t).KnowsVault?
    case PickNumber(t) => TaskOf(s, t).FitsVault?
    case StoreIt(t) => TaskOf(s, t).HasNumber?
    case Unlock(t) => TaskOf(s, t).Done?
    case VaultMoves(deposited, reserved) =>
      Available(s) <= Available(s.(deposited := deposited, reserved := reserved))
  }

  function Set(s: State, t: nat, task: Task): State
  {
    s.(tasks := s.tasks[t := task])
  }

  function Apply(s: State, a: Action): State
    requires Enabled(s, a)
  {
    match a
    case Ask(t, req) => Set(s, t, Waiting(req))
    case Lock(t) => Set(s, t, Locked(TaskOf(s, t).req)).(holder := Some(t))
    case LeaveOtherwise(t) => Set(s, t, Done)
    case ReadVault(t) => Set(s, t, KnowsVault(TaskOf(s, t).req, Available(s)))
    case CheckCapacity(t) =>
      var (req, available) := (TaskOf(s, t).req, TaskOf(s, t).available);
      var outstanding := Clamp(ExactTotal(s.items));
      if SaturatingAdd(outstanding, req.amount) > available then Set(s, t, Done)
      else Set(s, t, FitsVault(req, available))
    case PickNumber(t) =>
      var (req, available) := (TaskOf(s, t).req, TaskOf(s, t).available);
      Set(s, t, HasNumber(req, available, NextNumber(OfChannel(s.items, req.channelId))))
    case StoreIt(t) =>
      Set(s, t, Done).(items := Stored(s.items, Voucher(TaskOf(s, t).req, TaskOf(s, t).number)))
    case Unlock(t) => Set(s, t, Idle).(holder := None)
    case VaultMoves(deposited, reserved) => s.(deposited := deposited, reserved := reserved)
  }

  /** Nobody is paying yet, and what is stored is within the vault. */
  ghost predicate Start(s: State)
  {
    && s.holder.None? && s.tasks == map[]
    && Consistent(s.items) && ExactTotal(s.items) <= Available(s)
  }

  /** The one case in which the saturating check lets too much pass: the task saw all of u64 available and
      the sum does not fit u64. */
  predicate CheckSaturates(s: State, a: Action)
  {
    && a.CheckCapacity? && TaskOf(s, a.task).KnowsVault?
    && TaskOf(s, a.task).available == U64_MAX
    && ExactTotal(s.items) + TaskOf(s, a.task).req.amount > U64_MAX
  }

  /** A run of the tasks in which no check saturates. */
  ghost predicate Behavior(states: seq<State>, actions: seq<Action>)
  {
    && |states| == |actions| + 1 && Start(states[0])
    && (forall i {:trigger actions[i]} :: 0 <= i < |actions| ==> !CheckSaturates(states[i], actions[i]))
    && forall i {:trigger actions[i]} :: 0 <= i < |actions| ==> Enabled(states[i], actions[i]) && states[i + 1] == Apply(states[i], actions[i])
  }

  // ----- The invariant -----

  /** What a task in the critical section has learned still holds. */
  ghost predicate KnowledgeHolds(s: State, t: Task)
  {
    match t
    case KnowsVault(_, available) => available <= Available(s)
    case FitsVault(req, available) => available <= Available(s) && ExactTotal(s.items) + req.amount <= available
    case HasNumber(req, available, number) =>
      && available <= Available(s) && ExactTotal(s.items) + req.amount <= available
      && number == NextNumber(OfChannel(s.items, req.channelId))
    case _ => true
  }

  ghost predicate Inv(s: State)
  {
    && Consistent(s.items)
    && ExactTotal(s.items) <= Available(s)
    && (forall t: nat :: InSection(TaskOf(s, t)) <==> s.holder == Some(t))
    && (s.holder.Some? ==> KnowledgeHolds(s, TaskOf(s, s.holder.value)))
  }

  /** Only the holder of the mutex moves inside the critical section. */
  lemma Moved(s: State, t: nat, task: Task)
    ensures TaskOf(Set(s, t, task), t) == task
    ensures forall u: nat :: u != t ==> TaskOf(Set(s, t, task), u) == TaskOf(s, u)
  {
  }

  lemma StoreKeepsInv(s: State, t: nat)
    requires Inv(s) && Enabled(s, StoreIt(t))
    ensures Inv(Apply(s, StoreIt(t)))
    ensures
      var task := TaskOf(s, t);
      var (before, after) := (ExactTotal(s.items), ExactTotal(Apply(s, StoreIt(t)).items));
      && after <= before + task.req.amount
      && (HasKey(s.items, KeyOf(task.req.channelId, task.number)) <==> WrapsOntoFirst(OfChannel(s.items, task.req.channelId)))
      && (!WrapsOntoFirst(OfChannel(s.items, task.req.channelId)) ==> after == before + task.req.amount)
  {
    var v := Voucher(TaskOf(s, t).req, TaskOf(s, t).number);
    assert s.holder == Some(t);
    NextNumberIsFresh(s.items, v.channelId);
    StoredConsistent(s.items, v);
    StoringNewAddsAmount(s.items, v);
    Moved(s, t, Done);
  }

  /** The capacity check is exact unless the sum overflows while all of u64 is available. */
  lemma CapacityCheckExact(outstanding: u64, amount: u64, available: u64)
    ensures (SaturatingAdd(outstanding, amount) <= available ==> outstanding + amount <= available)
            <==> available < U64_MAX || outstanding + amount <= U64_MAX
  {
  }

  lemma CheckKeepsInv(s: State, t: nat)
    requires Inv(s) && Enabled(s, CheckCapacity(t)) && !CheckSaturates(s, CheckCapacity(t))
    ensures Inv(Apply(s, CheckCapacity(t)))
  {
    assert s.holder == Some(t);
    CapacityCheckExact(ExactTotal(s.items), TaskOf(s, t).req.amount, TaskOf(s, t).available);
    Moved(s, t, Done);
    Moved(s, t, FitsVault(TaskOf(s, t).req, TaskOf(s, t).available));
  }

  lemma PickKeepsInv(s: State, t: nat)
    requires Inv(s) && Enabled(s, PickNumber(t))
    ensures Inv(Apply(s, PickNumber(t)))
  {
    assert s.holder == Some(t);
    var (req, available) := (TaskOf(s, t).req, TaskOf(s, t).available);
    Moved(s, t, HasNumber(req, available, NextNumber(OfChannel(s.items, req.channelId))));
  }

  lemma ApplyKeepsInv(s: State, a: Action)
    requires Inv(s) && Enabled(s, a) && !CheckSaturates(s, a)
    ensures Inv(Apply(s, a))
  {
    match a
    case StoreIt(t) => StoreKeepsInv(s, t);
    case CheckCapacity(t) => CheckKeepsInv(s, t);
    case PickNumber(t) => PickKeepsInv(s, t);
    case Ask(t, req) => assert s.holder != Some(t);
    case Lock(t) =>
    case LeaveOtherwise(t) => assert s.holder == Some(t);
    case ReadVault(t) => assert s.holder == Some(t);
    case Unlock(t) => assert s.holder == Some(t);
    case VaultMoves(_, _) =>
      forall t: nat
        ensures TaskOf(Apply(s, a), t) == TaskOf(s, t)
      {
      }
  }

  lemma {:induction false} BehaviorKeepsInv(states: seq<State>, actions: seq<Action>, i: nat)
    requires Behavior(states, actions) && i < |states|
    ensures Inv(states[i])
  {
    if i > 0 {
      BehaviorKeepsInv(states, actions, i - 1);
      assert Enabled(states[i - 1], actions[i - 1]);
      ApplyKeepsInv(states[i - 1], actions[i - 1]);
    }
  }

  /** Solvency: under every interleaving of payment tasks, while the vault's availability does not shrink
      and no check saturates, the exact sum of all stored vouchers stays within it, so the saturating sum
      never saturates. A check can saturate only on a vault with all of u64 available. */
  lemma VoucherSolvency(states: seq<State>, actions: seq<Action>, i: nat)
    requires Behavior(states, actions) && i < |states|
    ensures ExactTotal(states[i].items) <= Available(states[i])
    ensures Clamp(ExactTotal(states[i].items)) == ExactTotal(states[i].items)
  {
    BehaviorKeepsInv(states, actions, i);
  }

  /** Issuing: a stored voucher never adds more than its amount; it gets a key nobody has, and adds exactly
      its amount, unless the numbering of its channel wrapped onto its first voucher. Every other step
      leaves the store as it is. */
  lemma IssuingIsExact(states: seq<State>, actions: seq<Action>, i: nat)
    requires Behavior(states, actions) && i < |actions|
    ensures !actions[i].StoreIt? ==> states[i + 1].items == states[i].items
    ensures actions[i].StoreIt? ==>
              var task := TaskOf(states[i], actions[i].task);
              var (before, after) := (states[i].items, states[i + 1].items);
              && task.HasNumber?
              && ExactTotal(after) <= ExactTotal(before) + task.req.amount
              && (!WrapsOntoFirst(OfChannel(before, task.req.channelId)) ==>
                    && !HasKey(before, KeyOf(task.req.channelId, task.number))
                    && ExactTotal(after) == ExactTotal(before) + task.req.amount)
  {
    BehaviorKeepsInv(states, actions, i);
    assert Enabled(states[i], actions[i]);
    if actions[i].StoreIt? {
      assert states[i].holder == Some(actions[i].task);
      StoreKeepsInv(states[i], actions[i].task);
    }
  }

  // ----- One uninterrupted call -----

  /** What one voucher payment does to the store when the vault has `available` left. */
  function Issue(items: Entries, available: u64, req: Request): (Entries, Option<StoredVoucher>)
  {
    if SaturatingAdd(Clamp(ExactTotal(items)), req.amount) > available then (items, None)
    else
      var v := Voucher(req, NextNumber(OfChannel(items, req.channelId)));
      (Stored(items, v), Some(v))
  }

  /** A call issues exactly when the new exact sum is within what is available, or all of u64 is. */
  lemma IssuesIff(items: Entries, available: u64, req: Request)
    ensures Issue(items, available, req).1.Some?
            <==> ExactTotal(items) + req.amount <= available || available == U64_MAX
  {
  }

  /** What is stored under the key of the next voucher: nothing, unless the numbering wrapped. */
  function Replaced(items: Entries, channelId: Digest): nat
  {
    AmountAt(items, KeyOf(channelId, NextNumber(OfChannel(items, channelId))))
  }

  /** Starting from a store within the vault, one call stays within it exactly when less than all of u64
      is available or the new sum, less what the voucher replaces, fits u64. */
  lemma IssueSolventIff(items: Entries, available: u64, req: Request)
    requires Consistent(items) && ExactTotal(items) <= available
    ensures ExactTotal(Issue(items, available, req).0) <= available
            <==> available < U64_MAX || ExactTotal(items) + req.amount - Replaced(items, req.channelId) <= U64_MAX
    ensures !WrapsOntoFirst(OfChannel(items, req.channelId)) ==> Replaced(items, req.channelId) == 0
  {
    var v := Voucher(req, NextNumber(OfChannel(items, req.channelId)));
    NextNumberIsFresh(items, req.channelId);
    StoringNewAddsAmount(items, v);
    CapacityCheckExact(ExactTotal(items), req.amount, available);
    if !WrapsOntoFirst(OfChannel(items, req.channelId)) { NothingAt(items, KeyOf(v.channelId, v.number)); }
  }

  lemma OneVoucher(items: Entries, v: StoredVoucher)
    requires items == [Item(KeyOf(v.channelId, v.number), v)]
    ensures Consistent(items) && ExactTotal(items) == v.amount && OfChannel(items, v.channelId) == [v]
  {
    assert items[1..] == [];
  }

  lemma FirstFills(first: Request) returns (v: StoredVoucher, items: Entries)
    requires first.amount == U64_MAX
    ensures Issue([], U64_MAX, first).0 == items == [Item(KeyOf(v.channelId, v.number), v)]
    ensures v.channelId == first.channelId && v.number == 1 && v.amount == U64_MAX
  {
    v := Voucher(first, 1);
    items := [Item(KeyOf(v.channelId, 1), v)];
  }

  lemma IssueStores(items: Entries, req: Request, number: u64)
    requires NextNumber(OfChannel(items, req.channelId)) == number
    ensures Issue(items, U64_MAX, req).0 == Stored(items, Voucher(req, number))
  {
    IssuesIff(items, U64_MAX, req);
  }

  lemma SecondAdds(items: Entries, v: StoredVoucher, second: Request)
    requires Consistent(items) && ExactTotal(items) == U64_MAX && OfChannel(items, second.channelId) == [v]
    requires v.number == 1 && second.amount == 1
    ensures ExactTotal(Issue(items, U64_MAX, second).0) == U64_MAX + 1
  {
    var vouchers := OfChannel(items, second.channelId);
    assert NextNumber(vouchers) == 2 && !WrapsOntoFirst(vouchers);
    IssueStores(items, second, 2);
    NextNumberIsFresh(items, second.channelId);
    StoringNewAddsAmount(items, Voucher(second, 2));
  }

  /** So with u64::MAX available two payments of one channel can overdraw the vault. */
  lemma FullVaultCanBeOverdrawn(first: Request, second: Request)
    requires first.amount == U64_MAX && second.amount == 1 && first.channelId == second.channelId
    ensures
      var (items, _) := Issue([], U64_MAX, first);
      ExactTotal(Issue(items, U64_MAX, second).0) == U64_MAX + 1
  {
    var v, items := FirstFills(first);
    OneVoucher(items, v);
    SecondAdds(items, v, second);
  }

  /** The number after the channel's last voucher. */
  method NextSeq(store: Store, channelId: Digest) returns (nextSeq: u64)
    requires store.Valid()
    ensures nextSeq == NextNumber(OfChannel(store.tree.items, channelId))
  {
    var vouchers := store.GetVouchersForChannel(channelId);
    nextSeq := 1;
    if vouchers != [] {
      var last := vouchers[|vouchers| - 1];
      nextSeq := (last.number + 1) % (U64_MAX + 1);
    }
  }

  /** `available` is None when the vault's state cannot be read. */
  method TryMbVoucherPayment(store: Store, available: Option<u64>, req: Request) returns (voucher: Option<StoredVoucher>)
    requires store.Valid()
    modifies store.tree
    ensures store.Valid()
    ensures available.None? ==> voucher.None? && store.tree.items == old(store.tree.items)
    ensures available.Some? ==> (store.tree.items, voucher) == Issue(old(store.tree.items), available.value, req)
    ensures voucher.Some? <==>
              available.Some?
              && (ExactTotal(old(store.tree.items)) + req.amount <= available.value || available.value == U64_MAX)
    ensures voucher.None? ==> store.tree.items == old(store.tree.items)
    ensures voucher.Some? ==>
              var v := voucher.value;
              && v.channelId == req.channelId && v.merchant == req.merchant && v.amount == req.amount
              && v.number == NextNumber(OfChannel(old(store.tree.items), req.channelId))
              && v.buyerSig == req.sign(v.channelId, v.number, v.amount)
              && OnlySets(old(store.tree.items), store.tree.items, KeyOf(v.channelId, v.number), v)
  {
    if available.None? {
      return None;
    }
    IssuesIff(store.tree.items, available.value, req);
    var outstanding := store.TotalOutstanding();
    if SaturatingAdd(outstanding, req.amount) > available.value {
      return None;
    }
    var nextSeq := NextSeq(store, req.channelId);
    var sig := req.sign(req.channelId, nextSeq, req.amount);
    var v := StoredVoucher(req.channelId, req.merchant, nextSeq, req.amount, sig);
    InsertOnlySets(store.tree.items, KeyOf(v.channelId, v.number), v);
    store.StoreVoucher(v);
    voucher := Some(v);
  }

  /** The steps of one payment, taken without interruption, are that call. */
  lemma StepsAreIssue(s: State, t: nat)
    requires Inv(s) && TaskOf(s, t).Locked?
    ensures
      var req := TaskOf(s, t).req;
      var s2 := Apply(Apply(s, ReadVault(t)), CheckCapacity(t));
      var (items, voucher) := Issue(s.items, Available(s), req);
      if s2.tasks[t].Done? then items == s.items && voucher.None?
      else
        && Enabled(s2, PickNumber(t))
        && var s3 := Apply(s2, PickNumber(t));
        Enabled(s3, StoreIt(t)) && Apply(s3, StoreIt(t)).items == items && voucher.Some?
  {
  }
}
