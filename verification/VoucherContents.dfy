/** What stored vouchers hold, under every interleaving of payment tasks (ignite-pay-mcp/src/main.rs:405-488). */
module VoucherContents {
  import opened Bytes
  import opened OrderedTree
  import opened VoucherStore
  import opened VoucherIssuing

  predicate HasRequest(t: Task)
  {
    !t.Idle? && !t.Done?
  }

  // ----- Whose request a task carries -----

  /** Task `t` carries `req`, or is asked now with it. */
  ghost predicate Carries(s: State, t: nat, req: Request)
  {
    HasRequest(TaskOf(s, t)) && TaskOf(s, t).req == req
  }

  lemma CarriedStep(s: State, a: Action, t: nat)
    requires Enabled(s, a) && HasRequest(TaskOf(Apply(s, a), t))
    ensures
      var req := TaskOf(Apply(s, a), t).req;
      Carries(s, t, req) || a == Ask(t, req)
  {
  }

  /** The request that a task carries is the one it was asked with. */
  lemma {:induction false} CarriedWasAsked(states: seq<State>, actions: seq<Action>, i: nat, t: nat) returns (j: nat)
    requires Behavior(states, actions) && i < |states| && HasRequest(TaskOf(states[i], t))
    ensures j < i && actions[j] == Ask(t, TaskOf(states[i], t).req)
  {
    assert i > 0;
    var (s, a) := (states[i - 1], actions[i - 1]);
    assert Enabled(s, a) && states[i] == Apply(s, a);
    CarriedStep(s, a, t);
    if Carries(s, t, TaskOf(states[i], t).req) {
      j := CarriedWasAsked(states, actions, i - 1, t);
    } else {
      j := i - 1;
    }
  }

  // ----- What is stored -----

  lemma StoreStep(s: State, t: nat)
    requires Enabled(s, StoreIt(t))
    ensures
      var (req, number) := (TaskOf(s, t).req, TaskOf(s, t).number);
      OnlySets(s.items, Apply(s, StoreIt(t)).items, KeyOf(req.channelId, number),
               StoredVoucher(req.channelId, req.merchant, number, req.amount, req.sign(req.channelId, number, req.amount)))
  {
    var (req, number) := (TaskOf(s, t).req, TaskOf(s, t).number);
    InsertOnlySets(s.items, KeyOf(req.channelId, number),
                   StoredVoucher(req.channelId, req.merchant, number, req.amount, req.sign(req.channelId, number, req.amount)));
  }

  /** Whatever the interleaving, a store step changes exactly one key, that of the asked channel and its next number;
      there it puts a voucher with the channel, the merchant and the amount that the task was asked with, that number,
      and the buyer's signature of just this channel, number and amount. */
  lemma StoredAsAsked(states: seq<State>, actions: seq<Action>, i: nat) returns (j: nat, req: Request, number: u64)
    requires Behavior(states, actions) && i < |actions| && actions[i].StoreIt?
    ensures j < i && actions[j] == Ask(actions[i].task, req)
    ensures number == NextNumber(OfChannel(states[i].items, req.channelId))
    ensures OnlySets(states[i].items, states[i + 1].items, KeyOf(req.channelId, number),
                     StoredVoucher(req.channelId, req.merchant, number, req.amount,
                                   req.sign(req.channelId, number, req.amount)))
  {
    var t := actions[i].task;
    BehaviorKeepsInv(states, actions, i);
    assert Enabled(states[i], actions[i]) && states[i + 1] == Apply(states[i], actions[i]);
    j := CarriedWasAsked(states, actions, i, t);
    req, number := TaskOf(states[i], t).req, TaskOf(states[i], t).number;
    assert states[i].holder == Some(t);
    StoreStep(states[i], t);
  }

  // ----- Every voucher is signed over its own fields -----

  type Signer = (Digest, u64, u64) -> bytes

  predicate IsSigned(sign: Signer, v: StoredVoucher)
  {
    v.buyerSig == sign(v.channelId, v.number, v.amount)
  }

  ghost predicate AllSigned(sign: Signer, items: Entries)
  {
    forall i :: 0 <= i < |items| ==> IsSigned(sign, items[i].value)
  }

  /** Every request is signed with the one key of the buyer. */
  ghost predicate OneSigner(sign: Signer, actions: seq<Action>)
  {
    forall i :: 0 <= i < |actions| && actions[i].Ask? ==> actions[i].req.sign == sign
  }

  lemma StepKeepsSigned(s: State, a: Action, sign: Signer)
    requires Enabled(s, a) && AllSigned(sign, s.items)
    requires a.StoreIt? ==> TaskOf(s, a.task).req.sign == sign
    ensures AllSigned(sign, Apply(s, a).items)
  {
    if a.StoreIt? {
      var (req, number) := (TaskOf(s, a.task).req, TaskOf(s, a.task).number);
      var v := StoredVoucher(req.channelId, req.merchant, number, req.amount, sign(req.channelId, number, req.amount));
      assert Apply(s, a).items == Insert(s.items, KeyOf(req.channelId, number), v);
      assert IsSigned(sign, v);
    }
  }

  /** When the buyer's key signs every request, all vouchers in the store are signed over their own channel, number
      and amount, in every state. */
  lemma {:induction false} EveryVoucherIsSigned(states: seq<State>, actions: seq<Action>, i: nat, sign: Signer)
    requires Behavior(states, actions) && i < |states|
    requires OneSigner(sign, actions) && AllSigned(sign, states[0].items)
    ensures AllSigned(sign, states[i].items)
  {
    if i > 0 {
      EveryVoucherIsSigned(states, actions, i - 1, sign);
      var (s, a) := (states[i - 1], actions[i - 1]);
      assert Enabled(s, a) && states[i] == Apply(s, a);
      if a.StoreIt? {
        var j := CarriedWasAsked(states, actions, i - 1, a.task);
        assert actions[j].req.sign == sign;
      }
      StepKeepsSigned(s, a, sign);
    }
  }
}
