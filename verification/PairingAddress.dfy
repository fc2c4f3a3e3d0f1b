/** Which phone the address of a paired mediator was set for, and by whom (ignite-pay-merchant-mcp/src/mediator.rs:126-151, 752-758, 903-909). */
module PairingAddress {
  import opened Bytes
  import opened Pairing

  datatype Kind = AsRequest | AsConfirm | AsUpdate | AsNothing

  /** How a frame is handled, in the order in which its handler tests types. */
  function KindOf(f: Frame): Kind
  {
    match f
    case Encrypted(_, typ, _, _) =>
      if Contains(typ, CONNECTION_REQUEST) then AsRequest
      else if Contains(typ, CONNECTION_CONFIRM) then AsConfirm
      else if Contains(typ, MEDIATOR_UPDATE) then AsUpdate
      else AsNothing
    case Plain(_, typ, _, _) =>
      if typ.None? then AsNothing
      else if Contains(typ.value, MEDIATOR_UPDATE) then AsUpdate
      else if Contains(typ.value, CONNECTION_REQUEST) then AsRequest
      else if Contains(typ.value, CONNECTION_CONFIRM) then AsConfirm
      else AsNothing
    case Unreadable => AsNothing
  }

  predicate RequestsNow(m: State, e: Event)
  {
    e.Receive? && KindOf(e.frame).AsRequest? && m.pairedPhone.None?
  }

  /** The event stores the address it carries. */
  predicate SetsAddress(m: State, e: Event)
  {
    && e.Receive? && BodyOf(e.frame).mediatorUrl.Some?
    && (RequestsNow(m, e) || (KindOf(e.frame).AsUpdate? && m.pairedPhone == Some(SenderOf(e.frame))))
  }

  /** What an event does to the address, to the pending phone and to the pairing. */
  lemma AddressEffect(verify: Verifier, m: State, e: Event)
    requires Inv(m)
    ensures Next(verify, m, e).phoneUrl == if SetsAddress(m, e) then BodyOf(e.frame).mediatorUrl else m.phoneUrl
    ensures RequestsNow(m, e) ==> Next(verify, m, e).pendingPhone == Some(SenderOf(e.frame)) && Asks(m, e, SenderOf(e.frame))
    ensures !RequestsNow(m, e) && Next(verify, m, e).pendingPhone.Some? ==> Next(verify, m, e).pendingPhone == m.pendingPhone
    ensures m.pairedPhone.None? && Next(verify, m, e).pairedPhone.Some? ==> !SetsAddress(m, e)
  {
  }

  /** The phone named by the message that set the stored address last. */
  function Setter(verify: Verifier, events: seq<Event>): Option<string>
  {
    if events == [] then None
    else
      var (init, e) := (events[..|events| - 1], events[|events| - 1]);
      if SetsAddress(Run(verify, FRESH, init), e) then Some(SenderOf(e.frame)) else Setter(verify, init)
  }

  /** The stored address is the one in the last message that set it. */
  lemma {:induction false} AddressComesFrom(verify: Verifier, events: seq<Event>) returns (k: nat)
    requires Run(verify, FRESH, events).phoneUrl.Some?
    ensures k < |events| && SetsAddress(Run(verify, FRESH, events[..k]), events[k])
    ensures Setter(verify, events) == Some(SenderOf(events[k].frame))
    ensures BodyOf(events[k].frame).mediatorUrl == Run(verify, FRESH, events).phoneUrl
  {
    var init, e := events[..|events| - 1], events[|events| - 1];
    RunKeepsInv(verify, init);
    AddressEffect(verify, Run(verify, FRESH, init), e);
    if SetsAddress(Run(verify, FRESH, init), e) {
      k := |events| - 1;
    } else {
      k := AddressComesFrom(verify, init);
      assert init[..k] == events[..k];
    }
  }

  /** The last request naming the pending phone: the address was not set after it. */
  lemma {:induction false} LastRequest(verify: Verifier, events: seq<Event>) returns (i: nat)
    requires Run(verify, FRESH, events).pendingPhone.Some?
    ensures i < |events|
    ensures RequestsNow(Run(verify, FRESH, events[..i]), events[i])
    ensures SenderOf(events[i].frame) == Run(verify, FRESH, events).pendingPhone.value
    ensures Setter(verify, events) == Setter(verify, events[..i + 1])
  {
    var init, e := events[..|events| - 1], events[|events| - 1];
    var m := Run(verify, FRESH, init);
    RunKeepsInv(verify, init);
    RunKeepsInv(verify, events);
    AddressEffect(verify, m, e);
    EventEffect(verify, m, e);
    if RequestsNow(m, e) {
      i := |events| - 1;
      assert events[..i + 1] == events;
    } else {
      i := LastRequest(verify, init);
      assert init[..i] == events[..i] && init[..i + 1] == events[..i + 1];
    }
  }

  /** Event `k` of a history sets the address. */
  predicate SetAt(verify: Verifier, events: seq<Event>, k: nat)
    requires k < |events|
  {
    SetsAddress(Run(verify, FRESH, events[..k]), events[k])
  }

  /** After event `j` an update set the address. */
  predicate SetLater(verify: Verifier, events: seq<Event>, j: nat)
  {
    exists k :: j < k < |events| && SetAt(verify, events, k)
  }

  lemma SetAtInit(verify: Verifier, events: seq<Event>, n: nat, k: nat)
    requires k < n <= |events|
    ensures SetAt(verify, events[..n], k) == SetAt(verify, events, k)
  {
    assert events[..n][..k] == events[..k];
  }

  /** The pairing of `did` by event `j`, after the last request naming it, `i`. */
  ghost predicate Paired(verify: Verifier, events: seq<Event>, i: nat, j: nat, did: string)
  {
    && i < j < |events|
    && RequestsNow(Run(verify, FRESH, events[..i]), events[i]) && SenderOf(events[i].frame) == did
    && ConfirmsPending(verify, Run(verify, FRESH, events[..j]), events[j], did)
  }

  lemma PairedStays(verify: Verifier, events: seq<Event>, n: nat, i: nat, j: nat, did: string)
    requires n <= |events| && Paired(verify, events[..n], i, j, did)
    ensures Paired(verify, events, i, j, did)
    ensures Setter(verify, events[..i + 1]) == Setter(verify, events[..n][..i + 1])
  {
    assert events[..n][..i] == events[..i] && events[..n][..j] == events[..j];
    assert events[..n][..i + 1] == events[..i + 1];
  }

  lemma SetLaterStep(verify: Verifier, events: seq<Event>, j: nat)
    requires events != [] && j < |events| - 1
    ensures
      var (init, e) := (events[..|events| - 1], events[|events| - 1]);
      SetLater(verify, events, j) <==> SetLater(verify, init, j) || SetsAddress(Run(verify, FRESH, init), e)
  {
    var n := |events| - 1;
    forall k | 0 <= k < n ensures SetAt(verify, events[..n], k) == SetAt(verify, events, k) {
      SetAtInit(verify, events, n, k);
    }
    assert SetAt(verify, events, n) == SetsAddress(Run(verify, FRESH, events[..n]), events[n]);
  }

  /** The address that a paired mediator holds was set by a message naming the paired phone exactly when it
      had been so after the last request naming that phone, or an update set it after the pairing. */
  lemma {:induction false} AddressNamesPhoneIff(verify: Verifier, events: seq<Event>) returns (i: nat, j: nat)
    requires Run(verify, FRESH, events).pairedPhone.Some?
    ensures Paired(verify, events, i, j, Run(verify, FRESH, events).pairedPhone.value)
    ensures
      var did := Run(verify, FRESH, events).pairedPhone;
      Setter(verify, events) == did <==> Setter(verify, events[..i + 1]) == did || SetLater(verify, events, j)
  {
    var init, e := events[..|events| - 1], events[|events| - 1];
    var m := Run(verify, FRESH, init);
    RunKeepsInv(verify, init);
    AddressEffect(verify, m, e);
    EventEffect(verify, m, e);
    if m.pairedPhone.Some? {
      i, j := AddressNamesPhoneIff(verify, init);
      PairedStays(verify, events, |events| - 1, i, j, m.pairedPhone.value);
      SetLaterStep(verify, events, j);
    } else {
      i := LastRequest(verify, init);
      j := |events| - 1;
      assert init[..i] == events[..i] && init[..i + 1] == events[..i + 1];
    }
  }

  lemma ConfirmIsNoRequest()
    ensures !Contains(CONNECTION_CONFIRM, CONNECTION_REQUEST)
    ensures Contains(CONNECTION_REQUEST, CONNECTION_REQUEST) && Contains(CONNECTION_CONFIRM, CONNECTION_CONFIRM)
  {
    assert CONNECTION_REQUEST <= CONNECTION_REQUEST[0..];
    assert CONNECTION_CONFIRM <= CONNECTION_CONFIRM[0..];
    assert |CONNECTION_CONFIRM| == |CONNECTION_REQUEST| == 18;
    assert CONNECTION_CONFIRM[11] == 'c' && CONNECTION_REQUEST[11] == 'r';
  }

  /** So a phone whose request carries no address is paired with the address in another phone's request. */
  lemma AnotherPhonesAddress(verify: Verifier, author: string, other: string, did: string, url: string, nonce: string, signature: string)
    requires verify(did, nonce, signature) && other != did
    ensures
      var events := [
        Receive(Encrypted(author, CONNECTION_REQUEST, Some(other), Body(Some(url), None, None))),
        Receive(Encrypted(author, CONNECTION_REQUEST, Some(did), Body(None, None, None))),
        Receive(Encrypted(author, CONNECTION_CONFIRM, Some(did), Body(None, Some(nonce), Some(signature))))];
      && Run(verify, FRESH, events).pairedPhone == Some(did)
      && Run(verify, FRESH, events).phoneUrl == Some(url) && Setter(verify, events) == Some(other)
  {
    ConfirmIsNoRequest();
    var e1 := Receive(Encrypted(author, CONNECTION_REQUEST, Some(other), Body(Some(url), None, None)));
    var e2 := Receive(Encrypted(author, CONNECTION_REQUEST, Some(did), Body(None, None, None)));
    var e3 := Receive(Encrypted(author, CONNECTION_CONFIRM, Some(did), Body(None, Some(nonce), Some(signature))));
    assert [e1, e2, e3][..2] == [e1, e2] && [e1, e2][..1] == [e1] && [e1][..0] == [];
    assert Run(verify, FRESH, [e1]) == Next(verify, FRESH, e1) && Setter(verify, [e1]) == Some(other);
    assert Setter(verify, [e1, e2]) == Some(other);
    assert Run(verify, FRESH, [e1, e2]) == Next(verify, Run(verify, FRESH, [e1]), e2);
  }

  // ----- Authors -----

  function AuthorOf(f: Frame): string
  {
    match f
    case Encrypted(author, _, _, _) => author
    case Plain(author, _, _, _) => author
    case Unreadable => ""
  }

  /** The failing frame: anybody who writes an update that names the paired phone moves the address. */
  lemma AnyAuthorMovesAddress(verify: Verifier, m: State, author: string, url: string)
    requires m.pairedPhone.Some?
    ensures Handle(verify, m, Plain(author, Some(MEDIATOR_UPDATE), m.pairedPhone, Body(Some(url), None, None))).phoneUrl
            == Some(url)
  {
    assert MEDIATOR_UPDATE <= MEDIATOR_UPDATE[0..];
  }

  /** Over frames that `transport` lets through, only the paired phone's own frames move the address. */
  ghost predicate OnlyAuthorMovesAddress(verify: Verifier, transport: Frame -> bool)
  {
    forall m: State, f: Frame | Inv(m) && m.pairedPhone.Some? && transport(f) ::
      Handle(verify, m, f).phoneUrl != m.phoneUrl ==> m.pairedPhone == Some(AuthorOf(f))
  }

  /** Every update with an address that gets through names its author. */
  ghost predicate UpdatesNameTheirAuthor(transport: Frame -> bool)
  {
    forall f: Frame | transport(f) :: KindOf(f).AsUpdate? && BodyOf(f).mediatorUrl.Some? ==> SenderOf(f) == AuthorOf(f)
  }

  lemma MovedByUpdate(verify: Verifier, m: State, f: Frame)
    requires Inv(m) && m.pairedPhone.Some? && Handle(verify, m, f).phoneUrl != m.phoneUrl
    ensures KindOf(f).AsUpdate? && BodyOf(f).mediatorUrl.Some? && m.pairedPhone == Some(SenderOf(f))
  {
    AddressEffect(verify, m, Receive(f));
  }

  lemma UpdateMoves(verify: Verifier, f: Frame) returns (m: State)
    requires KindOf(f).AsUpdate? && BodyOf(f).mediatorUrl.Some?
    ensures Inv(m) && m.pairedPhone == Some(SenderOf(f)) && Handle(verify, m, f).phoneUrl != m.phoneUrl
  {
    m := State(Some(SenderOf(f)), None, None, Saved(Some(SenderOf(f)), None));
    AddressEffect(verify, m, Receive(f));
  }

  /** The exact condition: only the paired phone's own frames move the address if and only if every update
      that gets through names its author. The handlers check nothing of the kind. */
  lemma OnlyAuthorMovesAddressIff(verify: Verifier, transport: Frame -> bool)
    ensures OnlyAuthorMovesAddress(verify, transport) <==> UpdatesNameTheirAuthor(transport)
  {
    if UpdatesNameTheirAuthor(transport) {
      forall m: State, f: Frame |
        Inv(m) && m.pairedPhone.Some? && transport(f) && Handle(verify, m, f).phoneUrl != m.phoneUrl
        ensures m.pairedPhone == Some(AuthorOf(f))
      {
        MovedByUpdate(verify, m, f);
      }
    }
    if OnlyAuthorMovesAddress(verify, transport) {
      forall f: Frame | transport(f) && KindOf(f).AsUpdate? && BodyOf(f).mediatorUrl.Some?
        ensures SenderOf(f) == AuthorOf(f)
      {
        var m := UpdateMoves(verify, f);
      }
    }
  }
}
