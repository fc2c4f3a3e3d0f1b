/** Pairing of the merchant's mediator with the merchant app
    (ignite-pay-merchant-mcp/src/mediator.rs): messages, persistence and restarts. */
module Pairing {
  import opened Bytes

  const CONNECTION_REQUEST := "connection-request"
  const CONNECTION_CONFIRM := "connection-confirm"
  const MEDIATOR_UPDATE := "mediator-update"

  /** What the database remembers across restarts. */
  datatype Saved = Saved(pairedPhone: Option<string>, phoneUrl: Option<string>)

  datatype State = State(
    pairedPhone: Option<string>, pendingPhone: Option<string>, phoneUrl: Option<string>, db: Saved)

  datatype Body = Body(mediatorUrl: Option<string>, nonce: Option<string>, signature: Option<string>)

  /** A text frame: an unpacked encrypted message, readable JSON, or neither. Its author is whoever wrote it;
      the handlers see only the sender that the message names. */
  datatype Frame =
    | Encrypted(author: string, innerType: string, innerFrom: Option<string>, innerBody: Body)
    | Plain(author: string, typ: Option<string>, from: Option<string>, body: Body)
    | Unreadable

  /** did, message, signature: whether the signature is valid. */
  type Verifier = (string, string, string) -> bool

  predicate Contains(s: string, part: string)
  {
    exists i :: 0 <= i <= |s| && part <= s[i..]
  }

  function OrEmpty(s: Option<string>): string
  {
    if s.Some? then s.value else ""
  }

  // ----- The three transitions -----

  function Request(m: State, did: string, url: Option<string>): State
  {
    if m.pairedPhone.Some? then m
    else
      var asked := m.(pendingPhone := Some(did));
      if url.None? then asked else asked.(phoneUrl := url, db := m.db.(phoneUrl := url))
  }

  function Confirm(verify: Verifier, m: State, did: string, nonce: string, signature: string): State
  {
    if m.pendingPhone != Some(did) then m
    else if !verify(did, nonce, signature) then m.(pendingPhone := None)
    else m.(pairedPhone := Some(did), pendingPhone := None, db := m.db.(pairedPhone := Some(did)))
  }

  function Update(m: State, did: string, url: Option<string>): State
  {
    if url.None? || m.pairedPhone != Some(did) then m
    else m.(phoneUrl := url, db := m.db.(phoneUrl := url))
  }

  // ----- The two handlers -----

  function HandlePlain(verify: Verifier, m: State, typ: string, from: Option<string>, body: Body): State
  {
    var did := OrEmpty(from);
    if Contains(typ, MEDIATOR_UPDATE) then Update(m, did, body.mediatorUrl)
    else if Contains(typ, CONNECTION_REQUEST) then Request(m, did, body.mediatorUrl)
    else if Contains(typ, CONNECTION_CONFIRM) then Confirm(verify, m, did, OrEmpty(body.nonce), OrEmpty(body.signature))
    else m
  }

  function HandleInner(verify: Verifier, m: State, typ: string, from: Option<string>, body: Body): State
  {
    var did := OrEmpty(from);
    if Contains(typ, CONNECTION_REQUEST) then Request(m, did, body.mediatorUrl)
    else if Contains(typ, CONNECTION_CONFIRM) then Confirm(verify, m, did, OrEmpty(body.nonce), OrEmpty(body.signature))
    else if Contains(typ, MEDIATOR_UPDATE) then Update(m, did, body.mediatorUrl)
    else m
  }

  function Handle(verify: Verifier, m: State, f: Frame): State
  {
    match f
    case Encrypted(_, typ, from, body) => HandleInner(verify, m, typ, from, body)
    case Plain(_, typ, from, body) => if typ.None? then m else HandlePlain(verify, m, typ.value, from, body)
    case Unreadable => m
  }

  /** A new process: only the database survives. */
  function Load(db: Saved): State
  {
    State(db.pairedPhone, None, db.phoneUrl, db)
  }

  /** A type that names an update and a pairing step at once. */
  predicate Ambiguous(typ: string)
  {
    Contains(typ, MEDIATOR_UPDATE) && (Contains(typ, CONNECTION_REQUEST) || Contains(typ, CONNECTION_CONFIRM))
  }

  ghost predicate HandlersAgree(verify: Verifier, typ: string)
  {
    forall m: State, from: Option<string>, body: Body ::
      HandlePlain(verify, m, typ, from, body) == HandleInner(verify, m, typ, from, body)
  }

  /** The plaintext and the encrypted handler make the same transition on every state, sender and body
      exactly when the type is not ambiguous. */
  lemma HandlersAgreeIff(verify: Verifier, typ: string)
    ensures HandlersAgree(verify, typ) <==> !Ambiguous(typ)
  {
    if Ambiguous(typ) {
      var body := Body(None, None, None);
      var unpaired := State(None, None, None, Saved(None, None));
      if Contains(typ, CONNECTION_REQUEST) {
        assert HandlePlain(verify, unpaired, typ, None, body) == unpaired;
        assert HandleInner(verify, unpaired, typ, None, body).pendingPhone == Some("");
      } else {
        var asked := unpaired.(pendingPhone := Some(""));
        assert HandlePlain(verify, asked, typ, None, body) == asked;
        assert HandleInner(verify, asked, typ, None, body).pendingPhone == None;
      }
    }
  }

  // ----- Runs -----

  datatype Event = Receive(frame: Frame) | Restart

  function Next(verify: Verifier, m: State, e: Event): State
  {
    match e
    case Receive(f) => Handle(verify, m, f)
    case Restart => Load(m.db)
  }

  function Run(verify: Verifier, m: State, events: seq<Event>): State
  {
    if events == [] then m
    else Next(verify, Run(verify, m, events[..|events| - 1]), events[|events| - 1])
  }

  const FRESH: State := State(None, None, None, Saved(None, None))

  /** Memory and database agree, and a paired mediator waits for nobody. */
  predicate Inv(m: State)
  {
    && m.pairedPhone == m.db.pairedPhone && m.phoneUrl == m.db.phoneUrl
    && (m.pairedPhone.Some? ==> m.pendingPhone.None?)
  }

  function TypeOf(f: Frame): string
  {
    match f
    case Encrypted(_, typ, _, _) => typ
    case Plain(_, typ, _, _) => OrEmpty(typ)
    case Unreadable => ""
  }

  /** The sender that the message names. */
  function SenderOf(f: Frame): string
  {
    match f
    case Encrypted(_, _, from, _) => OrEmpty(from)
    case Plain(_, _, from, _) => OrEmpty(from)
    case Unreadable => ""
  }

  function BodyOf(f: Frame): Body
  {
    match f
    case Encrypted(_, _, _, body) => body
    case Plain(_, _, _, body) => body
    case Unreadable => Body(None, None, None)
  }

  /** A connection-request naming `did`, to an unpaired mediator. */
  predicate Asks(m: State, e: Event, did: string)
  {
    && e.Receive? && m.pairedPhone.None?
    && Contains(TypeOf(e.frame), CONNECTION_REQUEST) && SenderOf(e.frame) == did
  }

  /** A connection-confirm naming `did`, pending at that moment, with a valid signature of the nonce. */
  predicate ConfirmsPending(verify: Verifier, m: State, e: Event, did: string)
  {
    && e.Receive? && m.pendingPhone == Some(did)
    && Contains(TypeOf(e.frame), CONNECTION_CONFIRM) && SenderOf(e.frame) == did
    && verify(did, OrEmpty(BodyOf(e.frame).nonce), OrEmpty(BodyOf(e.frame).signature))
  }

  /** A mediator-update naming `did`. */
  predicate UpdateNaming(e: Event, did: string)
  {
    && e.Receive? && Contains(TypeOf(e.frame), MEDIATOR_UPDATE) && SenderOf(e.frame) == did
    && BodyOf(e.frame).mediatorUrl.Some?
  }

  /** What a single event can change. */
  lemma EventEffect(verify: Verifier, m: State, e: Event)
    requires Inv(m)
    ensures Inv(Next(verify, m, e))
    ensures
      var n := Next(verify, m, e);
      && (m.pairedPhone.Some? ==> n.pairedPhone == m.pairedPhone)
      && (m.pairedPhone.None? && n.pairedPhone.Some? ==> ConfirmsPending(verify, m, e, n.pairedPhone.value))
      && (n.pendingPhone.Some? && n.pendingPhone != m.pendingPhone ==> Asks(m, e, n.pendingPhone.value))
      && (m.pairedPhone.Some? && n.phoneUrl != m.phoneUrl ==> UpdateNaming(e, m.pairedPhone.value))
  {
  }

  lemma {:induction false} RunKeepsInv(verify: Verifier, events: seq<Event>)
    ensures Inv(Run(verify, FRESH, events))
  {
    if events != [] {
      RunKeepsInv(verify, events[..|events| - 1]);
      EventEffect(verify, Run(verify, FRESH, events[..|events| - 1]), events[|events| - 1]);
    }
  }

  /** A pending phone was named by a request earlier in the run. */
  lemma {:induction false} PendingAsked(verify: Verifier, events: seq<Event>) returns (i: nat)
    requires Run(verify, FRESH, events).pendingPhone.Some?
    ensures i < |events|
    ensures Asks(Run(verify, FRESH, events[..i]), events[i], Run(verify, FRESH, events).pendingPhone.value)
  {
    var init, e := events[..|events| - 1], events[|events| - 1];
    var m := Run(verify, FRESH, init);
    RunKeepsInv(verify, init);
    EventEffect(verify, m, e);
    if m.pendingPhone == Run(verify, FRESH, events).pendingPhone {
      i := PendingAsked(verify, init);
      assert init[..i] == events[..i];
    } else {
      i := |events| - 1;
    }
  }

  /** Event `j` paired `did`, which the request of event `i` had named. */
  ghost predicate Handshake(verify: Verifier, events: seq<Event>, i: nat, j: nat, did: string)
  {
    && i < j < |events|
    && Asks(Run(verify, FRESH, events[..i]), events[i], did)
    && ConfirmsPending(verify, Run(verify, FRESH, events[..j]), events[j], did)
  }

  lemma PairsNow(verify: Verifier, init: seq<Event>, e: Event)
    ensures
      var m := Run(verify, FRESH, init);
      var n := Next(verify, m, e);
      && (m.pairedPhone.Some? ==> n.pairedPhone == m.pairedPhone)
      && (m.pairedPhone.None? && n.pairedPhone.Some? ==> ConfirmsPending(verify, m, e, n.pairedPhone.value))
  {
    RunKeepsInv(verify, init);
    EventEffect(verify, Run(verify, FRESH, init), e);
  }

  /** Pairing safety: whoever is paired was named by a request first, and later, while pending, by a
      confirm with a valid signature; over any messages and restarts. */
  lemma {:induction false} PairedAfterHandshake(verify: Verifier, events: seq<Event>) returns (i: nat, j: nat)
    requires Run(verify, FRESH, events).pairedPhone.Some?
    ensures Handshake(verify, events, i, j, Run(verify, FRESH, events).pairedPhone.value)
  {
    var init, e := events[..|events| - 1], events[|events| - 1];
    var m := Run(verify, FRESH, init);
    PairsNow(verify, init, e);
    if m.pairedPhone.Some? {
      i, j := PairedAfterHandshake(verify, init);
      assert init[..i] == events[..i] && init[..j] == events[..j];
    } else {
      i := PendingAsked(verify, init);
      j := |events| - 1;
      assert init[..i] == events[..i];
    }
  }

  /** Once paired: the phone never changes, nobody is pending, and this survives restarts. */
  lemma {:induction false} PairingIsFinal(verify: Verifier, events: seq<Event>, i: nat)
    requires i <= |events| && Run(verify, FRESH, events[..i]).pairedPhone.Some?
    ensures Run(verify, FRESH, events).pairedPhone == Run(verify, FRESH, events[..i]).pairedPhone
    ensures Run(verify, FRESH, events).pendingPhone.None?
  {
    RunKeepsInv(verify, events);
    if i == |events| {
      assert events[..i] == events;
    } else {
      var init := events[..|events| - 1];
      assert init[..i] == events[..i];
      PairingIsFinal(verify, init, i);
      RunKeepsInv(verify, init);
      EventEffect(verify, Run(verify, FRESH, init), events[|events| - 1]);
    }
  }

  /** Once paired, only a mediator-update that names the paired phone changes the stored address, in memory
      or in the database. */
  lemma OnlyUpdatesNamingThePhoneMoveAddress(verify: Verifier, events: seq<Event>, i: nat)
    requires i < |events| && Run(verify, FRESH, events[..i]).pairedPhone.Some?
    ensures
      var (m, n) := (Run(verify, FRESH, events[..i]), Run(verify, FRESH, events[..i + 1]));
      n.phoneUrl != m.phoneUrl || n.db != m.db ==> UpdateNaming(events[i], m.pairedPhone.value)
  {
    assert events[..i + 1][..i] == events[..i];
    RunKeepsInv(verify, events[..i]);
    EventEffect(verify, Run(verify, FRESH, events[..i]), events[i]);
  }

  // ----- What each kind of message does -----

  /** The type names this kind of message and neither of the others. */
  predicate NamesOnly(typ: string, kind: string)
    requires kind == CONNECTION_REQUEST || kind == CONNECTION_CONFIRM || kind == MEDIATOR_UPDATE
  {
    && (Contains(typ, CONNECTION_REQUEST) <==> kind == CONNECTION_REQUEST)
    && (Contains(typ, CONNECTION_CONFIRM) <==> kind == CONNECTION_CONFIRM)
    && (Contains(typ, MEDIATOR_UPDATE) <==> kind == MEDIATOR_UPDATE)
  }

  /** A request to an unpaired mediator, a confirm of the pending phone, or an address of the paired one. */
  predicate Concerns(m: State, f: Frame)
  {
    || (Contains(TypeOf(f), CONNECTION_REQUEST) && m.pairedPhone.None?)
    || (Contains(TypeOf(f), CONNECTION_CONFIRM) && m.pendingPhone == Some(SenderOf(f)))
    || (Contains(TypeOf(f), MEDIATOR_UPDATE) && m.pairedPhone == Some(SenderOf(f)) && BodyOf(f).mediatorUrl.Some?)
  }

  /** A message of one kind, in either handler. A request: an unpaired mediator waits for its sender and keeps the
      address, if it names one. A confirm of the pending phone: paired with a valid signature, and otherwise the
      pending phone is forgotten. An update of the paired phone: its address. In every other case nothing changes. */
  lemma MessageEffect(verify: Verifier, m: State, f: Frame, did: string, body: Body)
    requires !f.Unreadable? && did == SenderOf(f) && body == BodyOf(f)
    ensures
      var n := Handle(verify, m, f);
      var (nonce, signature) := (OrEmpty(body.nonce), OrEmpty(body.signature));
      && (NamesOnly(TypeOf(f), CONNECTION_REQUEST) && m.pairedPhone.None? ==>
            && n.pendingPhone == Some(did) && n.pairedPhone == None && n.db.pairedPhone == m.db.pairedPhone
            && (body.mediatorUrl.Some? ==> n.phoneUrl == n.db.phoneUrl == body.mediatorUrl)
            && (body.mediatorUrl.None? ==> n.phoneUrl == m.phoneUrl && n.db == m.db))
      && (NamesOnly(TypeOf(f), CONNECTION_CONFIRM) && m.pendingPhone == Some(did) ==>
            && n.pendingPhone == None && n.phoneUrl == m.phoneUrl && n.db.phoneUrl == m.db.phoneUrl
            && (verify(did, nonce, signature) ==> n.pairedPhone == n.db.pairedPhone == Some(did))
            && (!verify(did, nonce, signature) ==> n.pairedPhone == m.pairedPhone && n.db == m.db))
      && (NamesOnly(TypeOf(f), MEDIATOR_UPDATE) && m.pairedPhone == Some(did) && body.mediatorUrl.Some? ==>
            && n.phoneUrl == n.db.phoneUrl == body.mediatorUrl && n.db.pairedPhone == m.db.pairedPhone
            && n.pairedPhone == m.pairedPhone && n.pendingPhone == m.pendingPhone)
      && (!Concerns(m, f) ==> n == m)
  {
    if f.Plain? && f.typ.None? {
      assert TypeOf(f) == "";
      NoKindInEmpty();
    }
  }

  lemma NoKindInEmpty()
    ensures !Contains("", CONNECTION_REQUEST) && !Contains("", CONNECTION_CONFIRM) && !Contains("", MEDIATOR_UPDATE)
  {
  }

  /** A confirm of the pending phone, and of no other kind, whose signature is not valid. */
  predicate BadConfirm(verify: Verifier, m: State, e: Event)
  {
    && e.Receive? && !e.frame.Unreadable? && NamesOnly(TypeOf(e.frame), CONNECTION_CONFIRM)
    && m.pendingPhone == Some(SenderOf(e.frame))
    && !verify(SenderOf(e.frame), OrEmpty(BodyOf(e.frame).nonce), OrEmpty(BodyOf(e.frame).signature))
  }

  lemma BadConfirmForgets(verify: Verifier, m: State, e: Event)
    requires Inv(m) && BadConfirm(verify, m, e)
    ensures Next(verify, m, e) == m.(pendingPhone := None) && m.pairedPhone == None
  {
    MessageEffect(verify, m, e.frame, SenderOf(e.frame), BodyOf(e.frame));
  }

  /** While nobody was pending or paired after `i` events, whoever is pending or paired later was named by a
      request from then on. */
  lemma {:induction false} AskedSince(verify: Verifier, events: seq<Event>, i: nat, did: string) returns (k: nat)
    requires i <= |events|
    requires Run(verify, FRESH, events[..i]).pairedPhone.None? && Run(verify, FRESH, events[..i]).pendingPhone.None?
    requires Run(verify, FRESH, events).pendingPhone == Some(did) || Run(verify, FRESH, events).pairedPhone == Some(did)
    ensures i <= k < |events| && Asks(Run(verify, FRESH, events[..k]), events[k], did)
  {
    assert events[..|events|] == events;
    assert i < |events|;
    var n := |events| - 1;
    var m := Run(verify, FRESH, events[..n]);
    assert events[..n][..i] == events[..i];
    RunKeepsInv(verify, events[..n]);
    EventEffect(verify, m, events[n]);
    if m.pendingPhone == Some(did) || m.pairedPhone == Some(did) {
      k := AskedSince(verify, events[..n], i, did);
      assert events[..n][..k] == events[..k];
    } else {
      k := n;
    }
  }

  lemma ForgottenNext(verify: Verifier, events: seq<Event>, i: nat)
    requires i < |events| && BadConfirm(verify, Run(verify, FRESH, events[..i]), events[i])
    ensures Run(verify, FRESH, events[..i + 1]).pendingPhone.None?
    ensures Run(verify, FRESH, events[..i + 1]).pairedPhone.None?
  {
    assert events[..i + 1][..i] == events[..i];
    RunKeepsInv(verify, events[..i]);
    BadConfirmForgets(verify, Run(verify, FRESH, events[..i]), events[i]);
  }

  /** A confirm with a bad signature forgets the pending phone: whoever is paired later, be it the same phone, was
      named by a new request after it. */
  lemma BadSignatureNeedsNewRequest(verify: Verifier, events: seq<Event>, i: nat, did: string) returns (k: nat)
    requires i < |events| && BadConfirm(verify, Run(verify, FRESH, events[..i]), events[i])
    requires Run(verify, FRESH, events).pairedPhone == Some(did)
    ensures Run(verify, FRESH, events[..i + 1]).pendingPhone == None
    ensures i < k < |events| && Asks(Run(verify, FRESH, events[..k]), events[k], did)
  {
    ForgottenNext(verify, events, i);
    k := AskedSince(verify, events, i + 1, did);
  }

  // ----- The mediator -----

  class Db {
    var pairedPhone: Option<string>
    var phoneUrl: Option<string>

    function View(): Saved
      reads this
    {
      Saved(pairedPhone, phoneUrl)
    }
  }

  class MerchantMediator {
    var pairedPhone: Option<string>
    var pendingPhone: Option<string>
    var phoneUrl: Option<string>
    const db: Db

    function View(): State
      reads this, db
    {
      State(pairedPhone, pendingPhone, phoneUrl, db.View())
    }

    /** Starting the process on an existing database. */
    constructor (db: Db)
      ensures this.db == db && View() == Load(db.View())
    {
      this.db := db;
      pairedPhone := db.pairedPhone;
      pendingPhone := None;
      phoneUrl := db.phoneUrl;
    }

    method ApplyPhoneMediatorUpdate(phoneDid: string, url: string) returns (applied: bool)
      modifies this, db
      ensures View() == Update(old(View()), phoneDid, Some(url))
      ensures applied <==> old(pairedPhone) == Some(phoneDid)
    {
      if pairedPhone != Some(phoneDid) {
        return false;
      }
      phoneUrl := Some(url);
      db.phoneUrl := Some(url);
      applied := true;
    }

    method ConnectionRequest(phoneDid: string, url: Option<string>)
      modifies this, db
      ensures View() == Request(old(View()), phoneDid, url)
    {
      if pairedPhone.Some? {
        return;
      }
      pendingPhone := None;
      pendingPhone := Some(phoneDid);
      if url.Some? {
        phoneUrl := url;
        db.phoneUrl := url;
      }
    }

    method ConnectionConfirm(verify: Verifier, phoneDid: string, nonce: string, signature: string)
      modifies this, db
      ensures View() == Confirm(verify, old(View()), phoneDid, nonce, signature)
    {
      if pendingPhone != Some(phoneDid) {
        return;
      }
      var sigValid := verify(phoneDid, nonce, signature);
      if !sigValid {
        pendingPhone := None;
        return;
      }
      pairedPhone := Some(phoneDid);
      pendingPhone := None;
      db.pairedPhone := Some(phoneDid);
    }

    /** The plaintext branch of the message handler. */
    method HandlePlaintext(verify: Verifier, typ: string, from: Option<string>, body: Body)
      modifies this, db
      ensures View() == HandlePlain(verify, old(View()), typ, from, body)
    {
      var phoneDid := OrEmpty(from);
      if Contains(typ, MEDIATOR_UPDATE) {
        if body.mediatorUrl.Some? {
          var _ := ApplyPhoneMediatorUpdate(phoneDid, body.mediatorUrl.value);
        }
        return;
      }
      if Contains(typ, CONNECTION_REQUEST) {
        ConnectionRequest(phoneDid, body.mediatorUrl);
        return;
      }
      if Contains(typ, CONNECTION_CONFIRM) {
        ConnectionConfirm(verify, phoneDid, OrEmpty(body.nonce), OrEmpty(body.signature));
      }
    }

    /** The handler of unpacked encrypted messages. */
    method ProcessInnerMessage(verify: Verifier, typ: string, from: Option<string>, body: Body)
      modifies this, db
      ensures View() == HandleInner(verify, old(View()), typ, from, body)
    {
      var phoneDid := OrEmpty(from);
      if Contains(typ, CONNECTION_REQUEST) {
        ConnectionRequest(phoneDid, body.mediatorUrl);
        return;
      }
      if Contains(typ, CONNECTION_CONFIRM) {
        ConnectionConfirm(verify, phoneDid, OrEmpty(body.nonce), OrEmpty(body.signature));
        return;
      }
      if Contains(typ, MEDIATOR_UPDATE) {
        if body.mediatorUrl.Some? {
          var _ := ApplyPhoneMediatorUpdate(phoneDid, body.mediatorUrl.value);
        }
      }
    }

    method HandleIncomingMessage(verify: Verifier, frame: Frame)
      modifies this, db
      ensures View() == Next(verify, old(View()), Receive(frame))
    {
      match frame
      case Encrypted(_, typ, from, body) => ProcessInnerMessage(verify, typ, from, body);
      case Plain(_, typ, from, body) =>
        if typ.Some? {
          HandlePlaintext(verify, typ.value, from, body);
        }
      case Unreadable =>
    }
  }
}
