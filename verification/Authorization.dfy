/**
  * The authorization handshake between two contacts (AddressBook/authorization.cpp and
  * AddressBook/RequestAuthorization.cpp), with the delivery rules of received_request
  * (ConnectionProcessor.cpp) and OnReceivedAuthorizationMessage (KeyhoteeMainWindow.cpp).
  */
module Authorization {
  import opened Basics

  // contact.auth_status
  datatype Status =
    | Unauthorized | SentRequest | Accepted | AcceptedChat | AcceptedMail | Denied | IBlock | BlockedMe

  // The status of a message.
  datatype Kind = Request | Accept | Deny | Block

  // request_param has chat in bit 0, mail in bit 1 and the exchange of extended keys in bit 8.
  datatype Message = Message(kind: Kind, param: bv16, key: nat)

  // The peer as a contact; key is send_trx_address, 0 when there is none.
  datatype Contact = Contact(status: Status, key: nat)

  const NEW_CONTACT: Contact := Contact(Unauthorized, 0)

  // The state of the three check boxes of either form.
  datatype Boxes = Boxes(chat: bool, mail: bool, extend: bool)

  // What one side ever did.
  datatype Act = Asked | SaidYes | SaidNo | SaidBlock | BlockedInMenu

  // One side: its contact for the other, the open requests, the authorization database, and all that
  // it handed to its outbox.
  datatype Party = Party(
    identity: bool,
    contact: Option<Contact>,
    requests: seq<Message>,
    authDb: seq<Message>,
    sent: seq<Message>,
    acts: set<Act>)

  // ----- The messages -----

  function ParamOf(b: Boxes): bv16
  {
    (if b.chat then 1 else 0) | (if b.mail then 2 else 0) | (if b.extend then 0x100 else 0)
  }

  predicate Extends(param: bv16) { (param >> 8) & 1 == 1 }

  // The boxes of a view as its constructor sets them from the request.
  function BoxesOf(param: bv16): Boxes { Boxes(param & 1 == 1, (param >> 1) & 1 == 1, Extends(param)) }

  // Left as initialised, the boxes send back the three bits that came, and no other.
  lemma BoxesRoundTrip(param: bv16, b: Boxes)
    ensures ParamOf(BoxesOf(param)) == param & 0x103
    ensures BoxesOf(ParamOf(b)) == b
  {}

  // The status an acceptance gives; without chat and mail the switch has no case for it.
  function AcceptedAs(param: bv16, before: Status): Status
  {
    match param & 3
    case 1 => AcceptedChat
    case 2 => AcceptedMail
    case 3 => Accepted
    case _ => before
  }

  // setAuthorizationStatus for a message and the status given to it
  function StatusFor(msg: Message, given: Kind, before: Status): Status
  {
    match given
    case Accept => AcceptedAs(msg.param, before)
    case Block => if msg.kind == Request then IBlock else BlockedMe
    case Deny => Denied
    case Request => Unauthorized
  }

  // ----- One side's operations -----

  function WithStatus(p: Party, msg: Message, given: Kind): Party
  {
    if p.contact.None? then p
    else p.(contact := Some(p.contact.value.(status := StatusFor(msg, given, p.contact.value.status))))
  }

  function WithKey(p: Party, msg: Message): Party
  {
    if !Extends(msg.param) || p.contact.None? then p
    else p.(contact := Some(p.contact.value.(key := msg.key)))
  }

  // addAsNewContact; the box is enabled only while the peer is not a contact.
  function WithContact(p: Party, add: bool): Party
  {
    if p.contact.None? && add then p.(contact := Some(NEW_CONTACT)) else p
  }

  function KeyToSend(p: Party, b: Boxes, generated: nat): nat
  {
    if b.extend && p.contact.Some? then generated else 0
  }

  // storeAuthorization
  function Archived(p: Party, msg: Message): Party
  {
    p.(requests := Without(p.requests, msg), authDb := p.authDb + [msg])
  }

  function Without(s: seq<Message>, msg: Message): (t: seq<Message>)
    ensures forall m :: m in t ==> m in s
  {
    if s == [] then [] else if s[0] == msg then s[1..] else [s[0]] + Without(s[1..], msg)
  }

  // sendReply: a denial is never sent.
  function Replied(p: Party, msg: Message, given: Kind, b: Boxes, generated: nat): Party
  {
    if !p.identity then p
    else
      var key := if given == Accept then KeyToSend(p, b, generated) else 0;
      var reply := if given == Deny then [] else [Message(given, ParamOf(b), key)];
      Archived(p.(sent := p.sent + reply), msg)
  }

  function ActFor(given: Kind): Act
  {
    match given
    case Accept => SaidYes
    case Deny => SaidNo
    case Block => SaidBlock
    case Request => Asked
  }

  // The side that answers, before it replies.
  function Prepared(p: Party, msg: Message, given: Kind, add: bool): Party
  {
    var p1 := p.(acts := p.acts + {ActFor(given)});
    var p2 := if given == Deny then p1 else WithContact(p1, add);
    if given == Accept then WithKey(p2, msg) else p2
  }

  // onAccept, onDeny and onBlock
  function Answered(p: Party, msg: Message, given: Kind, add: bool, b: Boxes, generated: nat): Party
  {
    WithStatus(Replied(Prepared(p, msg, given, add), msg, given, b, generated), msg, given)
  }

  // onSend
  function Requested(p: Party, add: bool, b: Boxes, generated: nat): Party
  {
    var p1 := WithContact(p, add);
    if !p.identity then p1
    else
      var msg := Message(Request, ParamOf(b), KeyToSend(p1, b, generated));
      var p2 := p1.(sent := p1.sent + [msg], acts := p1.acts + {Asked});
      if p2.contact.None? then p2 else p2.(contact := Some(p2.contact.value.(status := SentRequest)))
  }

  // received_request and what follows: an answer takes effect at once.
  function Received(p: Party, msg: Message): Party
  {
    if p.contact.Some? && p.contact.value.status == IBlock then p
    else
      var p1 := p.(requests := p.requests + [msg]);
      if msg.kind == Request then p1
      else
        var p2 := WithStatus(if msg.kind == Accept then WithKey(p1, msg) else p1, msg, msg.kind);
        if p.identity then Archived(p2, msg) else p2
  }

  // onBlockContact and onUnblockContact
  function MenuBlock(p: Party, block: bool): Party
  {
    match p.contact
    case None => p
    case Some(c) =>
      if block then p.(contact := Some(c.(status := IBlock)), acts := p.acts + {BlockedInMenu})
      else if c.status == IBlock then p.(contact := Some(c.(status := Unauthorized)))
      else p
  }

  // ----- Two sides -----

  datatype World = World(a: Party, b: Party)

  function Side(w: World, first: bool): Party { if first then w.a else w.b }

  function Put(w: World, first: bool, p: Party): World { if first then w.(a := p) else w.(b := p) }

  datatype Event =
    | Ask(add: bool, boxes: Boxes, generated: nat)
    | Answer(index: nat, given: Kind, add: bool, boxes: Boxes, generated: nat)
    | Deliver(index: nat)
    | Menu(block: bool)
    | Remove
    | AddContact

  datatype Move = Move(first: bool, event: Event)

  // Any message sent may arrive, at any time, in any order, more than once or never. Answers are given
  // to open requests.
  predicate Enabled(w: World, m: Move)
  {
    var p, peer := Side(w, m.first), Side(w, !m.first);
    match m.event
    case Answer(i, given, _, _, _) => i < |p.requests| && p.requests[i].kind == Request && given != Request
    case Deliver(i) => i < |peer.sent|
    case AddContact => p.contact.None?
    case _ => true
  }

  function PartyAfter(w: World, m: Move): Party
    requires Enabled(w, m)
  {
    var p, peer := Side(w, m.first), Side(w, !m.first);
    match m.event
    case Ask(add, b, generated) => Requested(p, add, b, generated)
    case Answer(i, given, add, b, generated) => Answered(p, p.requests[i], given, add, b, generated)
    case Deliver(i) => Received(p, peer.sent[i])
    case Menu(block) => MenuBlock(p, block)
    case Remove => p.(contact := None)
    case AddContact => p.(contact := Some(NEW_CONTACT))
  }

  function Step(w: World, m: Move): World
    requires Enabled(w, m)
  {
    Put(w, m.first, PartyAfter(w, m))
  }

  predicate Legal(w: World, run: seq<Move>)
    decreases |run|
  {
    run == [] || (Enabled(w, run[0]) && Legal(Step(w, run[0]), run[1..]))
  }

  function After(w: World, run: seq<Move>): World
    requires Legal(w, run)
    decreases |run|
  {
    if run == [] then w else After(Step(w, run[0]), run[1..])
  }

  // Two sides that never dealt with each other; either may have the other as a contact.
  predicate Strangers(w: World)
  {
    Fresh(w.a) && Fresh(w.b)
  }

  predicate Fresh(p: Party)
  {
    (p.contact.Some? ==> p.contact.value == NEW_CONTACT) && p.requests == [] && p.sent == [] && p.acts == {}
  }

  // ----- Provenance -----

  // What a status at p says about the acts of the two sides.
  predicate StatusEarned(p: Party, peer: Party)
  {
    p.contact.Some? ==>
      var s := p.contact.value.status;
      match s
      case Unauthorized => true
      case SentRequest => Asked in p.acts
      case Denied => SaidNo in p.acts && Asked in peer.acts
      case IBlock => BlockedInMenu in p.acts || (SaidBlock in p.acts && Asked in peer.acts)
      case BlockedMe => SaidBlock in peer.acts && Asked in p.acts
      case _ =>
        || (SaidYes in p.acts && Asked in peer.acts && exists m :: m in peer.sent && Offers(m, Request, s))
        || (SaidYes in peer.acts && Asked in p.acts && exists m :: m in peer.sent && Offers(m, Accept, s))
  }

  predicate Offers(m: Message, kind: Kind, s: Status) { m.kind == kind && AcceptedAs(m.param, Unauthorized) == s }

  // The key kept for the peer is one that the peer sent.
  predicate KeyEarned(p: Party, peer: Party)
  {
    p.contact.Some? && p.contact.value.key != 0 ==> exists m :: m in peer.sent && SentKey(m, p.contact.value.key)
  }

  predicate SentKey(m: Message, key: nat) { m.key == key && Extends(m.param) }

  predicate MessagesEarned(p: Party, peer: Party)
  {
    && (forall m :: m in p.sent ==> m.kind != Deny && ActFor(m.kind) in p.acts)
    && (forall m :: m in p.requests ==> m in peer.sent)
    && (SaidYes in p.acts || SaidNo in p.acts || SaidBlock in p.acts ==> Asked in peer.acts)
  }

  predicate HalfInv(p: Party, peer: Party) { StatusEarned(p, peer) && KeyEarned(p, peer) && MessagesEarned(p, peer) }

  predicate Inv(w: World) { HalfInv(w.a, w.b) && HalfInv(w.b, w.a) }

  // A side never takes back what it sent or did.
  predicate Grew(p: Party, n: Party) { (forall m :: m in p.sent ==> m in n.sent) && p.acts <= n.acts }

  lemma PeerGrows(peer: Party, p: Party, n: Party)
    requires HalfInv(peer, p) && Grew(p, n)
    ensures HalfInv(peer, n)
  {}

  lemma StepKeepsInv(w: World, m: Move)
    requires Enabled(w, m) && Inv(w)
    ensures Inv(Step(w, m))
  {
    var p, peer := Side(w, m.first), Side(w, !m.first);
    var n := PartyAfter(w, m);
    assert HalfInv(p, peer) && HalfInv(peer, p);
    assert HalfInv(n, peer) && Grew(p, n) by {
      hide HalfInv, Grew;
      match m.event
      case Ask(add, b, generated) => AskKeeps(p, peer, add, b, generated);
      case Answer(i, given, add, b, generated) => AnswerKeeps(p, peer, i, given, add, b, generated);
      case Deliver(i) => DeliverKeeps(p, peer, i);
      case Menu(block) => MenuKeeps(p, peer, block);
      case Remove => ContactKeeps(p, peer);
      case AddContact => ContactKeeps(p, peer);
    }
    hide HalfInv, Grew;
    PeerGrows(peer, p, n);
  }

  lemma AskKeeps(p: Party, peer: Party, add: bool, b: Boxes, generated: nat)
    requires HalfInv(p, peer)
    ensures HalfInv(Requested(p, add, b, generated), peer) && Grew(p, Requested(p, add, b, generated))
  {
    hide ParamOf, AcceptedAs, Extends;
    var n := Requested(p, add, b, generated);
    assert n.contact.Some? && p.contact.Some? ==> n.contact.value.key == p.contact.value.key;
  }

  lemma MenuKeeps(p: Party, peer: Party, block: bool)
    requires HalfInv(p, peer)
    ensures HalfInv(MenuBlock(p, block), peer) && Grew(p, MenuBlock(p, block))
  {
    hide AcceptedAs, Extends;
  }

  lemma ContactKeeps(p: Party, peer: Party)
    requires HalfInv(p, peer)
    ensures HalfInv(p.(contact := None), peer) && Grew(p, p.(contact := None))
    ensures HalfInv(p.(contact := Some(NEW_CONTACT)), peer) && Grew(p, p.(contact := Some(NEW_CONTACT)))
  {
    hide AcceptedAs, Extends;
  }

  // A message of the peer taken into account: as its request answered, or as its answer.
  lemma StatusKeeps(p: Party, peer: Party, msg: Message, given: Kind)
    requires StatusEarned(p, peer) && msg in peer.sent && given != Request
    requires msg.kind == Request ==> ActFor(given) in p.acts && Asked in peer.acts
    requires msg.kind != Request ==> given == msg.kind != Deny && ActFor(given) in peer.acts && Asked in p.acts
    ensures StatusEarned(WithStatus(p, msg, given), peer)
  {
    if p.contact.Some? {
      var n := WithStatus(p, msg, given);
      var s := n.contact.value.status;
      if given == Accept && msg.param & 3 != 0 {
        assert Offers(msg, msg.kind, s);
      }
    }
  }

  lemma KeyKeeps(p: Party, peer: Party, msg: Message)
    requires KeyEarned(p, peer) && msg in peer.sent
    ensures KeyEarned(WithKey(p, msg), peer)
  {
    if Extends(msg.param) && p.contact.Some? {
      assert SentKey(msg, msg.key);
    }
  }

  // Only an answer that the peer itself requested arrives.
  lemma DeliverKeeps(p: Party, peer: Party, i: nat)
    requires HalfInv(p, peer) && HalfInv(peer, p) && i < |peer.sent|
    ensures HalfInv(Received(p, peer.sent[i]), peer) && Grew(p, Received(p, peer.sent[i]))
  {
    var msg := peer.sent[i];
    assert msg in peer.sent && msg.kind != Deny && ActFor(msg.kind) in peer.acts;
    if !(p.contact.Some? && p.contact.value.status == IBlock) {
      var p1 := p.(requests := p.requests + [msg]);
      assert HalfInv(p1, peer);
      if msg.kind != Request {
        KeyKeeps(p1, peer, msg);
        var p2 := if msg.kind == Accept then WithKey(p1, msg) else p1;
        assert StatusEarned(p2, peer) && KeyEarned(p2, peer) && MessagesEarned(p2, peer);
        assert Asked in p.acts;
        StatusKeeps(p2, peer, msg, msg.kind);
        hide StatusFor, AcceptedAs, Extends, SentKey, Offers;
      }
    }
  }

  lemma PreparedKeeps(p: Party, peer: Party, msg: Message, given: Kind, add: bool)
    requires HalfInv(p, peer) && msg in peer.sent && Asked in peer.acts
    ensures HalfInv(Prepared(p, msg, given, add), peer) && Grew(p, Prepared(p, msg, given, add))
    ensures Prepared(p, msg, given, add).requests == p.requests && ActFor(given) in Prepared(p, msg, given, add).acts
  {
    var p1 := p.(acts := p.acts + {ActFor(given)});
    var p2 := if given == Deny then p1 else WithContact(p1, add);
    hide AcceptedAs, Extends, SentKey, Offers;
    assert HalfInv(p2, peer);
    KeyKeeps(p2, peer, msg);
  }

  lemma ReplyKeeps(p: Party, peer: Party, msg: Message, given: Kind, b: Boxes, generated: nat)
    requires HalfInv(p, peer) && ActFor(given) in p.acts
    ensures HalfInv(Replied(p, msg, given, b, generated), peer) && Grew(p, Replied(p, msg, given, b, generated))
    ensures Replied(p, msg, given, b, generated).acts == p.acts
  {
    hide AcceptedAs, Extends, SentKey, Offers, ParamOf, KeyToSend, StatusEarned;
    var n := Replied(p, msg, given, b, generated);
    assert StatusEarned(p, peer) ==> StatusEarned(n, peer) by { StatusFrame(p, n, peer); }
  }

  lemma StatusFrame(p: Party, n: Party, peer: Party)
    requires n.contact == p.contact && n.acts == p.acts
    ensures StatusEarned(p, peer) ==> StatusEarned(n, peer)
  {
    hide Offers;
  }

  lemma AnswerKeeps(p: Party, peer: Party, i: nat, given: Kind, add: bool, b: Boxes, generated: nat)
    requires HalfInv(p, peer) && HalfInv(peer, p)
    requires i < |p.requests| && p.requests[i].kind == Request && given != Request
    ensures var n := Answered(p, p.requests[i], given, add, b, generated); HalfInv(n, peer) && Grew(p, n)
  {
    var msg := p.requests[i];
    assert msg in peer.sent && ActFor(msg.kind) in peer.acts;
    PreparedKeeps(p, peer, msg, given, add);
    var p3 := Prepared(p, msg, given, add);
    ReplyKeeps(p3, peer, msg, given, b, generated);
    var p4 := Replied(p3, msg, given, b, generated);
    hide Replied, AcceptedAs, Extends, SentKey, Offers, StatusFor;
    StatusKeeps(p4, peer, msg, given);
    hide StatusEarned;
  }

  lemma {:induction false} RunKeepsInv(w: World, run: seq<Move>)
    requires Legal(w, run) && Inv(w)
    ensures Inv(After(w, run))
    decreases |run|
  {
    if run != [] {
      StepKeepsInv(w, run[0]);
      hide Inv, Step, Enabled;
      RunKeepsInv(Step(w, run[0]), run[1..]);
    }
  }

  // Over every run of two sides that start as strangers, whatever arrives and when: a status and a
  // key that one side has for the other come from what the two did.
  lemma Provenance(w: World, run: seq<Move>, first: bool)
    requires Strangers(w) && Legal(w, run)
    ensures var n := After(w, run);
            StatusEarned(Side(n, first), Side(n, !first)) && KeyEarned(Side(n, first), Side(n, !first))
  {
    assert Inv(w);
    hide Strangers;
    RunKeepsInv(w, run);
    hide StatusEarned, KeyEarned, MessagesEarned, Legal, After;
  }

  // ----- A blocked peer -----

  // Whatever the peer does and sends, a side that blocks it stays as it is until its user acts.
  lemma {:induction false} BlockHolds(w: World, run: seq<Move>, first: bool)
    requires Legal(w, run)
    requires Side(w, first).contact.Some? && Side(w, first).contact.value.status == IBlock
    requires forall m :: m in run && m.first == first ==> m.event.Deliver?
    ensures Side(After(w, run), first) == Side(w, first)
    decreases |run|
  {
    if run != [] {
      assert run[0] in run;
      assert Side(Step(w, run[0]), first) == Side(w, first);
      assert forall m :: m in run[1..] ==> m in run;
      hide Step, Enabled;
      BlockHolds(Step(w, run[0]), run[1..], first);
    }
  }

  // ----- The exchange without disturbance -----

  // One asks, the other accepts, and both messages arrive, between two contacts neither of whom
  // blocks the other. The asking side takes what the answer offers, the accepting side what the
  // request asked for.
  lemma Exchange(a: Party, b: Party, asked: Boxes, offered: Boxes, key1: nat, key2: nat)
    requires a.identity && a.contact.Some?
    requires b.identity && b.contact.Some? && b.contact.value.status != IBlock
    ensures var a1 := Requested(a, false, asked, key1);
            var request := a1.sent[|a1.sent| - 1];
            var b1 := Received(b, request);
            var b2 := Answered(b1, request, Accept, false, offered, key2);
            var a2 := Received(a1, b2.sent[|b2.sent| - 1]);
            && request in b1.requests
            && a2.contact.value.status == AcceptedAs(ParamOf(offered), SentRequest)
            && b2.contact.value.status == AcceptedAs(ParamOf(asked), b.contact.value.status)
            && a2.contact.value.key == (if offered.extend then key2 else a.contact.value.key)
            && b2.contact.value.key == (if asked.extend then key1 else b.contact.value.key)
  {
    BoxesRoundTrip(0, asked);
    BoxesRoundTrip(0, offered);
    hide ParamOf, AcceptedAs, Without, Extends;
  }

  // With chat or mail asked for, the two end with the same accepted status exactly when the answer's
  // chat and mail boxes are those of the request, as the form sets them; otherwise exactly when the
  // answer offers what the accepting side had before.
  lemma SameStatus(asked: Boxes, offered: Boxes, before: Status)
    ensures var a, b := AcceptedAs(ParamOf(offered), SentRequest), AcceptedAs(ParamOf(asked), before);
            (a == b && IsAccepted(a)) <==>
            if asked.chat || asked.mail then offered.chat == asked.chat && offered.mail == asked.mail
            else (offered.chat || offered.mail) && before == AcceptedAs(ParamOf(offered), SentRequest)
    ensures var initial := BoxesOf(ParamOf(asked));
            asked.chat || asked.mail ==>
              AcceptedAs(ParamOf(initial), SentRequest) == AcceptedAs(ParamOf(asked), before)
  {
    BoxesRoundTrip(0, asked);
  }

  predicate IsAccepted(s: Status) { s == Accepted || s == AcceptedChat || s == AcceptedMail }

  // ----- What passes -----

  // received_text shows a chat message from the peer; `filter` is the option _chat_allow_flag.
  predicate ChatPasses(p: Party, filter: bool)
  {
    p.contact.Some? && (!filter || p.contact.value.status == Accepted || p.contact.value.status == AcceptedChat)
  }

  // received_email puts a mail from the peer into the inbox; `filter` is the option _mail_allow_flag.
  predicate MailPasses(p: Party, filter: bool)
  {
    filter ==> p.contact.Some? && (p.contact.value.status == Accepted || p.contact.value.status == AcceptedMail)
  }

  // After an exchange without disturbance the filters of the asking side let through what the answer
  // offers, and those of the accepting side what the request asked for.
  lemma ExchangeOpens(a: Party, b: Party, asked: Boxes, offered: Boxes, key1: nat, key2: nat)
    requires a.identity && a.contact.Some?
    requires b.identity && b.contact.Some? && b.contact.value.status != IBlock
    ensures var a1 := Requested(a, false, asked, key1);
            var request := a1.sent[|a1.sent| - 1];
            var b2 := Answered(Received(b, request), request, Accept, false, offered, key2);
            var a2 := Received(a1, b2.sent[|b2.sent| - 1]);
            && (ChatPasses(a2, true) <==> offered.chat)
            && (MailPasses(a2, true) <==> offered.mail)
            && (asked.chat || asked.mail ==>
                  (ChatPasses(b2, true) <==> asked.chat) && (MailPasses(b2, true) <==> asked.mail))
  {
    Exchange(a, b, asked, offered, key1, key2);
    BoxesRoundTrip(0, asked);
    BoxesRoundTrip(0, offered);
    StatusOfBoxes(asked, b.contact.value.status);
    StatusOfBoxes(offered, SentRequest);
    hide AcceptedAs, ParamOf, Extends, Received, Answered, Requested;
  }

  lemma StatusOfBoxes(b: Boxes, before: Status)
    ensures AcceptedAs(ParamOf(b), before) ==
            if b.chat && b.mail then Accepted
            else if b.chat then AcceptedChat
            else if b.mail then AcceptedMail
            else before
  {}

  // The peer itself offered this: it sent a request or an acceptance with the box.
  ghost predicate Offered(peer: Party, bit: bv16)
  {
    exists m :: m in peer.sent && (m.kind == Request || m.kind == Accept) && m.param & bit != 0
  }

  // Over every run of two sides that start as strangers, with the filters on: chat or mail of the
  // peer passes only when one side asked and the other agreed, and only when the peer itself set the
  // box for it.
  lemma NothingPassesUnasked(w: World, run: seq<Move>, first: bool)
    requires Strangers(w) && Legal(w, run)
    ensures var n := After(w, run);
            var p, peer := Side(n, first), Side(n, !first);
            && (ChatPasses(p, true) || MailPasses(p, true) ==>
                  (Asked in p.acts && SaidYes in peer.acts) || (Asked in peer.acts && SaidYes in p.acts))
            && (ChatPasses(p, true) ==> Offered(peer, 1))
            && (MailPasses(p, true) ==> Offered(peer, 2))
  {
    Provenance(w, run, first);
    var n := After(w, run);
    PassesOnlyOffered(Side(n, first), Side(n, !first));
    hide Legal, After, StatusEarned, KeyEarned, Offered;
  }

  lemma PassesOnlyOffered(p: Party, peer: Party)
    requires StatusEarned(p, peer)
    ensures ChatPasses(p, true) || MailPasses(p, true) ==>
              (Asked in p.acts && SaidYes in peer.acts) || (Asked in peer.acts && SaidYes in p.acts)
    ensures ChatPasses(p, true) ==> Offered(peer, 1)
    ensures MailPasses(p, true) ==> Offered(peer, 2)
  {
    if ChatPasses(p, true) || MailPasses(p, true) {
      var s := p.contact.value.status;
      var m :| m in peer.sent && (Offers(m, Request, s) || Offers(m, Accept, s));
      assert m.param & 3 == 1 ==> m.param & 1 != 0;
      assert m.param & 3 == 2 ==> m.param & 2 != 0;
      assert m.param & 3 == 3 ==> m.param & 1 != 0 && m.param & 2 != 0;
    }
  }

  // ----- One side as an object -----

  /** The profile of one side: its address book as far as the peer is concerned, and its databases. */
  class Client {
    const identity: bool
    var contact: Option<Contact>
    var requestDb: seq<Message>
    var authDb: seq<Message>
    var sent: seq<Message>
    ghost var acts: set<Act>

    ghost function State(): Party
      reads this
    {
      Party(identity, contact, requestDb, authDb, sent, acts)
    }

    constructor (identity: bool, contact: Option<Contact>)
      ensures State() == Party(identity, contact, [], [], [], {})
    {
      this.identity, this.contact := identity, contact;
      requestDb, authDb, sent, acts := [], [], [], {};
    }

    method AddAsNewContact(add: bool)
      modifies this`contact
      ensures State() == WithContact(old(State()), add)
    {
      var enabled := contact.None?;
      if enabled && add {
        contact := Some(NEW_CONTACT);
      }
    }

    method AcceptExtendedPubKey(msg: Message)
      modifies this`contact
      ensures State() == WithKey(old(State()), msg)
    {
      if (msg.param >> 8) & 1 == 1 {
        if contact.None? {
          return;
        }
        contact := Some(contact.value.(key := msg.key));
      }
    }

    method SetAuthorizationStatus(msg: Message, status: Kind)
      requires status != Request
      modifies this`contact
      ensures State() == WithStatus(old(State()), msg, status)
    {
      if contact.None? {
        return;
      }
      var c := contact.value;
      match status {
        case Accept =>
          var asked := msg.param & 3;
          if asked == 1 {
            c := c.(status := AcceptedChat);
          } else if asked == 2 {
            c := c.(status := AcceptedMail);
          } else if asked == 3 {
            c := c.(status := Accepted);
          }
        case Block =>
          if msg.kind == Request {
            c := c.(status := IBlock);
          } else {
            c := c.(status := BlockedMe);
          }
        case Deny =>
          c := c.(status := Denied);
      }
      contact := Some(c);
    }

    method StoreAuthorization(msg: Message)
      modifies this`requestDb, this`authDb
      ensures State() == Archived(old(State()), msg)
    {
      requestDb := Without(requestDb, msg);
      authDb := authDb + [msg];
    }

    method SendReply(msg: Message, status: Kind, b: Boxes, generated: nat)
      modifies this`requestDb, this`authDb, this`sent
      ensures State() == Replied(old(State()), msg, status, b, generated)
    {
      if !identity {
        return;
      }
      if status != Deny {
        var param: bv16 := if b.chat then 1 else 0;
        param := param | (if b.mail then 1 << 1 else 0);
        param := param | (if b.extend then 1 << 8 else 0);
        assert param == ParamOf(b);
        var key := 0;
        if status == Accept {
          if b.extend && contact.Some? {
            key := generated;
          }
        }
        sent := sent + [Message(status, param, key)];
      } else {
        assert sent == sent + [];
      }
      StoreAuthorization(msg);
    }

    method OnAccept(msg: Message, add: bool, b: Boxes, generated: nat)
      modifies this
      ensures State() == Answered(old(State()), msg, Accept, add, b, generated)
    {
      acts := acts + {SaidYes};
      AddAsNewContact(add);
      AcceptExtendedPubKey(msg);
      SendReply(msg, Accept, b, generated);
      SetAuthorizationStatus(msg, Accept);
    }

    method OnDeny(msg: Message, b: Boxes)
      modifies this
      ensures forall add, generated: nat :: State() == Answered(old(State()), msg, Deny, add, b, generated)
    {
      acts := acts + {SaidNo};
      SendReply(msg, Deny, b, 0);
      SetAuthorizationStatus(msg, Deny);
    }

    method OnBlock(msg: Message, add: bool, b: Boxes)
      modifies this
      ensures forall generated: nat :: State() == Answered(old(State()), msg, Block, add, b, generated)
    {
      acts := acts + {SaidBlock};
      AddAsNewContact(add);
      SendReply(msg, Block, b, 0);
      SetAuthorizationStatus(msg, Block);
    }

    method ProcessResponse(msg: Message)
      requires msg.kind != Request
      modifies this
      ensures var before := if msg.kind == Accept then WithKey(old(State()), msg) else old(State());
              var p := WithStatus(before, msg, msg.kind);
              State() == if identity then Archived(p, msg) else p
    {
      if msg.kind == Accept {
        AcceptExtendedPubKey(msg);
      }
      SetAuthorizationStatus(msg, msg.kind);
      if !identity {
        return;
      }
      StoreAuthorization(msg);
    }

    // received_request; open says whether the user gets a request to answer.
    method ReceivedRequest(msg: Message) returns (open: bool)
      modifies this
      ensures State() == Received(old(State()), msg)
      ensures open ==> msg in requestDb && msg.kind == Request
    {
      open := false;
      if contact.None? || contact.value.status != IBlock {
        requestDb := requestDb + [msg];
        if msg.kind == Request {
          open := true;
        } else {
          ProcessResponse(msg);
        }
      }
    }

    method OnSend(add: bool, b: Boxes, generated: nat)
      modifies this
      ensures State() == Requested(old(State()), add, b, generated)
    {
      AddAsNewContact(add);
      if identity {
        var param: bv16 := if b.chat then 1 else 0;
        param := param | (if b.mail then 1 << 1 else 0);
        param := param | (if b.extend then 1 << 8 else 0);
        assert param == ParamOf(b);
        var key := if b.extend && contact.Some? then generated else 0;
        acts := acts + {Asked};
        sent := sent + [Message(Request, param, key)];
        if contact.Some? {
          contact := Some(contact.value.(status := SentRequest));
        }
      }
    }

    // received_text and received_email, for a message that the peer signed
    method ReceivedText(chatFilter: bool) returns (shown: bool)
      ensures shown <==> ChatPasses(State(), chatFilter)
    {
      shown := false;
      if contact.Some? {
        var status := contact.value.status;
        if !chatFilter || status == Accepted || status == AcceptedChat {
          shown := true;
        }
      }
    }

    method ReceivedEmail(mailFilter: bool) returns (allow: bool)
      ensures allow <==> MailPasses(State(), mailFilter)
    {
      allow := false;
      if mailFilter {
        if contact.Some? {
          var status := contact.value.status;
          if status == Accepted || status == AcceptedMail {
            allow := true;
          }
        }
      } else {
        allow := true;
      }
    }

    method OnBlockContact()
      modifies this
      ensures State() == MenuBlock(old(State()), true)
    {
      if contact.Some? {
        acts := acts + {BlockedInMenu};
        contact := Some(contact.value.(status := IBlock));
      }
    }

    method OnUnblockContact()
      modifies this`contact
      ensures State() == MenuBlock(old(State()), false)
    {
      if contact.None? || contact.value.status != IBlock {
        return;
      }
      contact := Some(contact.value.(status := Unauthorized));
    }
  }
}
