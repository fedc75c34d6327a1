/** The outbox queue of ConnectionProcessor.cpp as a state machine.

    The user, the connection check and the transmission loop run concurrently, so every action that
    another thread can come between is a step of its own, and any step may be the next one.  Calls
    that can throw have an outcome chosen by the environment.  The digest of a message changes when it
    is stored again, so a message is followed here by an id that no program variable holds. */
module OutboxProtocol {
  type Key = nat
  type Id = nat

  datatype Mail = Mail(to: seq<Key>, cc: seq<Key>, bcc: seq<Key>, body: string)

  datatype Entry =
    | MailEntry(sender: Key, mail: Mail)
    | AuthEntry(sender: Key, recipient: Key, request: string)

  // What is handed to the network.  `pass` numbers the calls of transferMessage.
  datatype Transmission =
    | MailCopy(pass: nat, id: Id, copy: Mail, to: Key)
    | AuthCopy(id: Id, request: string, to: Key)

  datatype SentRecord = SentRecord(pass: nat, id: Id, mail: Mail)

  // Where the transmission loop is.
  datatype Pc =
    | Idle                                            // no loop is running
    | Top                                             // at the loop guard
    | Fetched(id: Id, entry: Entry)                   // fetchNextMessage returned true
    | Sending(id: Id, mail: Mail, next: nat)          // about to ask isCancelled for recipient `next`
    | Checked(id: Id, mail: Mail, next: nat)          // it said no; about to call sendMail
    | Storing(id: Id, mail: Mail)                     // transferMessage returned true
    | StoringHeader(id: Id)                           // the copy is in Sent
    | Removing(id: Id)                                // the sink was told; about to remove from Outbox
    | AuthSending(id: Id, request: string, to: Key)   // about to call sendAuthMsg
    | AuthRemoving(id: Id)                            // transferAuthMsg returned true
    | Bottom                                          // after the body of the loop

  datatype QueueState = QueueState(
    outbox: map<Id, Entry>,
    sent: seq<SentRecord>,
    net: seq<Transmission>,
    pc: Pc,
    checker: bool,            // a connection check is running
    cancelled: bool,
    pass: nat,
    known: map<Id, Entry>,    // everything ever stored in Outbox
    deleted: set<Id>,         // removed from the Outbox folder by the user
    dropped: set<Id>,         // requests whose sender has no identity
    netAtCancel: nat)         // length of `net` when the queue was cancelled

  datatype EnqueueOutcome = StoreThrows | HeaderThrows | Stored
  datatype LookupOutcome = KeyFound | NoIdentity | KeyThrows
  datatype SendOutcome = SendReturns | SendThrows(handedOver: bool)

  datatype Step =
    // the user and the connection check
    | Enqueue(id: Id, entry: Entry, stored: EnqueueOutcome)
    | UserDeletes(id: Id)
    | CheckConnection(connected: bool)
    | Cancel
    // the program ends, wherever the loop is, and a new queue starts over the two databases
    | Restart
    // the transmission loop
    | FetchNext(choice: Id, fails: bool)
    | LookUpKey(key: LookupOutcome)
    | TestCancelled
    | Send(result: SendOutcome)
    | StoreSent(ok: bool)
    | StoreSentHeader(ok: bool)
    | RemoveFromOutbox(ok: bool)
    | EndOfTurn

  const INITIAL := QueueState(map[], [], [], Idle, true, false, 0, map[], {}, {}, 0)

  function Recipients(m: Mail): seq<Key> { m.to + m.cc + m.bcc }

  // The message that is transmitted.
  function Blind(m: Mail): Mail { m.(bcc := []) }

  // StopTransmission looks whether the loop or the connection check is running.
  predicate Active(s: QueueState) { !s.pc.Idle? || s.checker }

  // checkForAvailableConnection
  function WithChecker(s: QueueState): QueueState { s.(checker := true) }

  function Apply(s: QueueState, step: Step): QueueState
  {
    match step
    case Enqueue(id, entry, stored) =>
      if id in s.known || stored.StoreThrows? then s
      else
        var s' := s.(outbox := s.outbox[id := entry], known := s.known[id := entry]);
        if stored.HeaderThrows? then s' else WithChecker(s')
    case UserDeletes(id) =>
      if id in s.outbox then s.(outbox := s.outbox - {id}, deleted := s.deleted + {id}) else s
    case CheckConnection(connected) =>
      if !s.checker then s
      else if connected then s.(checker := false, pc := if s.pc.Idle? then Top else s.pc)
      else if s.cancelled then s.(checker := false)
      else s
    case Cancel =>
      if s.cancelled || !Active(s) then s else s.(cancelled := true, netAtCancel := |s.net|)
    case Restart => s.(pc := Idle, checker := true, cancelled := false)
    case FetchNext(choice, fails) =>
      if !s.pc.Top? then s
      else if s.cancelled || fails || s.outbox == map[] then s.(pc := Idle)
      else if MayFetch(s.outbox, choice) then s.(pc := Fetched(choice, s.outbox[choice]))
      else s
    case LookUpKey(key) => ApplyLookUp(s, key)
    case TestCancelled =>
      if !s.pc.Sending? then s
      else if s.pc.next == |Recipients(s.pc.mail)| then s.(pc := Storing(s.pc.id, s.pc.mail))
      else if s.cancelled then s.(pc := Bottom)
      else s.(pc := Checked(s.pc.id, s.pc.mail, s.pc.next))
    case Send(result) => ApplySend(s, result)
    case StoreSent(ok) =>
      if !s.pc.Storing? then s
      else if !ok then s.(pc := Bottom)
      else s.(sent := s.sent + [SentRecord(s.pass, s.pc.id, s.pc.mail)], pc := StoringHeader(s.pc.id))
    case StoreSentHeader(ok) =>
      if !s.pc.StoringHeader? then s
      else s.(pc := if ok then Removing(s.pc.id) else Bottom)
    case RemoveFromOutbox(ok) =>
      if !s.pc.Removing? && !s.pc.AuthRemoving? then s
      else if !ok then s.(pc := if s.pc.Removing? then Bottom else Idle)
      else s.(outbox := s.outbox - {s.pc.id}, pc := Bottom)
    case EndOfTurn =>
      if !s.pc.Bottom? then s else s.(pc := if s.cancelled then Idle else Top)
  }

  // Mail goes before authorisation requests; among mail the database decides.
  predicate MayFetch(outbox: map<Id, Entry>, choice: Id)
  {
    choice in outbox && (outbox[choice].AuthEntry? ==> forall id :: id in outbox ==> outbox[id].AuthEntry?)
  }

  // findIdentityPrivateKey, in transferMessage or transferAuthMsg
  function ApplyLookUp(s: QueueState, key: LookupOutcome): QueueState
  {
    if !s.pc.Fetched? then s
    else match s.pc.entry
      case MailEntry(sender, mail) =>
        (match key
         case KeyFound => s.(pass := s.pass + 1, pc := Sending(s.pc.id, mail, 0))
         case NoIdentity => s.(pc := Bottom)
         case KeyThrows => WithChecker(s.(pc := Bottom)))
      case AuthEntry(sender, recipient, request) =>
        (match key
         case KeyFound => s.(pc := AuthSending(s.pc.id, request, recipient))
         case NoIdentity => s.(dropped := s.dropped + {s.pc.id}, pc := AuthRemoving(s.pc.id))
         case KeyThrows => WithChecker(s.(pc := Bottom)))
  }

  // sendMail or sendAuthMsg
  function ApplySend(s: QueueState, result: SendOutcome): QueueState
  {
    if s.pc.Checked? && s.pc.next < |Recipients(s.pc.mail)| then
      var t := MailCopy(s.pass, s.pc.id, Blind(s.pc.mail), Recipients(s.pc.mail)[s.pc.next]);
      match result
      case SendReturns => s.(net := s.net + [t], pc := Sending(s.pc.id, s.pc.mail, s.pc.next + 1))
      case SendThrows(handedOver) => WithChecker(s.(net := if handedOver then s.net + [t] else s.net, pc := Bottom))
    else if s.pc.AuthSending? then
      var t := AuthCopy(s.pc.id, s.pc.request, s.pc.to);
      match result
      case SendReturns => s.(net := s.net + [t], pc := AuthRemoving(s.pc.id))
      case SendThrows(handedOver) => WithChecker(s.(net := if handedOver then s.net + [t] else s.net, pc := Bottom))
    else s
  }

  function Run(s: QueueState, steps: seq<Step>): QueueState
    decreases |steps|
  {
    if steps == [] then s else Run(Apply(s, steps[0]), steps[1..])
  }

  // ----- The invariant -----

  // The mail copies of one pass, in the order they were handed to the network.
  function PassLog(net: seq<Transmission>, pass: nat): seq<Transmission>
  {
    if net == [] then []
    else
      var t := net[|net| - 1];
      PassLog(net[..|net| - 1], pass) + if t.MailCopy? && t.pass == pass then [t] else []
  }

  // One copy without the bcc list for each of the first n recipients.
  function Copies(pass: nat, id: Id, m: Mail, n: nat): (c: seq<Transmission>)
    requires n <= |Recipients(m)|
    ensures |c| == n
  {
    seq(n, i requires 0 <= i < n => MailCopy(pass, id, Blind(m), Recipients(m)[i]))
  }

  ghost predicate InSent(s: QueueState, id: Id)
  {
    exists k :: 0 <= k < |s.sent| && s.sent[k].id == id
  }

  ghost predicate AuthHandedOver(s: QueueState, id: Id)
  {
    exists k :: 0 <= k < |s.net| && s.net[k].AuthCopy? && s.net[k].id == id
  }

  ghost predicate KnownMail(s: QueueState, id: Id, m: Mail)
  {
    id in s.known && s.known[id].MailEntry? && s.known[id].mail == m
  }

  ghost predicate KnownAuth(s: QueueState, id: Id)
  {
    id in s.known && s.known[id].AuthEntry?
  }

  ghost predicate Accounted(s: QueueState)
  {
    && (forall id :: id in s.outbox ==> id in s.known && s.outbox[id] == s.known[id])
    && (forall id :: id in s.known && s.known[id].MailEntry? ==> id in s.outbox || id in s.deleted || InSent(s, id))
    && (forall id :: id in s.known && s.known[id].AuthEntry? ==>
         id in s.outbox || id in s.deleted || id in s.dropped || AuthHandedOver(s, id))
  }

  ghost predicate GoodTransmission(s: QueueState, t: Transmission)
  {
    match t
    case MailCopy(pass, id, copy, to) =>
      && pass <= s.pass && id in s.known && s.known[id].MailEntry?
      && copy == Blind(s.known[id].mail) && to in Recipients(s.known[id].mail)
    case AuthCopy(id, request, to) =>
      id in s.known && s.known[id].AuthEntry? && s.known[id].request == request && s.known[id].recipient == to
  }

  ghost predicate GoodRecord(s: QueueState, r: SentRecord)
  {
    && r.pass <= s.pass && KnownMail(s, r.id, r.mail)
    && PassLog(s.net, r.pass) == Copies(r.pass, r.id, r.mail, |Recipients(r.mail)|)
  }

  // What holds of the history when the loop is at pc.
  ghost predicate GoodPc(s: QueueState, pc: Pc)
  {
    match pc
    case Fetched(id, entry) => id in s.known && s.known[id] == entry
    case Sending(id, m, next) => Midway(s, id, m, next)
    case Checked(id, m, next) => Midway(s, id, m, next) && next < |Recipients(m)|
    case Storing(id, m) => Midway(s, id, m, |Recipients(m)|)
    case StoringHeader(id) => InSent(s, id) && id in s.known && s.known[id].MailEntry?
    case Removing(id) => InSent(s, id) && id in s.known && s.known[id].MailEntry?
    case AuthSending(id, request, to) =>
      KnownAuth(s, id) && s.known[id].request == request && s.known[id].recipient == to
    case AuthRemoving(id) => KnownAuth(s, id) && (id in s.dropped || AuthHandedOver(s, id))
    case _ => true
  }

  // The current pass has served exactly the first `next` recipients.
  ghost predicate Midway(s: QueueState, id: Id, m: Mail, next: nat)
  {
    && KnownMail(s, id, m) && next <= |Recipients(m)|
    && PassLog(s.net, s.pass) == Copies(s.pass, id, m, next)
    && forall k :: 0 <= k < |s.sent| ==> s.sent[k].pass < s.pass
  }

  // After a cancellation one send may still go out, the one already past the test.
  ghost predicate Quiet(s: QueueState)
  {
    s.cancelled ==>
      && s.netAtCancel <= |s.net| <= s.netAtCancel + 1
      && (|s.net| == s.netAtCancel + 1 ==>
           !s.pc.Checked? && !s.pc.AuthSending? && !(s.pc.Fetched? && s.pc.entry.AuthEntry?))
  }

  ghost predicate Inv(s: QueueState)
  {
    && Accounted(s)
    && (forall k :: 0 <= k < |s.net| ==> GoodTransmission(s, s.net[k]))
    && (forall k :: 0 <= k < |s.sent| ==> GoodRecord(s, s.sent[k]))
    && GoodPc(s, s.pc)
    && Quiet(s)
  }

  lemma PassLogAppend(net: seq<Transmission>, t: Transmission, pass: nat)
    ensures PassLog(net + [t], pass) == PassLog(net, pass) + if t.MailCopy? && t.pass == pass then [t] else []
  {
    assert (net + [t])[..|net|] == net;
  }

  // No copy carries a pass number that has not been given out.
  lemma {:induction false} PassLogEmpty(s: QueueState, net: seq<Transmission>, pass: nat)
    requires pass > s.pass
    requires forall k :: 0 <= k < |net| ==> GoodTransmission(s, net[k])
    ensures PassLog(net, pass) == []
  {
    if net != [] {
      assert GoodTransmission(s, net[|net| - 1]);
      PassLogEmpty(s, net[..|net| - 1], pass);
    }
  }

  // What the history says stays true while it only grows.
  lemma HistoryGrows(s: QueueState, s': QueueState, pc: Pc)
    requires Inv(s) && GoodPc(s, pc)
    requires s'.net == s.net && s'.sent == s.sent && s.pass <= s'.pass && s.dropped <= s'.dropped
    requires forall id :: id in s.known ==> id in s'.known && s'.known[id] == s.known[id]
    ensures forall k :: 0 <= k < |s'.net| ==> GoodTransmission(s', s'.net[k])
    ensures forall k :: 0 <= k < |s'.sent| ==> GoodRecord(s', s'.sent[k])
    ensures forall id :: InSent(s, id) ==> InSent(s', id)
    ensures forall id :: AuthHandedOver(s, id) ==> AuthHandedOver(s', id)
    ensures s'.pass == s.pass ==> GoodPc(s', pc)
  {
    hide PassLog, Copies;
    forall k | 0 <= k < |s'.net|
      ensures GoodTransmission(s', s'.net[k])
    {
      assert GoodTransmission(s, s.net[k]);
    }
    forall k | 0 <= k < |s'.sent|
      ensures GoodRecord(s', s'.sent[k])
    {
      assert GoodRecord(s, s.sent[k]);
    }
    forall id | InSent(s, id)
      ensures InSent(s', id)
    {
      var k :| 0 <= k < |s.sent| && s.sent[k].id == id;
      assert s'.sent[k].id == id;
    }
    forall id | AuthHandedOver(s, id)
      ensures AuthHandedOver(s', id)
    {
      var k :| 0 <= k < |s.net| && s.net[k].AuthCopy? && s.net[k].id == id;
      assert s'.net[k].AuthCopy? && s'.net[k].id == id;
    }
  }

  lemma EnqueueKeepsInv(s: QueueState, id: Id, entry: Entry, stored: EnqueueOutcome)
    requires Inv(s)
    ensures Inv(Apply(s, Enqueue(id, entry, stored)))
  {
    hide GoodTransmission, GoodRecord, GoodPc, InSent, AuthHandedOver;
    var s' := Apply(s, Enqueue(id, entry, stored));
    HistoryGrows(s, s', s.pc);
    NewAccounted(s, s', id, entry);
    hide Accounted;
  }

  lemma NewAccounted(s: QueueState, s': QueueState, id: Id, entry: Entry)
    requires Accounted(s)
    requires s'.deleted == s.deleted && s'.dropped == s.dropped
    requires || (s'.outbox == s.outbox && s'.known == s.known)
             || (id !in s.known && s'.outbox == s.outbox[id := entry] && s'.known == s.known[id := entry])
    requires forall i :: InSent(s, i) ==> InSent(s', i)
    requires forall i :: AuthHandedOver(s, i) ==> AuthHandedOver(s', i)
    ensures Accounted(s')
  {
    hide InSent, AuthHandedOver;
    assert forall i :: i in s'.known && i != id ==> i in s.known && s.known[i] == s'.known[i];
  }

  lemma DeleteKeepsInv(s: QueueState, id: Id)
    requires Inv(s)
    ensures Inv(Apply(s, UserDeletes(id)))
  {
    hide GoodTransmission, GoodRecord, GoodPc, InSent, AuthHandedOver;
    HistoryGrows(s, Apply(s, UserDeletes(id)), s.pc);
  }

  // Steps that only move the loop, the connection check or the cancel flag.
  lemma ControlKeepsAccounts(s: QueueState, s': QueueState)
    requires Inv(s)
    requires s' == s.(pc := s'.pc, checker := s'.checker, cancelled := s'.cancelled, netAtCancel := s'.netAtCancel)
    requires GoodPc(s, s'.pc) && Quiet(s')
    ensures Inv(s')
  {
    hide GoodTransmission, GoodRecord, InSent, AuthHandedOver, PassLog, Copies;
    HistoryGrows(s, s', s'.pc);
  }

  lemma ControlKeepsInv(s: QueueState, step: Step)
    requires Inv(s)
    requires || step.CheckConnection? || step.Cancel? || step.Restart? || step.FetchNext? || step.TestCancelled?
             || step.EndOfTurn?
    ensures Inv(Apply(s, step))
  {
    hide GoodTransmission, GoodRecord, InSent, AuthHandedOver, PassLog, Copies;
    ControlKeepsAccounts(s, Apply(s, step));
  }

  lemma LookUpKeepsInv(s: QueueState, key: LookupOutcome)
    requires Inv(s)
    ensures Inv(Apply(s, LookUpKey(key)))
  {
    if s.pc.Fetched? && s.pc.entry.MailEntry? && key.KeyFound? {
      PassKeepsInv(s);
    } else if s.pc.Fetched? && s.pc.entry.AuthEntry? && key.NoIdentity? {
      DropKeepsInv(s);
    } else {
      LookUpFails(s, key);
      hide Inv, ApplyLookUp, GoodPc, Quiet;
      ControlKeepsAccounts(s, Apply(s, LookUpKey(key)));
    }
  }

  lemma LookUpFails(s: QueueState, key: LookupOutcome)
    requires Inv(s)
    requires !(s.pc.Fetched? && s.pc.entry.MailEntry? && key.KeyFound?)
    requires !(s.pc.Fetched? && s.pc.entry.AuthEntry? && key.NoIdentity?)
    ensures var s' := ApplyLookUp(s, key);
            s' == s.(pc := s'.pc, checker := s'.checker) && GoodPc(s, s'.pc) && Quiet(s')
  {
    hide GoodTransmission, GoodRecord, InSent, AuthHandedOver, PassLog, Copies, Accounted;
  }

  lemma DropKeepsInv(s: QueueState)
    requires Inv(s) && s.pc.Fetched? && s.pc.entry.AuthEntry?
    ensures Inv(Apply(s, LookUpKey(NoIdentity)))
  {
    hide GoodTransmission, GoodRecord, InSent, AuthHandedOver, PassLog, Copies;
    HistoryGrows(s, Apply(s, LookUpKey(NoIdentity)), s.pc);
  }

  lemma PassKeepsInv(s: QueueState)
    requires Inv(s) && s.pc.Fetched? && s.pc.entry.MailEntry?
    ensures Inv(Apply(s, LookUpKey(KeyFound)))
  {
    var s' := Apply(s, LookUpKey(KeyFound));
    PassStarts(s, s');
    hide GoodTransmission, GoodRecord, GoodPc, InSent, AuthHandedOver, PassLog, Copies;
    HistoryGrows(s, s', s.pc);
  }

  // A new pass has served nobody yet.
  lemma PassStarts(s: QueueState, s': QueueState)
    requires Inv(s) && s.pc.Fetched? && s.pc.entry.MailEntry?
    requires s' == s.(pass := s.pass + 1, pc := Sending(s.pc.id, s.pc.entry.mail, 0))
    ensures GoodPc(s', s'.pc)
  {
    PassLogEmpty(s, s.net, s.pass + 1);
    assert Copies(s'.pass, s.pc.id, s.pc.entry.mail, 0) == [];
    forall k | 0 <= k < |s'.sent|
      ensures s'.sent[k].pass < s'.pass
    {
      assert GoodRecord(s, s.sent[k]);
    }
  }

  lemma StoreSentKeepsInv(s: QueueState)
    requires Inv(s) && s.pc.Storing?
    ensures Inv(Apply(s, StoreSent(true)))
  {
    hide PassLog, Copies;
    var s' := Apply(s, StoreSent(true));
    forall k | 0 <= k < |s'.net|
      ensures GoodTransmission(s', s'.net[k])
    {
      assert GoodTransmission(s, s.net[k]);
    }
    forall k | 0 <= k < |s'.sent|
      ensures GoodRecord(s', s'.sent[k])
    {
      if k < |s.sent| { assert GoodRecord(s, s.sent[k]); }
    }
    HistoryStays(s, s');
    assert s'.sent[|s.sent|].id == s.pc.id;
  }

  // Nothing leaves Sent or the network.
  lemma HistoryStays(s: QueueState, s': QueueState)
    requires s.sent <= s'.sent && s.net <= s'.net
    ensures forall id :: InSent(s, id) ==> InSent(s', id)
    ensures forall id :: AuthHandedOver(s, id) ==> AuthHandedOver(s', id)
  {
    forall id | InSent(s, id)
      ensures InSent(s', id)
    {
      var k :| 0 <= k < |s.sent| && s.sent[k].id == id;
      assert s'.sent[k].id == id;
    }
    forall id | AuthHandedOver(s, id)
      ensures AuthHandedOver(s', id)
    {
      var k :| 0 <= k < |s.net| && s.net[k].AuthCopy? && s.net[k].id == id;
      assert s'.net[k].AuthCopy? && s'.net[k].id == id;
    }
  }

  lemma RemoveKeepsInv(s: QueueState, ok: bool)
    requires Inv(s)
    ensures Inv(Apply(s, RemoveFromOutbox(ok)))
  {
    hide GoodTransmission, GoodRecord, InSent, AuthHandedOver, PassLog, Copies;
    var s' := Apply(s, RemoveFromOutbox(ok));
    HistoryGrows(s, s', s.pc);
  }

  // One more copy on the network.
  lemma HandOver(s: QueueState, s': QueueState, t: Transmission)
    requires Inv(s) && GoodTransmission(s, t)
    requires s' == s.(net := s.net + [t], pc := s'.pc, checker := s'.checker)
    requires t.MailCopy? ==> t.pass == s.pass && forall k :: 0 <= k < |s.sent| ==> s.sent[k].pass < s.pass
    ensures forall k :: 0 <= k < |s'.net| ==> GoodTransmission(s', s'.net[k])
    ensures forall k :: 0 <= k < |s'.sent| ==> GoodRecord(s', s'.sent[k])
    ensures Accounted(s')
  {
    HistoryStays(s, s');
    forall k | 0 <= k < |s'.net|
      ensures GoodTransmission(s', s'.net[k])
    {
      if k < |s.net| { assert GoodTransmission(s, s.net[k]); }
    }
    forall k | 0 <= k < |s'.sent|
      ensures GoodRecord(s', s'.sent[k])
    {
      assert GoodRecord(s, s.sent[k]);
      PassLogAppend(s.net, t, s.sent[k].pass);
    }
  }

  lemma SendMailKeepsInv(s: QueueState, result: SendOutcome)
    requires Inv(s) && s.pc.Checked?
    ensures Inv(Apply(s, Send(result)))
  {
    hide PassLog, InSent, AuthHandedOver;
    var s' := Apply(s, Send(result));
    var m, next := s.pc.mail, s.pc.next;
    var t := MailCopy(s.pass, s.pc.id, Blind(m), Recipients(m)[next]);
    if result.SendReturns? || result.handedOver {
      HandOver(s, s', t);
      PassLogAppend(s.net, t, s.pass);
      assert Copies(s.pass, s.pc.id, m, next + 1) == Copies(s.pass, s.pc.id, m, next) + [t];
    } else {
      ControlKeepsAccounts(s, s');
    }
  }

  lemma SendAuthKeepsInv(s: QueueState, result: SendOutcome)
    requires Inv(s) && s.pc.AuthSending?
    ensures Inv(Apply(s, Send(result)))
  {
    hide PassLog, Copies;
    var s' := Apply(s, Send(result));
    var t := AuthCopy(s.pc.id, s.pc.request, s.pc.to);
    if result.SendReturns? || result.handedOver {
      HandOver(s, s', t);
      assert s'.net[|s.net|].AuthCopy? && s'.net[|s.net|].id == s.pc.id;
      assert AuthHandedOver(s', s.pc.id);
    } else {
      ControlKeepsAccounts(s, s');
    }
  }

  lemma StepKeepsInv(s: QueueState, step: Step)
    requires Inv(s)
    ensures Inv(Apply(s, step))
  {
    hide GoodTransmission, GoodRecord, InSent, AuthHandedOver, PassLog, Copies;
    match step
    case Enqueue(id, entry, stored) => EnqueueKeepsInv(s, id, entry, stored);
    case UserDeletes(id) => DeleteKeepsInv(s, id);
    case LookUpKey(key) => LookUpKeepsInv(s, key);
    case Send(result) =>
      if s.pc.Checked? {
        SendMailKeepsInv(s, result);
      } else if s.pc.AuthSending? {
        SendAuthKeepsInv(s, result);
      }
    case StoreSent(ok) =>
      if ok && s.pc.Storing? {
        StoreSentKeepsInv(s);
      } else {
        ControlKeepsAccounts(s, Apply(s, step));
      }
    case StoreSentHeader(_) => ControlKeepsAccounts(s, Apply(s, step));
    case RemoveFromOutbox(ok) => RemoveKeepsInv(s, ok);
    case _ => ControlKeepsInv(s, step);
  }

  lemma {:induction false} RunKeepsInv(s: QueueState, steps: seq<Step>)
    requires Inv(s)
    ensures Inv(Run(s, steps))
    decreases |steps|
  {
    if steps != [] {
      StepKeepsInv(s, steps[0]);
      RunKeepsInv(Apply(s, steps[0]), steps[1..]);
    }
  }

  lemma {:induction false} RunAppend(s: QueueState, first: seq<Step>, second: seq<Step>)
    ensures Run(s, first + second) == Run(Run(s, first), second)
    decreases |first|
  {
    if first == [] {
      assert first + second == second;
    } else {
      RunAppend(Apply(s, first[0]), first[1..], second);
      assert (first + second)[1..] == first[1..] + second;
    }
  }

  // ----- What holds of every run -----

  function Reach(steps: seq<Step>): QueueState { Run(INITIAL, steps) }

  lemma ReachableInv(steps: seq<Step>)
    ensures Inv(Reach(steps))
  {
    RunKeepsInv(INITIAL, steps);
  }

  lemma ReachLast(steps: seq<Step>)
    requires steps != []
    ensures Reach(steps) == Apply(Reach(steps[..|steps| - 1]), steps[|steps| - 1])
  {
    var init, last := steps[..|steps| - 1], steps[|steps| - 1];
    assert init + [last] == steps;
    hide Apply;
    RunAppend(INITIAL, init, [last]);
    RunOne(Reach(init), last);
  }

  // However the threads interleave and whatever throws, a mail once stored in Outbox is still there
  // unchanged, or a copy with its own recipients (bcc included) is in Sent, or the user deleted it.
  lemma NoMailLost(steps: seq<Step>, id: Id)
    requires var s := Reach(steps); id in s.known && s.known[id].MailEntry?
    ensures var s := Reach(steps);
            || (id in s.outbox && s.outbox[id] == s.known[id])
            || id in s.deleted
            || exists k :: 0 <= k < |s.sent| && s.sent[k].id == id && s.sent[k].mail == s.known[id].mail
  {
    ReachableInv(steps);
    var s := Reach(steps);
    if id !in s.outbox && id !in s.deleted {
      assert InSent(s, id);
      var k :| 0 <= k < |s.sent| && s.sent[k].id == id;
      assert GoodRecord(s, s.sent[k]);
    }
  }

  // A mail is in Sent only as it was queued, and when one pass has handed the network a copy for every
  // to, cc and bcc key, in this order and none twice, and nothing else.
  lemma SentAfterFullPass(steps: seq<Step>, k: nat)
    requires k < |Reach(steps).sent|
    ensures var s := Reach(steps);
            var r := s.sent[k];
            && r.id in s.known && s.known[r.id].MailEntry? && s.known[r.id].mail == r.mail
            && PassLog(s.net, r.pass) == Copies(r.pass, r.id, r.mail, |r.mail.to + r.mail.cc + r.mail.bcc|)
  {
    ReachableInv(steps);
    assert GoodRecord(Reach(steps), Reach(steps).sent[k]);
  }

  // The copies of pass p, complete or not, are those for the first recipients of one mail.
  ghost predicate OneMailPass(s: QueueState, p: nat)
  {
    || PassLog(s.net, p) == []
    || exists id: Id, m: Mail :: KnownMail(s, id, m) && PassLog(s.net, p) <= Copies(p, id, m, |Recipients(m)|)
  }

  lemma StepKeepsPass(s: QueueState, step: Step, p: nat)
    requires Inv(s) && OneMailPass(s, p)
    ensures OneMailPass(Apply(s, step), p)
  {
    KnownStays(s, step);
    assert GoodPc(s, s.pc);
    hide Inv, Apply;
    var s' := Apply(s, step);
    if s'.net == s.net {
      hide Copies, PassLog;
    } else if step.Send? && s.pc.Checked? {
      CheckedNet(s, step.result);
      MailKeepsPass(s, s', p);
    } else {
      OtherNet(s, step);
      hide Copies, PassLog;
      PassLogAppend(s.net, s'.net[|s.net|], p);
    }
  }

  lemma KnownStays(s: QueueState, step: Step)
    ensures forall id: Id :: id in s.known ==> id in Apply(s, step).known && Apply(s, step).known[id] == s.known[id]
  {}

  lemma CheckedNet(s: QueueState, result: SendOutcome)
    requires s.pc.Checked? && s.pc.next < |Recipients(s.pc.mail)|
    ensures var s', m := Apply(s, Send(result)), s.pc.mail;
            && s'.known == s.known
            && (s'.net == s.net || s'.net == s.net + [MailCopy(s.pass, s.pc.id, Blind(m), Recipients(m)[s.pc.next])])
  {}

  lemma OtherNet(s: QueueState, step: Step)
    requires !(step.Send? && s.pc.Checked?)
    ensures var net := Apply(s, step).net;
            net == s.net || (|net| > |s.net| && net == s.net + [net[|s.net|]] && net[|s.net|].AuthCopy?)
  {
    assert step.LookUpKey? ==> ApplyLookUp(s, step.key).net == s.net;
    hide ApplyLookUp;
  }

  lemma MailKeepsPass(s: QueueState, s': QueueState, p: nat)
    requires GoodPc(s, s.pc) && OneMailPass(s, p) && s.pc.Checked? && s'.known == s.known
    requires s'.net == s.net + [MailCopy(s.pass, s.pc.id, Blind(s.pc.mail), Recipients(s.pc.mail)[s.pc.next])]
    ensures OneMailPass(s', p)
  {
    var id, m, next := s.pc.id, s.pc.mail, s.pc.next;
    PassLogAppend(s.net, s'.net[|s.net|], p);
    hide PassLog;
    if p == s.pass {
      assert PassLog(s'.net, p) == Copies(p, id, m, next + 1);
      assert KnownMail(s', id, m) && PassLog(s'.net, p) <= Copies(p, id, m, |Recipients(m)|);
    } else if PassLog(s.net, p) != [] {
      var i: Id, n: Mail :| KnownMail(s, i, n) && PassLog(s.net, p) <= Copies(p, i, n, |Recipients(n)|);
      assert KnownMail(s', i, n);
    }
  }

  // In every run each pass, also one that broke off, has handed over copies of a single queued mail for
  // a first part of its recipients, in order and none twice.
  lemma {:induction false} PassesInOrder(steps: seq<Step>, p: nat)
    ensures OneMailPass(Reach(steps), p)
  {
    if steps == [] {
      assert PassLog(INITIAL.net, p) == [];
    } else {
      ReachLast(steps);
      ReachableInv(steps[..|steps| - 1]);
      PassesInOrder(steps[..|steps| - 1], p);
      hide Reach, Inv, OneMailPass, Apply;
      StepKeepsPass(Reach(steps[..|steps| - 1]), steps[|steps| - 1], p);
    }
  }

  // No copy that reaches the network names a bcc recipient, and each goes to a recipient of its mail.
  lemma BccNeverTransmitted(steps: seq<Step>, k: nat)
    requires k < |Reach(steps).net| && Reach(steps).net[k].MailCopy?
    ensures var s := Reach(steps);
            var t := s.net[k];
            && t.copy.bcc == []
            && t.id in s.known && s.known[t.id].MailEntry?
            && var m := s.known[t.id].mail;
               t.copy == Mail(m.to, m.cc, [], m.body) && (t.to in m.to || t.to in m.cc || t.to in m.bcc)
  {
    ReachableInv(steps);
    assert GoodTransmission(Reach(steps), Reach(steps).net[k]);
  }

  lemma {:induction false} CancelSticks(s: QueueState, steps: seq<Step>)
    requires s.cancelled && Restart !in steps
    ensures Run(s, steps).cancelled && Run(s, steps).netAtCancel == s.netAtCancel
    decreases |steps|
  {
    if steps != [] {
      assert steps[0] in steps && forall step :: step in steps[1..] ==> step in steps;
      CancelSticks(Apply(s, steps[0]), steps[1..]);
    }
  }

  // Once cancelled, the queue hands over at most one more message, however long it runs on. (A new one
  // begins afresh.)
  lemma SilentAfterCancel(steps: seq<Step>, more: seq<Step>)
    requires Reach(steps).cancelled && Restart !in more
    ensures |Reach(steps + more).net| <= |Reach(steps).net| + 1
  {
    ReachableInv(steps);
    ReachableInv(steps + more);
    RunAppend(INITIAL, steps, more);
    CancelSticks(Reach(steps), more);
  }

  // ----- Requests -----

  // Step k looks up the key of a fetched request whose sender has no identity.
  predicate InVain(steps: seq<Step>, k: nat, id: Id)
    requires k < |steps|
  {
    && steps[k] == LookUpKey(NoIdentity)
    && Reach(steps[..k]).pc.Fetched? && Reach(steps[..k]).pc.id == id && Reach(steps[..k]).pc.entry.AuthEntry?
  }

  lemma {:induction false} DroppedInVain(steps: seq<Step>, id: Id)
    ensures id in Reach(steps).dropped <==> exists k: nat :: k < |steps| && InVain(steps, k, id)
  {
    if steps != [] {
      var init, last := steps[..|steps| - 1], |steps| - 1;
      DroppedInVain(init, id);
      DroppedLast(steps, id);
      hide Reach;
      forall k: nat | k < last
        ensures InVain(init, k, id) <==> InVain(steps, k, id)
      {
        assert init[..k] == steps[..k];
      }
    }
  }

  lemma DroppedLast(steps: seq<Step>, id: Id)
    requires steps != []
    ensures var init, last := steps[..|steps| - 1], |steps| - 1;
            id in Reach(steps).dropped <==> id in Reach(init).dropped || InVain(steps, last, id)
  {
    ReachLast(steps);
    DroppedStep(Reach(steps[..|steps| - 1]), steps[|steps| - 1], id);
    hide Run, Apply;
  }

  lemma DroppedStep(s: QueueState, step: Step, id: Id)
    ensures id in Apply(s, step).dropped <==>
              || id in s.dropped
              || (step == LookUpKey(NoIdentity) && s.pc.Fetched? && s.pc.id == id && s.pc.entry.AuthEntry?)
  {
    assert step.Send? ==> ApplySend(s, step.result).dropped == s.dropped;
    hide ApplySend, MayFetch, Recipients;
  }

  // A request that is neither waiting nor deleted by the user, and of which no copy reached the network.
  ghost predicate Lost(s: QueueState, id: Id)
  {
    && id in s.known && s.known[id].AuthEntry? && id !in s.outbox && id !in s.deleted
    && AuthCopy(id, s.known[id].request, s.known[id].recipient) !in s.net
  }

  // Over every run, a request is lost only if the key of its sender was looked up in vain
  // (transferAuthMsg returns true all the same).
  lemma RequestsAccounted(steps: seq<Step>, id: Id)
    ensures Lost(Reach(steps), id) ==> exists k: nat :: k < |steps| && InVain(steps, k, id)
  {
    ReachableInv(steps);
    DroppedInVain(steps, id);
    var s := Reach(steps);
    if AuthHandedOver(s, id) {
      CopyOfRequest(s, id);
    }
  }

  lemma CopyOfRequest(s: QueueState, id: Id)
    requires Inv(s) && AuthHandedOver(s, id)
    ensures id in s.known && s.known[id].AuthEntry? && AuthCopy(id, s.known[id].request, s.known[id].recipient) in s.net
  {
    var k :| 0 <= k < |s.net| && s.net[k].AuthCopy? && s.net[k].id == id;
    assert GoodTransmission(s, s.net[k]);
  }

  // So none is lost while every sender has an identity.
  lemma NoRequestLost(steps: seq<Step>, id: Id)
    requires LookUpKey(NoIdentity) !in steps
    ensures !Lost(Reach(steps), id)
  {
    RequestsAccounted(steps, id);
    hide Lost;
    assert forall k: nat :: k < |steps| ==> steps[k] in steps;
  }

  // The turn of a fetched request, however its calls end: it leaves Outbox with nothing handed over
  // exactly when its sender has no identity and the removal succeeds.
  lemma RequestTurn(s: QueueState, id: Id, key: LookupOutcome, result: SendOutcome, removed: bool)
    requires s.pc.Fetched? && s.pc.id == id && s.pc.entry.AuthEntry? && id in s.outbox
    ensures var s' := Run(s, [LookUpKey(key), Send(result), RemoveFromOutbox(removed), EndOfTurn]);
            && (id !in s'.outbox && s'.net == s.net <==> key.NoIdentity? && removed)
            && (id !in s'.outbox <==> removed && (key.NoIdentity? || (key.KeyFound? && result.SendReturns?)))
            && s'.net == s.net + if key.KeyFound? && (result.SendReturns? || result.handedOver)
                                 then [AuthCopy(id, s.pc.entry.request, s.pc.entry.recipient)] else []
  {
    RunFour(s, LookUpKey(key), Send(result), RemoveFromOutbox(removed), EndOfTurn);
    hide Run;
    var s1 := Apply(s, LookUpKey(key));
    var s2 := Apply(s1, Send(result));
    assert s1.outbox == s2.outbox == s.outbox && s1.net == s.net;
    assert s2.pc.AuthRemoving? <==> key.NoIdentity? || (key.KeyFound? && result.SendReturns?);
    assert !s2.pc.Removing? && (s2.pc.AuthRemoving? ==> s2.pc.id == id);
    TurnRemoves(s2, id, removed);
  }

  lemma TurnRemoves(s: QueueState, id: Id, removed: bool)
    requires id in s.outbox && !s.pc.Removing? && (s.pc.AuthRemoving? ==> s.pc.id == id)
    ensures var s' := Apply(Apply(s, RemoveFromOutbox(removed)), EndOfTurn);
            s'.net == s.net && (id !in s'.outbox <==> s.pc.AuthRemoving? && removed)
  {}

  // So "no request is lost" fails: here is a run that removes one without sending it.
  lemma RequestLost()
    ensures var s := Reach([Enqueue(7, AuthEntry(1, 2, "hello"), Stored), CheckConnection(true), FetchNext(7, false),
                            LookUpKey(NoIdentity), RemoveFromOutbox(true)]);
            Lost(s, 7)
  {
    var s0 := Apply(INITIAL, Enqueue(7, AuthEntry(1, 2, "hello"), Stored));
    var s1 := Apply(s0, CheckConnection(true));
    assert s1.outbox == map[7 := AuthEntry(1, 2, "hello")];
    var s2 := Apply(s1, FetchNext(7, false));
    assert s2.pc == Fetched(7, AuthEntry(1, 2, "hello"));
    var s3 := Apply(s2, LookUpKey(NoIdentity));
    var s4 := Apply(s3, RemoveFromOutbox(true));
    RunFive(INITIAL, Enqueue(7, AuthEntry(1, 2, "hello"), Stored), CheckConnection(true), FetchNext(7, false),
            LookUpKey(NoIdentity), RemoveFromOutbox(true));
  }

  // ----- Short runs -----

  lemma RunOne(s: QueueState, a: Step)
    ensures Run(s, [a]) == Apply(s, a)
  {
    assert [a][1..] == [];
  }

  lemma RunTwo(s: QueueState, a: Step, b: Step)
    ensures Run(s, [a, b]) == Apply(Apply(s, a), b)
  {
    hide Apply;
    RunOne(Apply(s, a), b);
    assert [a, b][1..] == [b];
  }

  lemma RunThree(s: QueueState, a: Step, b: Step, c: Step)
    ensures Run(s, [a, b, c]) == Apply(Apply(Apply(s, a), b), c)
  {
    hide Apply;
    RunTwo(Apply(s, a), b, c);
    assert [a, b, c][1..] == [b, c];
  }

  lemma RunFour(s: QueueState, a: Step, b: Step, c: Step, d: Step)
    ensures Run(s, [a, b, c, d]) == Apply(Apply(Apply(Apply(s, a), b), c), d)
  {
    hide Apply;
    RunThree(Apply(s, a), b, c, d);
    assert [a, b, c, d][1..] == [b, c, d];
  }

  lemma RunFive(s: QueueState, a: Step, b: Step, c: Step, d: Step, e: Step)
    ensures Run(s, [a, b, c, d, e]) == Apply(Apply(Apply(Apply(Apply(s, a), b), c), d), e)
  {
    hide Apply;
    RunFour(Apply(s, a), b, c, d, e);
    assert [a, b, c, d, e][1..] == [b, c, d, e];
  }
}
