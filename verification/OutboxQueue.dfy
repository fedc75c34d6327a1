/** TOutboxQueue of ConnectionProcessor.cpp, method by method, as runs of `OutboxProtocol`.

    The methods take what the environment does while they run: the steps of other threads at each
    point where one can come between, and the outcome of each call that can throw.  `trace` is the
    run so far, and `Valid` says that the object is in the state this run leads to, so that what is
    proved of every run holds of the object after any calls. */
module OutboxQueue {
  import opened OutboxProtocol

  // The steps of the other threads.
  predicate Other(step: Step)
  {
    step.Enqueue? || step.UserDeletes? || step.CheckConnection? || step.Cancel?
  }

  predicate Others(steps: seq<Step>) { forall k :: 0 <= k < |steps| ==> Other(steps[k]) }

  // One recipient: what happens before the test for cancellation, between it and the send, and
  // how the send ends.
  datatype Turn = Turn(before: seq<Step>, between: seq<Step>, result: SendOutcome)

  ghost predicate FairTurns(env: nat -> Turn)
  {
    forall i: nat :: Others(env(i).before) && Others(env(i).between)
  }

  // One turn of the transmission loop, as the environment shapes it.
  datatype LoopTurn = LoopTurn(
    before: seq<Step>, fetchFails: bool, afterFetch: seq<Step>, key: LookupOutcome,
    env: nat -> Turn,                                        // a mail: turn i is for recipient i
    between: seq<Step>, result: SendOutcome,                 // a request
    stored: bool, header: bool, removed: bool,
    afterSend: seq<Step>, afterStore: seq<Step>, afterHeader: seq<Step>, atBottom: seq<Step>)

  ghost predicate FairLoopTurn(t: LoopTurn)
  {
    && Others(t.before) && Others(t.afterFetch) && FairTurns(t.env) && Others(t.between) && Others(t.afterSend)
    && Others(t.afterStore) && Others(t.afterHeader) && Others(t.atBottom)
  }

  class TOutboxQueue {
    var outbox: map<Id, Entry>
    var sent: seq<SentRecord>
    var net: seq<Transmission>
    var checker: bool           // ConnectionCheckComplete is valid and not ready
    var loopActive: bool        // isTransmissionLoopActive
    var cancelled: bool
    var pass: nat               // numbers the transfers, for the logs
    var known: map<Id, Entry>   // keeps the ids of new messages fresh
    ghost var pc: Pc
    ghost var deleted: set<Id>
    ghost var dropped: set<Id>
    ghost var netAtCancel: nat
    ghost var trace: seq<Step>

    ghost function State(): QueueState
      reads this
    {
      QueueState(outbox, sent, net, pc, checker, cancelled, pass, known, deleted, dropped, netAtCancel)
    }

    ghost predicate Valid()
      reads this
    {
      State() == Reach(trace) && (loopActive <==> !pc.Idle?)
    }

    constructor ()
      ensures Valid() && trace == [] && pc == Idle
    {
      outbox, sent, net, pc, checker, cancelled, pass := map[], [], [], Idle, true, false, 0;
      known, deleted, dropped, netAtCancel, trace, loopActive := map[], {}, {}, 0, [], false;
    }

    // The next queue, over the databases that an earlier one left.
    constructor Reopen(previous: TOutboxQueue)
      requires previous.Valid()
      ensures Valid() && trace == previous.trace + [Restart] && pc == Idle && !cancelled && checker
      ensures outbox == previous.outbox && sent == previous.sent
    {
      outbox, sent, net, pc, checker, cancelled := previous.outbox, previous.sent, previous.net, Idle, true, false;
      pass, known, deleted, dropped := previous.pass, previous.known, previous.deleted, previous.dropped;
      netAtCancel, trace, loopActive := previous.netAtCancel, previous.trace, false;
      new;
      hide Run;
      Log(Restart);
    }

    // Logs a step whose effect the fields already show.
    ghost method Log(step: Step)
      requires State() == Apply(Reach(trace), step) && (loopActive <==> !pc.Idle?)
      modifies this`trace
      ensures Valid() && trace == old(trace) + [step]
    {
      hide Apply;
      RunAppend(INITIAL, trace, [step]);
      RunOne(Reach(trace), step);
      trace := trace + [step];
    }

    // AddPendingMessage and AddPendingAuthoMsg
    method AddPending(id: Id, entry: Entry, stored: EnqueueOutcome)
      requires Valid()
      modifies this
      ensures sent == old(sent) && net == old(net) && pass == old(pass)
      ensures Valid() && trace == old(trace) + [Enqueue(id, entry, stored)]
      ensures pc == old(pc)
    {
      hide Run;
      if !stored.StoreThrows? && id !in known {
        outbox, known := outbox[id := entry], known[id := entry];
        checker := checker || stored.Stored?;
      }
      Log(Enqueue(id, entry, stored));
    }

    // A stop does nothing when neither the loop nor the connection check is running.
    method StopTransmission()
      requires Valid()
      modifies this
      ensures sent == old(sent) && net == old(net) && pass == old(pass)
      ensures Valid() && trace == old(trace) + [Cancel]
      ensures pc == old(pc) && (cancelled <==> old(cancelled) || old(checker) || !old(pc).Idle?)
    {
      hide Run;
      var transferActive, connectionActive := loopActive, checker;
      if transferActive || connectionActive {
        netAtCancel := if cancelled then netAtCancel else |net|;
        cancelled := true;
      }
      Log(Cancel);
    }

    // One turn of connectionCheckingLoop.
    method ConnectionCheck(connected: bool)
      requires Valid()
      modifies this
      ensures sent == old(sent) && net == old(net) && pass == old(pass)
      ensures Valid() && trace == old(trace) + [CheckConnection(connected)]
      ensures !old(pc).Idle? ==> pc == old(pc)
    {
      hide Run;
      if checker && connected {
        checker, pc, loopActive := false, if pc.Idle? then Top else pc, true;
      } else if checker && cancelled {
        checker := false;
      }
      Log(CheckConnection(connected));
    }

    method DeleteFromFolder(id: Id)
      requires Valid()
      modifies this
      ensures sent == old(sent) && net == old(net) && pass == old(pass)
      ensures Valid() && trace == old(trace) + [UserDeletes(id)]
      ensures pc == old(pc)
    {
      hide Run;
      if id in outbox {
        outbox, deleted := outbox - {id}, deleted + {id};
      }
      Log(UserDeletes(id));
    }

    // What the other threads do in turn.
    method Interfere(others: seq<Step>)
      requires Valid() && Others(others)
      modifies this
      ensures sent == old(sent) && net == old(net) && pass == old(pass)
      ensures Valid() && trace == old(trace) + others
      ensures !old(pc).Idle? ==> pc == old(pc)
    {
      hide Run, Apply;
      for k := 0 to |others|
        invariant Valid() && trace == old(trace) + others[..k]
        invariant sent == old(sent) && net == old(net) && pass == old(pass)
        invariant !old(pc).Idle? ==> pc == old(pc)
      {
        assert others[..k + 1] == others[..k] + [others[k]];
        assert Other(others[k]);
        match others[k]
        case Enqueue(id, entry, stored) => AddPending(id, entry, stored);
        case UserDeletes(id) => DeleteFromFolder(id);
        case CheckConnection(connected) => ConnectionCheck(connected);
        case Cancel => StopTransmission();
      }
    }

    // isCancelled, for the recipient the loop has come to.
    method TestCancel() returns (stop: bool)
      requires Valid() && pc.Sending? && pc.next < |Recipients(pc.mail)|
      modifies this
      ensures Valid() && trace == old(trace) + [TestCancelled] && stop == cancelled && pass == old(pass)
      ensures pc == if stop then Bottom else Checked(old(pc).id, old(pc).mail, old(pc).next)
    {
      hide Run;
      stop := cancelled;
      pc := if stop then Bottom else Checked(pc.id, pc.mail, pc.next);
      Log(TestCancelled);
    }

    // sendMail: it throws when there is no connection, and send_email may throw too.
    method SendMail(id: Id, ghost msg: Mail, ghost next: nat, msgToSend: Mail, key: Key, result: SendOutcome)
      returns (ok: bool)
      requires Valid() && pc == Checked(id, msg, next) && next < |Recipients(msg)|
      requires msgToSend == Blind(msg) && key == Recipients(msg)[next]
      modifies this
      ensures Valid() && trace == old(trace) + [Send(result)] && ok == result.SendReturns? && pass == old(pass)
      ensures net == old(net) + if ok || result.handedOver then [MailCopy(old(pass), id, Blind(msg), key)] else []
      ensures checker == (old(checker) || !ok)
      ensures pc == if ok then Sending(id, msg, next + 1) else Bottom
    {
      hide Run;
      ok := result.SendReturns?;
      if ok || result.handedOver {
        net := net + [MailCopy(pass, id, msgToSend, key)];
      }
      checker := checker || !ok;
      pc := if ok then Sending(id, msg, next + 1) else Bottom;
      Log(Send(result));
    }

    // One of the three loops of transferMessage, over the recipients from `first` on.
    method SendList(id: Id, ghost msg: Mail, first: nat, msgToSend: Mail, keys: seq<Key>, env: nat -> Turn)
      returns (ok: bool)
      requires Valid() && pc == Sending(id, msg, first) && msgToSend == Blind(msg)
      requires first + |keys| <= |Recipients(msg)| && keys == Recipients(msg)[first..first + |keys|]
      requires FairTurns(env)
      modifies this
      ensures Valid() && old(trace) <= trace && pass == old(pass)
      ensures pc == if ok then Sending(id, msg, first + |keys|) else Bottom
    {
      hide Run, Apply;
      for i := 0 to |keys|
        invariant Valid() && old(trace) <= trace && pass == old(pass) && pc == Sending(id, msg, first + i)
      {
        assert keys[i] == Recipients(msg)[first + i];
        Interfere(env(first + i).before);
        var stop := TestCancel();
        if stop {
          return false;
        }
        Interfere(env(first + i).between);
        ok := SendMail(id, msg, first + i, msgToSend, keys[i], env(first + i).result);
        if !ok {
          return;
        }
      }
      ok := true;
    }

    // transferMessage.  When it returns true, this call has handed over one copy without the bcc
    // list for each to, cc and bcc key.
    method TransferMessage(id: Id, sender: Key, msg: Mail, key: LookupOutcome, env: nat -> Turn)
      returns (sendStatus: bool)
      requires Valid() && pc == Fetched(id, MailEntry(sender, msg))
      requires FairTurns(env)
      modifies this
      ensures Valid() && old(trace) <= trace
      ensures pc == if sendStatus then Storing(id, msg) else Bottom
      ensures pass == old(pass) + if key.KeyFound? then 1 else 0
      ensures sendStatus ==> key.KeyFound? && PassLog(net, pass) == Copies(pass, id, msg, |Recipients(msg)|)
    {
      hide Run, Apply, PassLog;
      var found := FindIdentityPrivateKey(id, sender, msg, key);
      if !found {
        return false;
      }
      var msgToSend, bccList := msg.(bcc := []), msg.bcc;
      sendStatus := SendLists(id, msg, msgToSend, bccList, env);
      if sendStatus {
        AllServed(id, msg);
        ReachableInv(trace);
      }
    }

    method FindIdentityPrivateKey(id: Id, sender: Key, ghost msg: Mail, key: LookupOutcome) returns (found: bool)
      requires Valid() && pc == Fetched(id, MailEntry(sender, msg))
      modifies this
      ensures Valid() && trace == old(trace) + [LookUpKey(key)] && found == key.KeyFound?
      ensures pass == old(pass) + if found then 1 else 0
      ensures pc == if found then Sending(id, msg, 0) else Bottom
    {
      hide Run;
      found := key.KeyFound?;
      if found {
        pass, pc := pass + 1, Sending(id, msg, 0);
      } else {
        pc, checker := Bottom, checker || key.KeyThrows?;
      }
      Log(LookUpKey(key));
    }

    ghost method AllServed(id: Id, msg: Mail)
      requires Valid() && pc == Sending(id, msg, |Recipients(msg)|)
      modifies this
      ensures Valid() && trace == old(trace) + [TestCancelled]
      ensures pc == Storing(id, msg) && pass == old(pass) && net == old(net)
    {
      hide Run;
      pc := Storing(id, msg);
      Log(TestCancelled);
    }

    method SendLists(id: Id, ghost msg: Mail, msgToSend: Mail, bccList: seq<Key>, env: nat -> Turn) returns (ok: bool)
      requires Valid() && pc == Sending(id, msg, 0) && msgToSend == Blind(msg) && bccList == msg.bcc
      requires FairTurns(env)
      modifies this
      ensures Valid() && old(trace) <= trace && pass == old(pass)
      ensures pc == if ok then Sending(id, msg, |Recipients(msg)|) else Bottom
    {
      hide Run, Apply, Reach;
      ok := SendList(id, msg, 0, msgToSend, msgToSend.to, env);
      if !ok {
        return;
      }
      var served := |msgToSend.to|;
      ok := SendList(id, msg, served, msgToSend, msgToSend.cc, env);
      if !ok {
        return;
      }
      served := served + |msgToSend.cc|;
      ok := SendList(id, msg, served, msgToSend, bccList, env);
    }

    // fetchNextMessage: mail before requests, otherwise whichever entry the database lists first.
    method FetchNextMessage(fails: bool) returns (fetched: bool, id: Id, entry: Entry)
      requires Valid() && pc.Top?
      modifies this
      ensures Valid() && old(trace) < trace
      ensures fetched <==> !cancelled && !fails && outbox != map[]
      ensures pc == if fetched then Fetched(id, entry) else Idle
      ensures fetched ==> id in outbox && outbox[id] == entry
      ensures fetched && entry.AuthEntry? ==> forall i :: i in outbox ==> outbox[i].AuthEntry?
    {
      hide Run;
      id, entry := 0, AuthEntry(0, 0, "");
      fetched := !cancelled && !fails && outbox != map[];
      if fetched {
        SomethingToFetch();
        id :| MayFetch(outbox, id) && id in outbox;
        entry := outbox[id];
        pc := Fetched(id, entry);
      } else {
        pc, loopActive := Idle, false;
      }
      Log(FetchNext(id, fails));
    }

    lemma SomethingToFetch()
      requires outbox != map[]
      ensures exists id :: id in outbox && MayFetch(outbox, id)
    {
      var any :| any in outbox.Keys;
      if id :| id in outbox && outbox[id].MailEntry? {
        assert MayFetch(outbox, id);
      } else {
        assert MayFetch(outbox, any);
      }
    }

    // transferAuthMsg, with the removal from Outbox that follows it in the loop.  It returns true
    // for a sender with no identity although nothing was sent.
    method TransferAuthMsg(id: Id, sender: Key, recipient: Key, request: string, key: LookupOutcome, between: seq<Step>,
                           result: SendOutcome) returns (sendStatus: bool)
      requires Valid() && pc == Fetched(id, AuthEntry(sender, recipient, request)) && Others(between)
      modifies this
      ensures Valid() && old(trace) <= trace
      ensures sendStatus <==> key.NoIdentity? || (key.KeyFound? && result.SendReturns?)
      ensures net == old(net) + if key.KeyFound? && (result.SendReturns? || result.handedOver)
                                then [AuthCopy(id, request, recipient)] else []
      ensures pc == if sendStatus then AuthRemoving(id) else Bottom
    {
      var found := LookUpForAuth(id, sender, recipient, request, key);
      if !found {
        return key.NoIdentity?;
      }
      Interfere(between);
      sendStatus := SendAuthMsg(id, recipient, request, result);
    }

    method LookUpForAuth(id: Id, sender: Key, recipient: Key, request: string, key: LookupOutcome) returns (found: bool)
      requires Valid() && pc == Fetched(id, AuthEntry(sender, recipient, request))
      modifies this
      ensures Valid() && trace == old(trace) + [LookUpKey(key)] && found == key.KeyFound? && net == old(net)
      ensures pc == match key
                    case KeyFound => AuthSending(id, request, recipient)
                    case NoIdentity => AuthRemoving(id)
                    case KeyThrows => Bottom
    {
      hide Run;
      match key {
        case KeyFound =>
          pc := AuthSending(id, request, recipient);
        case NoIdentity =>
          pc, dropped := AuthRemoving(id), dropped + {id};
        case KeyThrows =>
          pc, checker := Bottom, true;
      }
      Log(LookUpKey(key));
      found := key.KeyFound?;
    }

    method SendAuthMsg(id: Id, recipient: Key, request: string, result: SendOutcome) returns (ok: bool)
      requires Valid() && pc == AuthSending(id, request, recipient)
      modifies this
      ensures Valid() && trace == old(trace) + [Send(result)] && ok == result.SendReturns?
      ensures net == old(net) + if ok || result.handedOver then [AuthCopy(id, request, recipient)] else []
      ensures pc == if ok then AuthRemoving(id) else Bottom
    {
      hide Run;
      ok := result.SendReturns?;
      if ok || result.handedOver {
        net := net + [AuthCopy(id, request, recipient)];
      }
      checker := checker || !ok;
      pc := if ok then AuthRemoving(id) else Bottom;
      Log(Send(result));
    }

    // moveMsgToSentDB: each of its three database calls may throw, which ends it.
    method MoveMsgToSentDB(id: Id, sentMsg: Mail, stored: bool, header: bool, removed: bool,
                           afterStore: seq<Step>, afterHeader: seq<Step>)
      requires Valid() && pc == Storing(id, sentMsg) && Others(afterStore) && Others(afterHeader)
      modifies this
      ensures Valid() && old(trace) <= trace && pc == Bottom
      ensures sent == old(sent) + if stored then [SentRecord(old(pass), id, sentMsg)] else []
      ensures stored && header && removed ==> id !in outbox
    {
      hide Run, Apply;
      StoreInSent(id, sentMsg, stored);
      if !stored {
        return;
      }
      Interfere(afterStore);
      StoreHeader(id, header);
      if !header {
        return;
      }
      Interfere(afterHeader);
      RemoveMessage(id, false, removed);
    }

    method StoreInSent(id: Id, sentMsg: Mail, ok: bool)
      requires Valid() && pc == Storing(id, sentMsg)
      modifies this
      ensures Valid() && trace == old(trace) + [StoreSent(ok)]
      ensures sent == old(sent) + if ok then [SentRecord(old(pass), id, sentMsg)] else []
      ensures pc == if ok then StoringHeader(id) else Bottom
    {
      hide Run;
      if ok {
        sent := sent + [SentRecord(pass, id, sentMsg)];
      }
      pc := if ok then StoringHeader(id) else Bottom;
      Log(StoreSent(ok));
    }

    method StoreHeader(id: Id, ok: bool)
      requires Valid() && pc == StoringHeader(id)
      modifies this
      ensures Valid() && trace == old(trace) + [StoreSentHeader(ok)] && sent == old(sent)
      ensures pc == if ok then Removing(id) else Bottom
    {
      hide Run;
      pc := if ok then Removing(id) else Bottom;
      Log(StoreSentHeader(ok));
    }

    // The removal that ends moveMsgToSentDB, or the one after transferAuthMsg, which no handler
    // guards: there an exception ends the loop.
    method RemoveMessage(id: Id, request: bool, ok: bool)
      requires Valid() && pc == if request then AuthRemoving(id) else Removing(id)
      modifies this
      ensures Valid() && trace == old(trace) + [RemoveFromOutbox(ok)] && sent == old(sent)
      ensures outbox == if ok then old(outbox) - {id} else old(outbox)
      ensures pc == if ok || !request then Bottom else Idle
    {
      hide Run;
      if ok {
        outbox := outbox - {id};
      }
      pc := if ok || pc.Removing? then Bottom else Idle;
      loopActive := ok || !request;
      Log(RemoveFromOutbox(ok));
    }

    // transmissionLoop, for as long as the environment's script lasts.
    method TransmissionLoop(script: seq<LoopTurn>)
      requires Valid() && pc.Top?
      requires forall i :: 0 <= i < |script| ==> FairLoopTurn(script[i])
      modifies this
      ensures Valid() && old(trace) <= trace && (pc.Top? || pc.Idle?)
    {
      hide Run, Apply, Reach;
      for i := 0 to |script|
        invariant Valid() && old(trace) <= trace && pc.Top?
      {
        var t := script[i];
        Interfere(t.before);
        var fetched, id, entry := FetchNextMessage(t.fetchFails);
        if !fetched {
          return;
        }
        Interfere(t.afterFetch);
        var alive := LoopBody(id, entry, t);
        if !alive {
          return;
        }
        Interfere(t.atBottom);
        var stop := TurnEnds();
        if stop {
          break;
        }
      }
    }

    method LoopBody(id: Id, entry: Entry, t: LoopTurn) returns (alive: bool)
      requires Valid() && pc == Fetched(id, entry) && FairLoopTurn(t)
      modifies this
      ensures Valid() && old(trace) <= trace
      ensures pc == if alive then Bottom else Idle
    {
      hide Run, Apply, Reach;
      alive := true;
      match entry
      case AuthEntry(sender, recipient, request) => {
        var ok := TransferAuthMsg(id, sender, recipient, request, t.key, t.between, t.result);
        if ok {
          Interfere(t.afterSend);
          RemoveMessage(id, true, t.removed);
          alive := t.removed;
        }
      }
      case MailEntry(sender, mail) => {
        var ok := TransferMessage(id, sender, mail, t.key, t.env);
        if ok {
          Interfere(t.afterSend);
          MoveMsgToSentDB(id, mail, t.stored, t.header, t.removed, t.afterStore, t.afterHeader);
        }
      }
    }

    method TurnEnds() returns (stop: bool)
      requires Valid() && pc.Bottom?
      modifies this
      ensures Valid() && trace == old(trace) + [EndOfTurn] && stop == cancelled
      ensures pc == if stop then Idle else Top
    {
      hide Run;
      stop := cancelled;
      pc := if stop then Idle else Top;
      loopActive := !stop;
      Log(EndOfTurn);
    }

    // So the theorems about runs hold of the object, whatever was called on it.
    lemma Guarantees()
      requires Valid()
      ensures forall id :: id in known && known[id].MailEntry? ==>
                || (id in outbox && outbox[id] == known[id]) || id in deleted
                || exists k :: 0 <= k < |sent| && sent[k].id == id && sent[k].mail == known[id].mail
      ensures forall k :: 0 <= k < |net| && net[k].MailCopy? ==> net[k].copy.bcc == []
      ensures forall id :: Lost(State(), id) ==> exists k: nat :: k < |trace| && InVain(trace, k, id)
    {
      forall id | Lost(State(), id)
        ensures exists k: nat :: k < |trace| && InVain(trace, k, id)
      {
        RequestsAccounted(trace, id);
      }
      forall id | id in known && known[id].MailEntry?
        ensures || (id in outbox && outbox[id] == known[id]) || id in deleted
                || exists k :: 0 <= k < |sent| && sent[k].id == id && sent[k].mail == known[id].mail
      {
        NoMailLost(trace, id);
      }
      forall k | 0 <= k < |net| && net[k].MailCopy?
        ensures net[k].copy.bcc == []
      {
        BccNeverTransmitted(trace, k);
      }
    }
  }
}
