/** Turns of the transmission loop that no other thread disturbs: a whole one, those that break off, and
    what they deliver together; and what a stop does. */
module OutboxTurns {
  import opened OutboxProtocol

  // ----- An undisturbed turn -----

  function SendSteps(n: nat): seq<Step>
  {
    if n == 0 then [] else SendSteps(n - 1) + [TestCancelled, Send(SendReturns)]
  }

  // The turn of a mail up to the point where n recipients are served.
  function Served(id: Id, n: nat): seq<Step> { [FetchNext(id, false), LookUpKey(KeyFound)] + SendSteps(n) }

  function TurnSteps(id: Id, n: nat): seq<Step>
  {
    Served(id, n) + [TestCancelled, StoreSent(true), StoreSentHeader(true), RemoveFromOutbox(true), EndOfTurn]
  }

  // The loop is at its guard, and the mail may be the next to be fetched.
  predicate Ready(s: QueueState, id: Id)
  {
    s.pc.Top? && !s.cancelled && id in s.outbox && s.outbox[id].MailEntry?
  }

  lemma CopiesGrow(pass: nat, id: Id, m: Mail, n: nat)
    requires n < |Recipients(m)|
    ensures Copies(pass, id, m, n + 1) == Copies(pass, id, m, n) + [MailCopy(pass, id, Blind(m), Recipients(m)[n])]
  {
    hide Recipients;
  }

  lemma {:induction false} SendToAll(s: QueueState, id: Id, m: Mail, n: nat)
    requires s.pc == Sending(id, m, 0) && !s.cancelled && n <= |Recipients(m)|
    ensures Run(s, SendSteps(n)) == s.(pc := Sending(id, m, n), net := s.net + Copies(s.pass, id, m, n))
  {
    if n == 0 {
      assert s.net + Copies(s.pass, id, m, 0) == s.net;
    } else {
      SendToAll(s, id, m, n - 1);
      RunAppend(s, SendSteps(n - 1), [TestCancelled, Send(SendReturns)]);
      CopiesGrow(s.pass, id, m, n - 1);
      hide Run, Apply, Copies, Recipients;
      SendNext(s, id, m, n - 1);
    }
  }

  lemma SendNext(s: QueueState, id: Id, m: Mail, n: nat)
    requires !s.cancelled && n < |Recipients(m)|
    ensures Run(s.(pc := Sending(id, m, n), net := s.net + Copies(s.pass, id, m, n)),
                [TestCancelled, Send(SendReturns)])
            == s.(pc := Sending(id, m, n + 1), net := s.net + Copies(s.pass, id, m, n + 1))
  {
    var s1 := s.(pc := Sending(id, m, n), net := s.net + Copies(s.pass, id, m, n));
    var t := MailCopy(s.pass, id, Blind(m), Recipients(m)[n]);
    CopiesGrow(s.pass, id, m, n);
    RunTwo(s1, TestCancelled, Send(SendReturns));
    hide Run, Recipients, Copies;
    assert Apply(s1, TestCancelled) == s1.(pc := Checked(id, m, n));
    assert s1.net + [t] == s.net + (Copies(s.pass, id, m, n) + [t]);
  }

  // The state in which a new pass has served n recipients.
  function Midst(s: QueueState, id: Id, m: Mail, n: nat): QueueState
    requires n <= |Recipients(m)|
  {
    s.(pass := s.pass + 1, pc := Sending(id, m, n), net := s.net + Copies(s.pass + 1, id, m, n))
  }

  lemma Starts(s: QueueState, id: Id)
    requires Ready(s, id)
    ensures Run(s, [FetchNext(id, false), LookUpKey(KeyFound)])
            == s.(pass := s.pass + 1, pc := Sending(id, s.outbox[id].mail, 0))
  {
    RunTwo(s, FetchNext(id, false), LookUpKey(KeyFound));
    hide Run;
    assert Apply(s, FetchNext(id, false)) == s.(pc := Fetched(id, s.outbox[id]));
  }

  lemma ServedRun(s: QueueState, id: Id, n: nat, more: seq<Step>)
    requires Ready(s, id) && n <= |Recipients(s.outbox[id].mail)|
    ensures Run(s, Served(id, n) + more) == Run(Midst(s, id, s.outbox[id].mail, n), more)
  {
    hide Run, SendSteps, Recipients, Copies;
    var m := s.outbox[id].mail;
    Starts(s, id);
    SendToAll(s.(pass := s.pass + 1, pc := Sending(id, m, 0)), id, m, n);
    RunAppend(s, [FetchNext(id, false), LookUpKey(KeyFound)], SendSteps(n));
    RunAppend(s, [FetchNext(id, false), LookUpKey(KeyFound)] + SendSteps(n), more);
  }

  // Left alone, the loop takes a waiting mail to all its recipients, to Sent, and out of Outbox.
  lemma UndisturbedTurn(s: QueueState, id: Id)
    requires Ready(s, id)
    ensures var m, p := s.outbox[id].mail, s.pass + 1;
            Run(s, TurnSteps(id, |Recipients(m)|))
            == s.(outbox := s.outbox - {id}, sent := s.sent + [SentRecord(p, id, m)],
                  net := s.net + Copies(p, id, m, |Recipients(m)|), pass := p)
  {
    var m, n := s.outbox[id].mail, |Recipients(s.outbox[id].mail)|;
    ServedRun(s, id, n, [TestCancelled, StoreSent(true), StoreSentHeader(true), RemoveFromOutbox(true), EndOfTurn]);
    hide Run, Apply, Copies, Recipients, Served;
    FinishTurn(Midst(s, id, m, n), id, m);
  }

  lemma FinishTurn(s: QueueState, id: Id, m: Mail)
    requires s.pc == Sending(id, m, |Recipients(m)|) && !s.cancelled
    ensures Run(s, [TestCancelled, StoreSent(true), StoreSentHeader(true), RemoveFromOutbox(true), EndOfTurn])
            == s.(outbox := s.outbox - {id}, sent := s.sent + [SentRecord(s.pass, id, m)], pc := Top)
  {
    RunFive(s, TestCancelled, StoreSent(true), StoreSentHeader(true), RemoveFromOutbox(true), EndOfTurn);
    Stores(s, id, m);
    var s2 := s.(sent := s.sent + [SentRecord(s.pass, id, m)], pc := StoringHeader(id));
    HeaderStep(s2, id, true);
    RemoveStep(s2.(pc := Removing(id)), id, true);
    EndStep(s2.(outbox := s.outbox - {id}, pc := Bottom));
    hide Run, Recipients, Apply;
  }

  lemma HeaderStep(s: QueueState, id: Id, ok: bool)
    requires s.pc == StoringHeader(id)
    ensures Apply(s, StoreSentHeader(ok)) == s.(pc := if ok then Removing(id) else Bottom)
  {}

  lemma RemoveStep(s: QueueState, id: Id, ok: bool)
    requires s.pc == Removing(id)
    ensures Apply(s, RemoveFromOutbox(ok)) == s.(outbox := if ok then s.outbox - {id} else s.outbox, pc := Bottom)
  {}

  lemma EndStep(s: QueueState)
    requires s.pc.Bottom? && !s.cancelled
    ensures Apply(s, EndOfTurn) == s.(pc := Top)
  {}

  // A mail served to all is stored in Sent.
  lemma Stores(s: QueueState, id: Id, m: Mail)
    requires s.pc == Sending(id, m, |Recipients(m)|)
    ensures Apply(s, TestCancelled) == s.(pc := Storing(id, m))
    ensures Apply(Apply(s, TestCancelled), StoreSent(true))
            == s.(sent := s.sent + [SentRecord(s.pass, id, m)], pc := StoringHeader(id))
  {
    hide Recipients;
  }

  // ----- Turns that break off -----

  // Where a turn breaks off: no key for the sender, or the lookup throws; the send to a recipient
  // throws, with its copy handed over or not; one of the three database calls fails; or the user ends
  // the program and starts it again later.
  datatype Break =
    | NoKey(throws: bool)
    | AtSend(served: nat, handedOver: bool)
    | AtStore
    | AtHeader
    | AtRemove
    | AtCancel(served: nat)

  predicate Possible(m: Mail, b: Break) { b.AtSend? || b.AtCancel? ==> b.served < |Recipients(m)| }

  function BreakSteps(id: Id, m: Mail, b: Break): seq<Step>
  {
    match b
    case NoKey(throws) => [FetchNext(id, false), LookUpKey(if throws then KeyThrows else NoIdentity), EndOfTurn]
    case AtSend(served, handedOver) => Served(id, served) + [TestCancelled, Send(SendThrows(handedOver)), EndOfTurn]
    case AtStore => Served(id, |Recipients(m)|) + [TestCancelled, StoreSent(false), EndOfTurn]
    case AtHeader => Served(id, |Recipients(m)|) + [TestCancelled, StoreSent(true), StoreSentHeader(false), EndOfTurn]
    case AtRemove =>
      Served(id, |Recipients(m)|) +
      [TestCancelled, StoreSent(true), StoreSentHeader(true), RemoveFromOutbox(false), EndOfTurn]
    case AtCancel(served) =>
      Served(id, served) + [Cancel, TestCancelled, EndOfTurn, Restart, CheckConnection(true)]
  }

  // How many recipients a copy was handed over for.
  function CopiesMade(m: Mail, b: Break): (n: nat)
    requires Possible(m, b)
    ensures n <= |Recipients(m)|
  {
    match b
    case NoKey(_) => 0
    case AtSend(served, handedOver) => served + if handedOver then 1 else 0
    case AtCancel(served) => served
    case _ => |Recipients(m)|
  }

  predicate Records(b: Break) { b.AtHeader? || b.AtRemove? }

  // The state after it: the mail is still in Outbox.
  function Broken(s: QueueState, id: Id, m: Mail, b: Break): QueueState
    requires Possible(m, b)
  {
    if b.NoKey? then if b.throws then WithChecker(s) else s
    else
      s.(pass := s.pass + 1, net := s.net + Copies(s.pass + 1, id, m, CopiesMade(m, b)),
         sent := s.sent + if Records(b) then [SentRecord(s.pass + 1, id, m)] else [],
         checker := if b.AtCancel? then false else s.checker || b.AtSend?,
         netAtCancel := if b.AtCancel? then |s.net| + b.served else s.netAtCancel)
  }

  lemma BreakRun(s: QueueState, id: Id, b: Break)
    requires Ready(s, id) && Possible(s.outbox[id].mail, b)
    ensures var m := s.outbox[id].mail; Run(s, BreakSteps(id, m, b)) == Broken(s, id, m, b)
  {
    var m := s.outbox[id].mail;
    match b
    case NoKey(throws) =>
      KeyBreaks(s, id, throws);
      hide Run, Apply;
    case AtSend(served, handedOver) =>
      ServedRun(s, id, served, [TestCancelled, Send(SendThrows(handedOver)), EndOfTurn]);
      hide Run, Apply, Served, Recipients;
      SendBreaks(s, id, m, served, handedOver);
    case AtCancel(served) =>
      ServedRun(s, id, served, [Cancel, TestCancelled, EndOfTurn, Restart, CheckConnection(true)]);
      hide Run, Apply, Served, Recipients;
      CancelBreaks(Midst(s, id, m, served), id, m, served);
    case _ => DatabaseBreaks(s, id, b);
  }

  lemma DatabaseBreaks(s: QueueState, id: Id, b: Break)
    requires Ready(s, id) && (b.AtStore? || b.AtHeader? || b.AtRemove?)
    ensures var m := s.outbox[id].mail; Run(s, BreakSteps(id, m, b)) == Broken(s, id, m, b)
  {
    var m := s.outbox[id].mail;
    hide Run, Apply, Served, Recipients;
    var n := |Recipients(m)|;
    match b
    case AtStore =>
      ServedRun(s, id, n, [TestCancelled, StoreSent(false), EndOfTurn]);
      StoreBreaks(Midst(s, id, m, n), id, m);
    case AtHeader =>
      ServedRun(s, id, n, [TestCancelled, StoreSent(true), StoreSentHeader(false), EndOfTurn]);
      HeaderBreaks(Midst(s, id, m, n), id, m);
    case AtRemove =>
      ServedRun(s, id, n, [TestCancelled, StoreSent(true), StoreSentHeader(true), RemoveFromOutbox(false), EndOfTurn]);
      RemoveBreaks(Midst(s, id, m, n), id, m);
  }

  lemma KeyBreaks(s: QueueState, id: Id, throws: bool)
    requires Ready(s, id)
    ensures Run(s, [FetchNext(id, false), LookUpKey(if throws then KeyThrows else NoIdentity), EndOfTurn])
            == if throws then WithChecker(s) else s
  {
    var key := if throws then KeyThrows else NoIdentity;
    RunThree(s, FetchNext(id, false), LookUpKey(key), EndOfTurn);
    hide Run;
    var s1 := s.(pc := Fetched(id, s.outbox[id]));
    assert Apply(s, FetchNext(id, false)) == s1;
    assert Apply(s1, LookUpKey(key)) == (if throws then WithChecker(s) else s).(pc := Bottom);
  }

  lemma SendBreaks(s: QueueState, id: Id, m: Mail, served: nat, handedOver: bool)
    requires served < |Recipients(m)| && !s.cancelled && s.pc.Top?
    ensures Run(Midst(s, id, m, served), [TestCancelled, Send(SendThrows(handedOver)), EndOfTurn])
            == Broken(s, id, m, AtSend(served, handedOver))
  {
    var s0 := Midst(s, id, m, served);
    var p, t := s.pass + 1, MailCopy(s.pass + 1, id, Blind(m), Recipients(m)[served]);
    RunThree(s0, TestCancelled, Send(SendThrows(handedOver)), EndOfTurn);
    var s1 := s0.(pc := Checked(id, m, served));
    assert Apply(s0, TestCancelled) == s1;
    CopiesGrow(p, id, m, served);
    hide Run, Recipients, Copies;
    assert s1.net + [t] == s.net + (Copies(p, id, m, served) + [t]);
  }

  lemma StoreBreaks(s: QueueState, id: Id, m: Mail)
    requires s.pc == Sending(id, m, |Recipients(m)|) && !s.cancelled
    ensures Run(s, [TestCancelled, StoreSent(false), EndOfTurn]) == s.(pc := Top)
  {
    RunThree(s, TestCancelled, StoreSent(false), EndOfTurn);
    hide Run, Recipients;
    assert Apply(s, TestCancelled) == s.(pc := Storing(id, m));
  }

  lemma HeaderBreaks(s: QueueState, id: Id, m: Mail)
    requires s.pc == Sending(id, m, |Recipients(m)|) && !s.cancelled
    ensures Run(s, [TestCancelled, StoreSent(true), StoreSentHeader(false), EndOfTurn])
            == s.(sent := s.sent + [SentRecord(s.pass, id, m)], pc := Top)
  {
    RunFour(s, TestCancelled, StoreSent(true), StoreSentHeader(false), EndOfTurn);
    Stores(s, id, m);
    var s2 := s.(sent := s.sent + [SentRecord(s.pass, id, m)], pc := StoringHeader(id));
    HeaderStep(s2, id, false);
    EndStep(s2.(pc := Bottom));
    hide Run, Recipients, Apply;
  }

  lemma RemoveBreaks(s: QueueState, id: Id, m: Mail)
    requires s.pc == Sending(id, m, |Recipients(m)|) && !s.cancelled
    ensures Run(s, [TestCancelled, StoreSent(true), StoreSentHeader(true), RemoveFromOutbox(false), EndOfTurn])
            == s.(sent := s.sent + [SentRecord(s.pass, id, m)], pc := Top)
  {
    RunFive(s, TestCancelled, StoreSent(true), StoreSentHeader(true), RemoveFromOutbox(false), EndOfTurn);
    Stores(s, id, m);
    var s2 := s.(sent := s.sent + [SentRecord(s.pass, id, m)], pc := StoringHeader(id));
    HeaderStep(s2, id, true);
    RemoveStep(s2.(pc := Removing(id)), id, false);
    EndStep(s2.(pc := Bottom));
    hide Run, Recipients, Apply;
  }

  // The next queue knows nothing of the recipients already served.
  lemma CancelBreaks(s: QueueState, id: Id, m: Mail, served: nat)
    requires s.pc == Sending(id, m, served) && served < |Recipients(m)| && !s.cancelled
    ensures Run(s, [Cancel, TestCancelled, EndOfTurn, Restart, CheckConnection(true)])
            == s.(pc := Top, checker := false, netAtCancel := |s.net|)
  {
    RunFive(s, Cancel, TestCancelled, EndOfTurn, Restart, CheckConnection(true));
    hide Run, Recipients;
    var s1 := s.(cancelled := true, netAtCancel := |s.net|);
    assert Apply(s, Cancel) == s1;
    assert Apply(s1, TestCancelled) == s1.(pc := Bottom);
    assert Apply(s1.(pc := Bottom), EndOfTurn) == s1.(pc := Idle);
    assert Apply(s1.(pc := Idle), Restart) == s1.(pc := Idle, checker := true, cancelled := false);
  }

  // ----- What the turns deliver together -----

  // The keys to which copies of a mail went, in order.
  function Delivered(net: seq<Transmission>, id: Id): seq<Key>
  {
    if net == [] then []
    else
      var t := net[|net| - 1];
      Delivered(net[..|net| - 1], id) + if t.MailCopy? && t.id == id then [t.to] else []
  }

  lemma {:induction false} DeliveredCopies(net: seq<Transmission>, p: nat, id: Id, m: Mail, n: nat)
    requires n <= |Recipients(m)|
    ensures Delivered(net + Copies(p, id, m, n), id) == Delivered(net, id) + Recipients(m)[..n]
  {
    if n == 0 {
      assert net + Copies(p, id, m, 0) == net;
    } else {
      CopiesGrow(p, id, m, n - 1);
      var t, init := MailCopy(p, id, Blind(m), Recipients(m)[n - 1]), Copies(p, id, m, n - 1);
      hide Copies, Recipients, Delivered;
      DeliveredCopies(net, p, id, m, n - 1);
      Associates(net, init, [t]);
      DeliveredNext(net + init, t, id);
      OneMore(Delivered(net, id), Recipients(m), n - 1);
    }
  }

  lemma Associates<T>(a: seq<T>, b: seq<T>, c: seq<T>)
    ensures a + (b + c) == a + b + c
  {}

  lemma OneMore<T>(a: seq<T>, s: seq<T>, n: nat)
    requires n < |s|
    ensures a + s[..n + 1] == a + s[..n] + [s[n]]
  {
    assert s[..n + 1] == s[..n] + [s[n]];
  }

  lemma DeliveredNext(net: seq<Transmission>, t: Transmission, id: Id)
    requires t.MailCopy? && t.id == id
    ensures Delivered(net + [t], id) == Delivered(net, id) + [t.to]
  {
    assert (net + [t])[..|net|] == net;
  }

  function Retries(id: Id, m: Mail, breaks: seq<Break>): seq<Step>
  {
    if breaks == [] then TurnSteps(id, |Recipients(m)|) else BreakSteps(id, m, breaks[0]) + Retries(id, m, breaks[1..])
  }

  ghost predicate AllPossible(m: Mail, breaks: seq<Break>) { forall b :: b in breaks ==> Possible(m, b) }

  // The keys served by the turns that broke off.
  ghost function Surplus(m: Mail, breaks: seq<Break>): seq<Key>
    requires AllPossible(m, breaks)
  {
    if breaks == [] then [] else Recipients(m)[..CopiesMade(m, breaks[0])] + Surplus(m, breaks[1..])
  }

  function SurplusRecords(breaks: seq<Break>): nat
  {
    if breaks == [] then 0 else (if Records(breaks[0]) then 1 else 0) + SurplusRecords(breaks[1..])
  }

  // The state after the turns, the last of which went through.
  ghost predicate Outcome(s: QueueState, s': QueueState, id: Id, m: Mail, breaks: seq<Break>)
    requires AllPossible(m, breaks)
  {
    && s'.outbox == s.outbox - {id}
    && Delivered(s'.net, id) == Delivered(s.net, id) + Surplus(m, breaks) + Recipients(m)
    && |s'.sent| == |s.sent| + SurplusRecords(breaks) + 1
    && s.sent <= s'.sent && forall k :: |s.sent| <= k < |s'.sent| ==> s'.sent[k].id == id && s'.sent[k].mail == m
  }

  lemma {:induction false} RetriesRun(s: QueueState, id: Id, breaks: seq<Break>)
    requires Ready(s, id) && AllPossible(s.outbox[id].mail, breaks)
    ensures var m := s.outbox[id].mail; Outcome(s, Run(s, Retries(id, m, breaks)), id, m, breaks)
    decreases |breaks|
  {
    var m := s.outbox[id].mail;
    if breaks == [] {
      UndisturbedTurn(s, id);
      DeliveredCopies(s.net, s.pass + 1, id, m, |Recipients(m)|);
      assert Recipients(m)[..|Recipients(m)|] == Recipients(m);
      hide Run, TurnSteps, Copies, Recipients, Delivered;
    } else {
      var b, rest := breaks[0], breaks[1..];
      assert b in breaks && AllPossible(m, rest);
      var s1 := Broken(s, id, m, b);
      BreakRun(s, id, b);
      RunAppend(s, BreakSteps(id, m, b), Retries(id, m, rest));
      assert Ready(s1, id) && s1.outbox == s.outbox;
      assert Retries(id, m, breaks) == BreakSteps(id, m, b) + Retries(id, m, rest);
      hide Run, BreakSteps, Retries, Recipients, Broken, CopiesMade, Ready, Outcome, AllPossible;
      RetriesRun(s1, id, rest);
      OutcomeGrows(s, Run(s1, Retries(id, m, rest)), id, m, breaks);
    }
  }

  lemma OutcomeGrows(s: QueueState, s': QueueState, id: Id, m: Mail, breaks: seq<Break>)
    requires breaks != [] && AllPossible(m, breaks) && AllPossible(m, breaks[1..]) && Possible(m, breaks[0])
    requires Outcome(Broken(s, id, m, breaks[0]), s', id, m, breaks[1..])
    ensures Outcome(s, s', id, m, breaks)
  {
    var b, rest, s1 := breaks[0], breaks[1..], Broken(s, id, m, breaks[0]);
    var extra := Recipients(m)[..CopiesMade(m, b)];
    BrokenDelivers(s, id, m, b);
    assert s1.outbox == s.outbox;
    assert Surplus(m, breaks) == extra + Surplus(m, rest);
    assert SurplusRecords(breaks) == |s1.sent| - |s.sent| + SurplusRecords(rest);
    hide Broken, Delivered, Recipients, CopiesMade, AllPossible, Possible, Surplus, SurplusRecords;
    Regroup(Delivered(s.net, id), extra, Surplus(m, rest), Recipients(m));
    SentGrows(s.sent, s1.sent, s'.sent, id, m);
  }

  lemma Regroup<T>(a: seq<T>, b: seq<T>, c: seq<T>, d: seq<T>)
    ensures a + b + c + d == a + (b + c) + d
  {}

  lemma SentGrows(a: seq<SentRecord>, b: seq<SentRecord>, c: seq<SentRecord>, id: Id, m: Mail)
    requires a <= b <= c
    requires forall k :: |a| <= k < |b| ==> b[k].id == id && b[k].mail == m
    requires forall k :: |b| <= k < |c| ==> c[k].id == id && c[k].mail == m
    ensures a <= c && forall k :: |a| <= k < |c| ==> c[k].id == id && c[k].mail == m
  {}

  lemma BrokenDelivers(s: QueueState, id: Id, m: Mail, b: Break)
    requires Possible(m, b)
    ensures var s' := Broken(s, id, m, b);
            && Delivered(s'.net, id) == Delivered(s.net, id) + Recipients(m)[..CopiesMade(m, b)]
            && s'.sent == s.sent + if Records(b) then [SentRecord(s.pass + 1, id, m)] else []
  {
    var n := CopiesMade(m, b);
    assert b.NoKey? ==> n == 0 && Recipients(m)[..n] == [];
    hide Recipients, CopiesMade, Delivered, Copies;
    DeliveredCopies(s.net, s.pass + 1, id, m, n);
  }

  lemma {:induction false} SurplusEmpty(m: Mail, breaks: seq<Break>)
    requires AllPossible(m, breaks)
    ensures Surplus(m, breaks) == [] <==> forall b :: b in breaks ==> CopiesMade(m, b) == 0
    ensures SurplusRecords(breaks) == 0 <==> forall b :: b in breaks ==> !Records(b)
  {
    if breaks != [] {
      var b, rest := breaks[0], breaks[1..];
      SurplusEmpty(m, rest);
      assert forall x :: x in breaks <==> x == b || x in rest;
      hide Records, CopiesMade, Recipients;
      assert |Surplus(m, breaks)| == CopiesMade(m, b) + |Surplus(m, rest)|;
    }
  }

  // A mail whose turns break off, any number of times and wherever, is delivered when one succeeds:
  // after what the broken turns handed over, each recipient gets its copy in order. So the recipients
  // have the copies that the lists name, and no more, exactly when no turn that broke off had handed
  // over any; and Sent has one record of it exactly when none broke off after storing it.
  lemma RetrySendsAgain(s: QueueState, id: Id, breaks: seq<Break>)
    requires Ready(s, id) && AllPossible(s.outbox[id].mail, breaks)
    ensures var m, s' := s.outbox[id].mail, Run(s, Retries(id, s.outbox[id].mail, breaks));
            && id !in s'.outbox
            && Delivered(s'.net, id) == Delivered(s.net, id) + Surplus(m, breaks) + Recipients(m)
            && (Delivered(s'.net, id) == Delivered(s.net, id) + Recipients(m) <==>
                  forall b :: b in breaks ==> CopiesMade(m, b) == 0)
            && s.sent < s'.sent
            && (|s'.sent| == |s.sent| + 1 <==> forall b :: b in breaks ==> !b.AtHeader? && !b.AtRemove?)
  {
    RetriesRun(s, id, breaks);
    SurplusEmpty(s.outbox[id].mail, breaks);
    hide Run, Delivered, Recipients, Surplus, SurplusRecords, CopiesMade, Retries, Ready;
    var m, s' := s.outbox[id].mail, Run(s, Retries(id, s.outbox[id].mail, breaks));
    assert |Delivered(s'.net, id)| == |Delivered(s.net, id)| + |Surplus(m, breaks)| + |Recipients(m)|;
  }

  // That is: the broken turns found no key, threw at the first recipient before handing it over, or were
  // cancelled before it.
  lemma CopiesMadeNone(m: Mail, b: Break)
    requires Possible(m, b)
    ensures CopiesMade(m, b) == 0 <==> Recipients(m) == [] || b.NoKey? || b == AtSend(0, false) || b == AtCancel(0)
  {}

  // ----- Stopping -----

  lemma FreshId(m: map<Id, Entry>)
    ensures exists id: Id :: id !in m
  {
    var bound := Bound(m.Keys);
    assert bound !in m;
  }

  ghost function Bound(ids: set<Id>): (b: nat)
    ensures forall id :: id in ids ==> id < b
  {
    if ids == {} then 0
    else
      var id :| id in ids;
      var b := Bound(ids - {id});
      assert ids == (ids - {id}) + {id};
      if id < b then b else id + 1
  }

  // An idle queue does not notice a stop, and sends what is queued later.
  lemma SendsAfterStop(steps: seq<Step>)
    requires !Reach(steps).cancelled && !Active(Reach(steps))
    ensures exists more :: Restart !in more && |Reach(steps + [Cancel] + more).net| == |Reach(steps + [Cancel]).net| + 2
  {
    var s := Reach(steps);
    FreshId(s.known);
    var id: Id :| id !in s.known;
    var m := Mail([1, 2], [], [], "");
    var start := [Enqueue(id, MailEntry(0, m), Stored), CheckConnection(true)];
    var more := start + TurnSteps(id, 2);
    assert Restart !in more by { NoRestart(id, 2); }
    RunAppend(INITIAL, steps, [Cancel]);
    RunOne(s, Cancel);
    assert Reach(steps + [Cancel]) == s;
    RunAppend(INITIAL, steps + [Cancel], more);
    RunAppend(s, start, TurnSteps(id, 2));
    RunTwo(s, start[0], start[1]);
    var s1 := Run(s, start);
    assert s1.net == s.net && Ready(s1, id) && s1.outbox[id].mail == m;
    assert |Recipients(m)| == 2;
    hide Run, TurnSteps, Recipients;
    UndisturbedTurn(s1, id);
  }

  lemma {:induction false} NoRestart(id: Id, n: nat)
    ensures Restart !in SendSteps(n) && Restart !in TurnSteps(id, n)
  {
    if n > 0 { NoRestart(id, n - 1); }
  }

  // A stop silences the queue, but for one message, exactly when it finds the loop or the connection
  // check running, or was made before.
  lemma StopSilences(steps: seq<Step>)
    ensures (forall more :: Restart !in more ==>
               |Reach(steps + [Cancel] + more).net| <= |Reach(steps + [Cancel]).net| + 1) <==>
            Reach(steps).cancelled || Active(Reach(steps))
  {
    RunAppend(INITIAL, steps, [Cancel]);
    RunOne(Reach(steps), Cancel);
    assert Reach(steps + [Cancel]).cancelled <==> Reach(steps).cancelled || Active(Reach(steps));
    hide Run, Apply, Reach;
    if Reach(steps + [Cancel]).cancelled {
      forall more | Restart !in more
        ensures |Reach(steps + [Cancel] + more).net| <= |Reach(steps + [Cancel]).net| + 1
      {
        SilentAfterCancel(steps + [Cancel], more);
      }
    } else {
      SendsAfterStop(steps);
    }
  }
}
