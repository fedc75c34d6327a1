/**
  * Share accounting of the mining pool (miner/server.cpp).
  *
  * One fiber serves each connection. It gives way only while a winning share is submitted to the
  * coin daemon; another thread sets server_ok at any time. A packet is therefore two steps, Receive
  * and Count, with anything in between.
  */
module PoolServer {
  import opened Basics

  // bitcoin::work: the previous block's hash, and everything else
  datatype Header = Header(prev: nat, rest: seq<Byte>)

  datatype User = User(valid: nat, invalid: nat, totalEarned: int, totalPaid: int)

  const NEW_USER: User := User(0, 0, 0, 0)

  type Digest = s: seq<Byte> | |s| == 32 witness seq(32, (_: nat) => 0 as Byte)

  // What the server computes from a header: city_hash64, the double SHA-256 of its 88 bytes, and
  // momentum_verify on the double SHA-256 of its first 80 bytes.
  datatype Oracle = Oracle(hash: Header -> nat, digest: Header -> Digest, momentum: Header -> bool)

  // The digest is reversed before its leading bytes are looked at.
  predicate Solves(o: Oracle, h: Header)
  {
    o.digest(h)[31] < 0x3f && o.momentum(h)
  }

  predicate Wins(o: Oracle, h: Header)
  {
    o.digest(h)[31] == 0 && o.digest(h)[30] == 0
  }

  // A packet between verify_share and increment_share_count.
  datatype Share = Share(address: string, valid: bool, late: bool, submitting: bool)

  datatype Pool = Pool(
    users: map<string, User>,
    recent: set<nat>,
    work: nat,
    ok: bool,
    allShares: nat,
    stale: nat,
    totalInvalid: nat,
    totalPaid: int,
    waiting: map<nat, Share>)

  // ----- The steps -----

  function Lookup(users: map<string, User>, key: string): User
  {
    if key in users then users[key] else NEW_USER
  }

  function VerdictOf(o: Oracle, p: Pool, address: string, h: Header): Share
  {
    if !p.ok then Share(address, false, false, false)
    else if h.prev != p.work then Share(address, false, true, false)
    else Share(address, Solves(o, h), false, Solves(o, h) && Wins(o, h))
  }

  // A packet up to the point where the fiber may give way.
  function Received(o: Oracle, p: Pool, con: nat, address: string, h: Header): Pool
  {
    if o.hash(h) in p.recent then p
    else
      var share := VerdictOf(o, p, address, h);
      p.(recent := p.recent + {o.hash(h)},
         stale := p.stale + (if share.late then 1 else 0),
         allShares := p.allShares + (if share.valid then 1 else 0),
         waiting := p.waiting[con := share])
  }

  // submit_work returns, or throws and ends the connection.
  function Submitted(p: Pool, con: nat, success: bool): Pool
    requires con in p.waiting
  {
    if success then p.(waiting := p.waiting[con := p.waiting[con].(submitting := false)])
    else p.(waiting := p.waiting - {con})
  }

  function Credit(u: User, valid: bool): User
  {
    if valid then u.(valid := u.valid + 1) else u.(invalid := u.invalid + 1)
  }

  // increment_share_count; the database may refuse to store.
  function Incremented(p: Pool, key: string, valid: bool, stored: bool): Pool
  {
    if !p.ok then p
    else
      var counted := if valid then p else p.(totalInvalid := p.totalInvalid + 1);
      if stored then counted.(users := p.users[key := Credit(Lookup(p.users, key), valid)]) else counted
  }

  function Counted(p: Pool, con: nat, stored: bool): Pool
    requires con in p.waiting
  {
    var share := p.waiting[con];
    Incremented(p.(waiting := p.waiting - {con}), share.address, share.valid, stored)
  }

  function PaidOut(p: Pool, key: string, amount: nat, sent: bool, stored: bool): Pool
  {
    if !sent then p
    else
      var u := Lookup(p.users, key);
      var users := if stored then p.users[key := u.(totalPaid := u.totalPaid + amount)] else p.users;
      p.(totalPaid := p.totalPaid + amount, users := users)
  }

  function NewWork(p: Pool, prev: nat): Pool { p.(recent := {}, work := prev) }

  // ----- Sums over the user database -----

  datatype Field = Valid | Invalid | Earned | Paid

  function Get(u: User, f: Field): int
  {
    match f
    case Valid => u.valid
    case Invalid => u.invalid
    case Earned => u.totalEarned
    case Paid => u.totalPaid
  }

  ghost function Sum(users: map<string, User>, f: Field): int
    decreases |users|
  {
    if users == map[] then 0
    else
      assert exists key :: key in users by { Inhabited(users); }
      var key :| key in users;
      Get(users[key], f) + Sum(users - {key}, f)
  }

  lemma Inhabited<K, V>(m: map<K, V>)
    requires m != map[]
    ensures exists key :: key in m
  {
    assert (forall key :: key !in m) ==> m == map[];
  }

  // Any user may be taken out first.
  lemma {:induction false} SumTakesOut(users: map<string, User>, f: Field, key: string)
    requires key in users
    ensures Sum(users, f) == Get(users[key], f) + Sum(users - {key}, f)
    decreases |users|
  {
    assert exists k :: k in users;
    var first :| first in users && Sum(users, f) == Get(users[first], f) + Sum(users - {first}, f);
    if first != key {
      SumTakesOut(users - {first}, f, key);
      SumTakesOut(users - {key}, f, first);
      assert users - {first} - {key} == users - {key} - {first};
    }
  }

  lemma SumOfStore(users: map<string, User>, f: Field, key: string, u: User)
    ensures Sum(users[key := u], f) == Sum(users, f) + Get(u, f) - (if key in users then Get(users[key], f) else 0)
  {
    SumTakesOut(users[key := u], f, key);
    if key in users {
      SumTakesOut(users, f, key);
      assert users[key := u] - {key} == users - {key};
    } else {
      assert users[key := u] - {key} == users;
    }
  }

  // ----- Runs -----

  datatype Event =
    | Receive(con: nat, address: string, header: Header)
    | Submit(con: nat, success: bool)
    | Count(con: nat, stored: bool)
    | SetOk(up: bool)
    | Update(prev: nat)
    | Pay(key: string, amount: nat, sent: bool, stored: bool)

  // What an observer of the server would note down: the headers examined since the last new work, the
  // headers ever accepted as shares, the works so far, and what the database never got to see.
  datatype Log = Log(
    examined: seq<Header>,
    accepted: seq<Header>,
    works: set<nat>,
    lostValid: nat,
    lostInvalid: nat,
    lostLate: nat,
    lostPaid: int)

  datatype World = World(pool: Pool, log: Log)

  // A connection reads its next packet only when it is done with the one before.
  predicate Enabled(p: Pool, e: Event)
  {
    match e
    case Receive(con, _, _) => con !in p.waiting
    case Submit(con, _) => con in p.waiting && p.waiting[con].submitting
    case Count(con, _) => con in p.waiting && !p.waiting[con].submitting
    case _ => true
  }

  function PoolStep(o: Oracle, p: Pool, e: Event): Pool
    requires Enabled(p, e)
  {
    match e
    case Receive(con, address, header) => Received(o, p, con, address, header)
    case Submit(con, success) => Submitted(p, con, success)
    case Count(con, stored) => Counted(p, con, stored)
    case SetOk(up) => p.(ok := up)
    case Update(prev) => NewWork(p, prev)
    case Pay(key, amount, sent, stored) => PaidOut(p, key, amount, sent, stored)
  }

  function One(b: bool): nat { if b then 1 else 0 }

  function LogStep(o: Oracle, p: Pool, log: Log, e: Event): Log
    requires Enabled(p, e)
  {
    match e
    case Receive(con, address, h) =>
      if o.hash(h) in p.recent then log
      else
        var share := VerdictOf(o, p, address, h);
        log.(examined := log.examined + [h], accepted := log.accepted + if share.valid then [h] else [])
    case Submit(con, success) => log.(lostValid := log.lostValid + One(!success))
    case Count(con, stored) =>
      var share := p.waiting[con];
      log.(lostValid := log.lostValid + One(share.valid && !(p.ok && stored)),
           lostInvalid := log.lostInvalid + One(!share.valid && p.ok && !stored),
           lostLate := log.lostLate + One(share.late && !p.ok))
    case SetOk(_) => log
    case Update(prev) => log.(examined := [], works := log.works + {prev})
    case Pay(_, amount, sent, stored) => log.(lostPaid := log.lostPaid + if sent && !stored then amount else 0)
  }

  function Step(o: Oracle, w: World, e: Event): World
    requires Enabled(w.pool, e)
  {
    World(PoolStep(o, w.pool, e), LogStep(o, w.pool, w.log, e))
  }

  predicate Legal(o: Oracle, w: World, run: seq<Event>)
    decreases |run|
  {
    run == [] || (Enabled(w.pool, run[0]) && Legal(o, Step(o, w, run[0]), run[1..]))
  }

  function After(o: Oracle, w: World, run: seq<Event>): World
    requires Legal(o, w, run)
    decreases |run|
  {
    if run == [] then w else After(o, Step(o, w, run[0]), run[1..])
  }

  // The server as it starts, with the totals that load_database adds up.
  ghost function Start(users: map<string, User>, work: nat): World
  {
    World(Pool(users, {}, work, false, 0, 0, 0, Sum(users, Paid), map[]), Log([], [], {work}, 0, 0, 0, 0))
  }

  function Waiting(m: map<nat, Share>, late: bool): set<nat>
  {
    set con | con in m && (if late then m[con].late else m[con].valid)
  }

  lemma WaitingPut(m: map<nat, Share>, con: nat, s: Share, late: bool)
    requires con !in m
    ensures |Waiting(m[con := s], late)| == |Waiting(m, late)| + One(if late then s.late else s.valid)
  {
    var before, after, hit := Waiting(m, late), Waiting(m[con := s], late), if late then s.late else s.valid;
    assert forall c :: c in after <==> c in before || (c == con && hit);
    assert con !in before;
    hide Waiting;
    assert after == if hit then before + {con} else before;
  }

  lemma WaitingTake(m: map<nat, Share>, con: nat, late: bool)
    requires con in m
    ensures |Waiting(m - {con}, late)| == |Waiting(m, late)| - One(if late then m[con].late else m[con].valid)
  {
    var before, after := Waiting(m, late), Waiting(m - {con}, late);
    assert forall c :: c in after <==> c in before && c != con;
    assert con in before <==> if late then m[con].late else m[con].valid;
    hide Waiting;
    assert after == before - {con};
  }

  // ----- What every run keeps -----

  predicate Sane(m: map<nat, Share>)
  {
    forall con :: con in m ==> (m[con].late ==> !m[con].valid) && (m[con].submitting ==> m[con].valid)
  }

  // Every accepted share is one valid point of a user, still under way, or lost, and so on: base is
  // the database the server started with.
  ghost predicate Balanced(base: map<string, User>, w: World)
  {
    var p, log := w.pool, w.log;
    && Sum(p.users, Valid) + log.lostValid + |Waiting(p.waiting, false)| == Sum(base, Valid) + p.allShares
    && Sum(p.users, Invalid) + log.lostInvalid == Sum(base, Invalid) + p.totalInvalid
    && Sum(p.users, Earned) == Sum(base, Earned)
    && Sum(p.users, Paid) + log.lostPaid == p.totalPaid
    && p.stale <= p.totalInvalid + log.lostLate + |Waiting(p.waiting, true)|
    && |log.accepted| == p.allShares
  }

  // Between two works, a header hash is examined once.
  ghost predicate ExaminedOnce(o: Oracle, w: World)
  {
    && (forall i, j :: 0 <= i < j < |w.log.examined| ==> o.hash(w.log.examined[i]) != o.hash(w.log.examined[j]))
    && w.pool.recent == set h | h in w.log.examined :: o.hash(h)
  }

  ghost predicate Inv(o: Oracle, base: map<string, User>, w: World)
  {
    Sane(w.pool.waiting) && Balanced(base, w) && ExaminedOnce(o, w)
  }

  lemma StepKeepsInv(o: Oracle, base: map<string, User>, w: World, e: Event)
    requires Enabled(w.pool, e)
    requires Inv(o, base, w)
    ensures Inv(o, base, Step(o, w, e))
  {
    StepKeepsBalance(o, base, w, e);
    StepKeepsExamined(o, w, e);
  }

  lemma StepKeepsExamined(o: Oracle, w: World, e: Event)
    requires Enabled(w.pool, e)
    requires ExaminedOnce(o, w)
    ensures ExaminedOnce(o, Step(o, w, e))
  {
    hide Solves, Wins;
    if e.Receive? && o.hash(e.header) !in w.pool.recent {
      var was := w.log.examined;
      var now := was + [e.header];
      assert forall h :: h in now <==> h in was || h == e.header;
      assert forall i :: 0 <= i < |was| ==> was[i] in was && o.hash(was[i]) in w.pool.recent;
    }
  }

  lemma StepKeepsBalance(o: Oracle, base: map<string, User>, w: World, e: Event)
    requires Enabled(w.pool, e)
    requires Sane(w.pool.waiting) && Balanced(base, w)
    ensures Sane(Step(o, w, e).pool.waiting) && Balanced(base, Step(o, w, e))
  {
    match e
    case Receive(con, address, h) => ReceiveBalances(o, base, w, con, address, h);
    case Submit(con, success) => SubmitBalances(o, base, w, con, success);
    case Count(con, stored) => CountBalances(o, base, w, con, stored);
    case SetOk(_) =>
    case Update(_) =>
    case Pay(key, amount, sent, stored) => PayBalances(o, base, w, key, amount, sent, stored);
  }

  lemma ReceiveBalances(o: Oracle, base: map<string, User>, w: World, con: nat, address: string, h: Header)
    requires con !in w.pool.waiting
    requires Sane(w.pool.waiting) && Balanced(base, w)
    ensures var n := Step(o, w, Receive(con, address, h)); Sane(n.pool.waiting) && Balanced(base, n)
  {
    hide Solves, Wins, Sum;
    var share := VerdictOf(o, w.pool, address, h);
    WaitingPut(w.pool.waiting, con, share, false);
    WaitingPut(w.pool.waiting, con, share, true);
    hide Waiting;
  }

  lemma SubmitBalances(o: Oracle, base: map<string, User>, w: World, con: nat, success: bool)
    requires con in w.pool.waiting && w.pool.waiting[con].submitting
    requires Sane(w.pool.waiting) && Balanced(base, w)
    ensures var n := Step(o, w, Submit(con, success)); Sane(n.pool.waiting) && Balanced(base, n)
  {
    hide Sum;
    var m := w.pool.waiting;
    if success {
      var done := m[con].(submitting := false);
      assert Waiting(m[con := done], false) == Waiting(m, false);
      assert Waiting(m[con := done], true) == Waiting(m, true);
    } else {
      WaitingTake(m, con, false);
      WaitingTake(m, con, true);
    }
    hide Waiting;
  }

  lemma CountBalances(o: Oracle, base: map<string, User>, w: World, con: nat, stored: bool)
    requires con in w.pool.waiting && !w.pool.waiting[con].submitting
    requires Sane(w.pool.waiting) && Balanced(base, w)
    ensures var n := Step(o, w, Count(con, stored)); Sane(n.pool.waiting) && Balanced(base, n)
  {
    hide Sum;
    var m, share := w.pool.waiting, w.pool.waiting[con];
    WaitingTake(m, con, false);
    WaitingTake(m, con, true);
    var u := Credit(Lookup(w.pool.users, share.address), share.valid);
    StoreSums(w.pool.users, share.address, u);
    hide Waiting;
  }

  lemma PayBalances(
    o: Oracle, base: map<string, User>, w: World, key: string, amount: nat, sent: bool, stored: bool)
    requires Sane(w.pool.waiting) && Balanced(base, w)
    ensures var n := Step(o, w, Pay(key, amount, sent, stored)); Sane(n.pool.waiting) && Balanced(base, n)
  {
    hide Sum, Waiting;
    var u := Lookup(w.pool.users, key);
    StoreSums(w.pool.users, key, u.(totalPaid := u.totalPaid + amount));
  }

  // A user who is not there yet counts as one with nothing.
  lemma StoreSums(users: map<string, User>, key: string, u: User)
    ensures forall f :: Sum(users[key := u], f) == Sum(users, f) + Get(u, f) - Get(Lookup(users, key), f)
  {
    forall f
      ensures Sum(users[key := u], f) == Sum(users, f) + Get(u, f) - Get(Lookup(users, key), f)
    {
      SumOfStore(users, f, key, u);
    }
  }

  lemma {:induction false} RunKeepsInv(o: Oracle, base: map<string, User>, w: World, run: seq<Event>)
    requires Legal(o, w, run)
    requires Inv(o, base, w)
    ensures Inv(o, base, After(o, w, run))
    decreases |run|
  {
    if run != [] {
      StepKeepsInv(o, base, w, run[0]);
      hide Inv, Step, Enabled;
      RunKeepsInv(o, base, Step(o, w, run[0]), run[1..]);
    }
  }

  // ----- Nothing lost -----

  // A step at which no share and no payment goes missing: the daemon takes what is submitted, the
  // database stores, and server_ok has not gone since the share was looked at.
  predicate Smooth(p: Pool, e: Event)
    requires Enabled(p, e)
  {
    match e
    case Submit(_, success) => success
    case Count(con, stored) => if p.ok then stored else !p.waiting[con].valid
    case Pay(_, amount, sent, stored) => sent && amount > 0 ==> stored
    case _ => true
  }

  predicate AllSmooth(o: Oracle, w: World, run: seq<Event>)
    requires Legal(o, w, run)
    decreases |run|
  {
    run == [] || (Smooth(w.pool, run[0]) && AllSmooth(o, Step(o, w, run[0]), run[1..]))
  }

  // No late share is dropped because server_ok went while its packet was under way.
  predicate AllSteady(o: Oracle, w: World, run: seq<Event>)
    requires Legal(o, w, run)
    decreases |run|
  {
    run == [] || (Steady(w.pool, run[0]) && AllSteady(o, Step(o, w, run[0]), run[1..]))
  }

  predicate Steady(p: Pool, e: Event)
    requires Enabled(p, e)
  {
    e.Count? ==> p.ok || !p.waiting[e.con].late
  }

  predicate NothingLost(log: Log) { log.lostValid == 0 && log.lostInvalid == 0 && log.lostPaid == 0 }

  predicate Sound(w: World) { Sane(w.pool.waiting) && w.log.lostPaid >= 0 }

  lemma {:induction false} LostOnlyGrows(o: Oracle, w: World, e: Event)
    requires Enabled(w.pool, e) && Sound(w)
    ensures Sound(Step(o, w, e))
    ensures NothingLost(Step(o, w, e).log) <==> NothingLost(w.log) && Smooth(w.pool, e)
    ensures Step(o, w, e).log.lostLate == 0 <==> w.log.lostLate == 0 && Steady(w.pool, e)
  {
    hide Solves, Wins;
  }

  lemma {:induction false} LostNothing(o: Oracle, w: World, run: seq<Event>)
    requires Legal(o, w, run) && Sound(w)
    ensures Sound(After(o, w, run))
    ensures NothingLost(After(o, w, run).log) <==> NothingLost(w.log) && AllSmooth(o, w, run)
    ensures After(o, w, run).log.lostLate == 0 <==> w.log.lostLate == 0 && AllSteady(o, w, run)
    decreases |run|
  {
    if run != [] {
      LostOnlyGrows(o, w, run[0]);
      hide Step, Enabled, Smooth, Steady, NothingLost, Sound;
      LostNothing(o, Step(o, w, run[0]), run[1..]);
    }
  }

  // What the users got since the start is what the pool counted and paid.
  ghost predicate BooksAgree(users: map<string, User>, p: Pool)
  {
    && Sum(p.users, Valid) - Sum(users, Valid) == p.allShares
    && Sum(p.users, Invalid) - Sum(users, Invalid) == p.totalInvalid
    && Sum(p.users, Paid) == p.totalPaid
  }

  // From a start of the server, over any run, once no packet is under way: no user has more than the
  // pool counted, and the books agree exactly when every step was smooth.
  lemma Accounting(o: Oracle, users: map<string, User>, work: nat, run: seq<Event>)
    requires Legal(o, Start(users, work), run)
    requires After(o, Start(users, work), run).pool.waiting == map[]
    ensures var p := After(o, Start(users, work), run).pool;
            && Sum(p.users, Valid) - Sum(users, Valid) <= p.allShares
            && Sum(p.users, Invalid) - Sum(users, Invalid) <= p.totalInvalid
            && Sum(p.users, Earned) == Sum(users, Earned)
            && Sum(p.users, Paid) <= p.totalPaid
            && (BooksAgree(users, p) <==> AllSmooth(o, Start(users, work), run))
            && (AllSteady(o, Start(users, work), run) ==> p.stale <= p.totalInvalid)
  {
    var w := Start(users, work);
    assert Inv(o, users, w) by { hide Sum; }
    RunKeepsInv(o, users, w, run);
    LostNothing(o, w, run);
    hide Sum, Legal, After, AllSmooth, AllSteady;
  }

  // One lost share is enough to make them differ: a winning share that the daemon does not take is
  // counted for the pool and for no user.
  lemma ShareLost(o: Oracle, users: map<string, User>, work: nat, h: Header)
    requires h.prev == work && Solves(o, h) && Wins(o, h)
    ensures var run := [SetOk(true), Receive(0, "a", h), Submit(0, false)];
            && Legal(o, Start(users, work), run)
            && After(o, Start(users, work), run).pool.allShares == 1
            && After(o, Start(users, work), run).pool.users == users
  {
    hide Sum;
    var w := Start(users, work);
    var e0, e1, e2 := SetOk(true), Receive(0, "a", h), Submit(0, false);
    var w1 := Step(o, w, e0);
    var w2 := Step(o, w1, e1);
    var w3 := Step(o, w2, e2);
    Three(o, w, e0, e1, e2);
  }

  lemma Three(o: Oracle, w: World, e0: Event, e1: Event, e2: Event)
    requires Enabled(w.pool, e0) && Enabled(Step(o, w, e0).pool, e1)
    requires Enabled(Step(o, Step(o, w, e0), e1).pool, e2)
    ensures Legal(o, w, [e0, e1, e2])
    ensures After(o, w, [e0, e1, e2]) == Step(o, Step(o, Step(o, w, e0), e1), e2)
  {
    hide Step, Enabled;
    var w1 := Step(o, w, e0);
    var w2 := Step(o, w1, e1);
    assert [e0, e1, e2][1..] == [e1, e2] && [e1, e2][1..] == [e2] && [e2][1..] == [];
    assert Legal(o, w2, [e2]) && After(o, w2, [e2]) == Step(o, w2, e2);
    assert Legal(o, w1, [e1, e2]) && After(o, w1, [e1, e2]) == Step(o, w2, e2);
  }

  // ----- No share is accepted twice -----

  // Each new work builds on a block that no earlier work built on.
  predicate FreshWorks(o: Oracle, w: World, run: seq<Event>)
    requires Legal(o, w, run)
    decreases |run|
  {
    || run == []
    || ((run[0].Update? ==> run[0].prev !in w.log.works) && FreshWorks(o, Step(o, w, run[0]), run[1..]))
  }

  ghost predicate Once(o: Oracle, w: World)
  {
    var acc := w.log.accepted;
    && w.pool.work in w.log.works
    && (forall h :: h in acc ==> h.prev in w.log.works)
    && (forall h :: h in acc && h.prev == w.pool.work ==> o.hash(h) in w.pool.recent)
    && (forall i, j :: 0 <= i < j < |acc| ==> acc[i] != acc[j])
  }

  lemma StepKeepsOnce(o: Oracle, w: World, e: Event)
    requires Enabled(w.pool, e) && Once(o, w)
    requires e.Update? ==> e.prev !in w.log.works
    ensures Once(o, Step(o, w, e))
  {
    hide Solves, Wins;
    if e.Receive? && o.hash(e.header) !in w.pool.recent && VerdictOf(o, w.pool, e.address, e.header).valid {
      var was := w.log.accepted;
      assert forall h :: h in was + [e.header] <==> h in was || h == e.header;
      assert e.header !in was;
    }
  }

  lemma {:induction false} RunKeepsOnce(o: Oracle, w: World, run: seq<Event>)
    requires Legal(o, w, run) && FreshWorks(o, w, run) && Once(o, w)
    ensures Once(o, After(o, w, run))
    decreases |run|
  {
    if run != [] {
      StepKeepsOnce(o, w, run[0]);
      hide Once, Step, Enabled;
      RunKeepsOnce(o, Step(o, w, run[0]), run[1..]);
    }
  }

  // Over a whole run, across all its works, no header is accepted as a share twice.
  lemma AcceptedOnce(o: Oracle, users: map<string, User>, work: nat, run: seq<Event>)
    requires Legal(o, Start(users, work), run) && FreshWorks(o, Start(users, work), run)
    ensures var acc := After(o, Start(users, work), run).log.accepted;
            && |acc| == After(o, Start(users, work), run).pool.allShares
            && forall i, j :: 0 <= i < j < |acc| ==> acc[i] != acc[j]
  {
    var w := Start(users, work);
    assert Inv(o, users, w) && Once(o, w) by { hide Sum; }
    RunKeepsInv(o, users, w, run);
    RunKeepsOnce(o, w, run);
    hide Sum, Legal, After, FreshWorks;
  }

  // When a work comes back after another one, a share that counted for it counts once more: the
  // hashes are forgotten with every new work.
  lemma WorkReturns(o: Oracle, w: World, con: nat, address: string, h: Header, other: nat)
    requires con !in w.pool.waiting && o.hash(h) !in w.pool.recent
    requires w.pool.ok && h.prev == w.pool.work && Solves(o, h) && !Wins(o, h)
    ensures var e := Receive(con, address, h);
            var once := Step(o, Step(o, w, e), Count(con, true));
            var back := Step(o, Step(o, once, Update(other)), Update(h.prev));
            && Enabled(back.pool, e)
            && Step(o, back, e).log.accepted == w.log.accepted + [h, h]
  {
    var e := Receive(con, address, h);
    var once := Step(o, Step(o, w, e), Count(con, true));
    assert once.log.accepted == w.log.accepted + [h];
    var back := Step(o, Step(o, once, Update(other)), Update(h.prev));
    assert back.pool.ok && back.pool.work == h.prev && back.pool.recent == {};
    assert Step(o, back, e).log.accepted == (w.log.accepted + [h]) + [h];
  }

  // After a new work a share that was accepted before is accepted again exactly when it builds on that
  // work; without a new work never, while `Once` holds.
  lemma AcceptedAgain(o: Oracle, w: World, con: nat, address: string, h: Header, prev: nat)
    requires con !in w.pool.waiting && w.pool.ok && Solves(o, h) && h in w.log.accepted
    ensures var e, later := Receive(con, address, h), Step(o, w, Update(prev));
            && (Step(o, later, e).log.accepted == w.log.accepted + [h] <==> h.prev == prev)
            && (Once(o, w) ==> Step(o, w, e).log.accepted == w.log.accepted)
  {
    hide Solves, Wins;
    var later := Step(o, w, Update(prev));
    assert later.pool.recent == {} && later.pool.work == prev && later.log.accepted == w.log.accepted;
  }

  // ----- The server object -----

  class Server {
    var userDatabase: map<string, User>
    var recentShares: set<nat>
    var currentWork: nat
    var serverOk: bool
    var allShares: nat
    var stale: nat
    var totalInvalid: nat
    var totalPaid: int
    var totalEarned: int
    // The local variables of the connections' fibers.
    ghost var waiting: map<nat, Share>

    ghost function State(): Pool
      reads this
    {
      Pool(userDatabase, recentShares, currentWork, serverOk, allShares, stale, totalInvalid, totalPaid, waiting)
    }

    // The globals and members as they are before main.
    constructor (users: map<string, User>, work: nat)
      ensures State() == Pool(users, {}, work, false, 0, 0, 0, 0, map[]) && totalEarned == 0
    {
      userDatabase, recentShares, currentWork := users, {}, work;
      serverOk, allShares, stale, totalInvalid, totalPaid, totalEarned := false, 0, 0, 0, 0, 0;
      waiting := map[];
    }

    // load_database adds up what the users were paid and have earned, in whatever order the
    // database lists them.
    method LoadDatabase()
      modifies this`totalPaid, this`totalEarned
      ensures totalPaid == old(totalPaid) + Sum(userDatabase, Paid)
      ensures totalEarned == old(totalEarned) + Sum(userDatabase, Earned)
    {
      var left := userDatabase;
      while left != map[]
        invariant totalPaid + Sum(left, Paid) == old(totalPaid) + Sum(userDatabase, Paid)
        invariant totalEarned + Sum(left, Earned) == old(totalEarned) + Sum(userDatabase, Earned)
        decreases |left|
      {
        Inhabited(left);
        var key :| key in left;
        SumTakesOut(left, Paid, key);
        SumTakesOut(left, Earned, key);
        totalPaid := totalPaid + left[key].totalPaid;
        totalEarned := totalEarned + left[key].totalEarned;
        left := left - {key};
      }
    }

    // pay, after the daemon has or has not sent the amount
    method Pay(key: string, amount: nat, sent: bool, stored: bool)
      modifies this`totalPaid, this`userDatabase
      ensures State() == PaidOut(old(State()), key, amount, sent, stored)
    {
      if sent {
        totalPaid := totalPaid + amount;
        var user := NEW_USER;
        if key in userDatabase {
          user := userDatabase[key];
        }
        user := user.(totalPaid := user.totalPaid + amount);
        if stored {
          userDatabase := userDatabase[key := user];
        }
      }
    }

    // update_work, on the main thread
    method UpdateWork(latest: nat)
      modifies this`recentShares, this`currentWork
      ensures State() == NewWork(old(State()), latest)
    {
      recentShares := {};
      currentWork := latest;
    }

    // verify_share up to its call of submit_work, if there is one
    method VerifyShare(o: Oracle, header: Header) returns (valid: bool, submit: bool)
      modifies this`stale, this`allShares
      ensures stale == old(stale) + One(header.prev != currentWork)
      ensures valid <==> header.prev == currentWork && Solves(o, header)
      ensures allShares == old(allShares) + One(valid)
      ensures submit <==> valid && Wins(o, header)
    {
      valid, submit := false, false;
      if header.prev != currentWork {
        stale := stale + 1;
        return;
      }
      var result := o.digest(header);
      if result[31] < 0x3f {
        if o.momentum(header) {
          allShares := allShares + 1;
          submit := result[31] == 0 && result[30] == 0;
          valid := true;
        }
      }
    }

    // process_connection from a packet's arrival to the end of verify_share or its submit_work
    method Receive(o: Oracle, con: nat, address: string, header: Header) returns (isNew: bool, valid: bool)
      modifies this
      ensures State() == Received(o, old(State()), con, address, header)
      ensures totalEarned == old(totalEarned)
      ensures isNew <==> o.hash(header) !in old(recentShares)
      ensures isNew ==> con in waiting && waiting[con].valid == valid
    {
      isNew := o.hash(header) !in recentShares;
      recentShares := recentShares + {o.hash(header)};
      valid := false;
      if !isNew {
        assert recentShares == old(recentShares);
        return;
      }
      ghost var share := VerdictOf(o, old(State()), address, header);
      var submit := false;
      if serverOk {
        valid, submit := VerifyShare(o, header);
      }
      waiting := waiting[con := share];
    }

    // increment_share_count
    method IncrementShareCount(key: string, valid: bool, stored: bool)
      modifies this`userDatabase, this`totalInvalid
      ensures State() == Incremented(old(State()), key, valid, stored)
    {
      if !serverOk {
        return;
      }
      var user := NEW_USER;
      if key in userDatabase {
        user := userDatabase[key];
      }
      if valid {
        user := user.(valid := user.valid + 1);
      } else {
        user := user.(invalid := user.invalid + 1);
        totalInvalid := totalInvalid + 1;
      }
      if stored {
        userDatabase := userDatabase[key := user];
      }
    }

    // process_connection from there on; found is what goes back to the miner.
    method Count(con: nat, address: string, valid: bool, stored: bool) returns (found: bool, user: User)
      requires con in waiting && waiting[con].address == address && waiting[con].valid == valid
      modifies this
      ensures State() == Counted(old(State()), con, stored)
      ensures totalEarned == old(totalEarned)
      ensures found <==> address in userDatabase
      ensures user == Lookup(userDatabase, address)
    {
      waiting := waiting - {con};
      IncrementShareCount(address, valid, stored);
      found := address in userDatabase;
      user := if found then userDatabase[address] else NEW_USER;
    }
  }

  // A share counts for the user it names and for no other, once.
  lemma CreditsOneUser(p: Pool, con: nat)
    requires con in p.waiting && p.ok
    ensures var share, n := p.waiting[con], Counted(p, con, true);
            && n.users.Keys == p.users.Keys + {share.address}
            && (forall k :: k in p.users && k != share.address ==> n.users[k] == p.users[k])
            && n.users[share.address].valid == Lookup(p.users, share.address).valid + One(share.valid)
            && n.users[share.address].invalid == Lookup(p.users, share.address).invalid + One(!share.valid)
            && n.users[share.address].totalPaid == Lookup(p.users, share.address).totalPaid
  {}
}
