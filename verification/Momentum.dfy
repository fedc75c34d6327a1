/** The momentum proof of work: hashtable.hpp (the table used outside Windows) and fast_momentum.cpp.

    The threads share the table without a lock.  Each call of `store` is taken to be atomic, and
    between two of them any thread may run.  SHA-512 of a nonce index and the seed is a parameter:
    `digest(i)` is its eight 64-bit words for the index i and the seed of the search at hand. */
module Momentum {
  type Digests = nat -> seq<nat>

  const MAX_NONCE: nat := 0x400_0000          // 2^26
  const TABLE_SIZE: nat := 100_663_296        // 1.5 * 2^26
  const NOT_FOUND: nat := 0xffff_ffff         // uint32_t(-1)

  ghost predicate Eight(digest: Digests)
  {
    forall i: nat :: |digest(i)| == 8
  }

  // getBirthdayHash: the word of nonce a in the digest of its group of eight, cut to 50 bits.
  function BirthdayHash(digest: Digests, a: nat): nat
    requires Eight(digest)
  {
    digest(a - a % 8)[a % 8] / 0x4000
  }

  // momentum_verify
  predicate Verify(digest: Digests, a: nat, b: nat)
    requires Eight(digest)
  {
    if a == b then false
    else if a == 0 then false
    else if b == 0 then false
    else if a > MAX_NONCE then false
    else if b > MAX_NONCE then false
    else BirthdayHash(digest, a) == BirthdayHash(digest, b)
  }

  // ----- The table -----

  datatype Slot = Slot(key: nat, nonce: nat)

  function StoreResult(table: seq<Slot>, key: nat, val: nat): nat
    requires |table| > 0
  {
    var slot := table[key % |table|];
    if slot.key == key then slot.nonce else NOT_FOUND
  }

  function StoreTable(table: seq<Slot>, key: nat, val: nat): (t: seq<Slot>)
    requires |table| > 0
    ensures |t| == |table|
  {
    if table[key % |table|].key == key then table else table[key % |table| := Slot(key, val)]
  }

  class HashTable {
    const table: array<Slot>

    constructor ()
      ensures table.Length == TABLE_SIZE && fresh(table)
      ensures table[..] == seq(TABLE_SIZE, i => Slot(0, 0))
    {
      table := new Slot[TABLE_SIZE](i => Slot(0, 0));
      new;
      Reset();
    }

    method Reset()
      requires table.Length == TABLE_SIZE
      modifies table
      ensures table[..] == seq(TABLE_SIZE, i => Slot(0, 0))
    {
      for i := 0 to table.Length
        invariant forall j :: 0 <= j < i ==> table[j] == Slot(0, 0)
      {
        table[i] := Slot(0, 0);
      }
    }

    method Store(key: nat, val: nat) returns (r: nat)
      requires table.Length > 0
      modifies table
      ensures r == StoreResult(old(table[..]), key, val)
      ensures table[..] == StoreTable(old(table[..]), key, val)
    {
      var index := key % table.Length;
      if table[index].key == key {
        return table[index].nonce;
      }
      table[index] := Slot(key, val);
      return NOT_FOUND;
    }
  }

  // ----- The threads -----

  datatype Where = Guard | Inner(x: nat) | Done

  // One run of `search`: its loop variable i, its place in the loops, its results, and the nonces it
  // has looked at so far.
  datatype Thread = Thread(i: nat, at: Where, results: seq<(nat, nat)>, visited: seq<nat>)
  {
    function Position(): nat { i + if at.Inner? then at.x else 0 }
  }

  datatype World = World(table: seq<Slot>, threads: seq<Thread>, cancelled: bool)

  datatype Action = Advance(t: nat) | CancelSearch

  function Start(n: nat): World
  {
    World(seq(TABLE_SIZE, i => Slot(0, 0)), seq(n, (t: nat) => Thread(8 * t, Guard, [], [])), false)
  }

  // One birthday: the zero hash is skipped, a hit reports both orders.
  function Look(digest: Digests, table: seq<Slot>, th: Thread, n: nat): (r: (seq<Slot>, Thread))
    requires Eight(digest) && |table| > 0 && th.at.Inner? && th.at.x < 8
    ensures |r.0| == |table|
  {
    var nonce := th.i + th.at.x;
    var birthday := digest(th.i)[th.at.x] / 0x4000;
    var moved := if th.at.x == 7 then th.(i := th.i + 8 * n, at := Guard) else th.(at := Inner(th.at.x + 1));
    var th' := moved.(visited := th.visited + [nonce]);
    if birthday == 0 then (table, th')
    else
      var cur := StoreResult(table, birthday, nonce);
      (StoreTable(table, birthday, nonce),
       if cur == NOT_FOUND then th' else th'.(results := th.results + [(cur, nonce), (nonce, cur)]))
  }

  // What a hit reports.
  function Reports(table: seq<Slot>, b: nat, nonce: nat): seq<(nat, nat)>
    requires |table| > 0
  {
    var cur := StoreResult(table, b, nonce);
    if b != 0 && cur != NOT_FOUND then [(cur, nonce), (nonce, cur)] else []
  }

  function Act(digest: Digests, w: World, action: Action): (w': World)
    requires Eight(digest) && |w.table| > 0
    ensures |w'.table| == |w.table| && |w'.threads| == |w.threads|
  {
    match action
    case CancelSearch => w.(cancelled := true)
    case Advance(t) =>
      if t >= |w.threads| then w
      else
        var th := w.threads[t];
        match th.at
        case Done => w
        case Guard =>
          var at := if !w.cancelled && th.i < MAX_NONCE then Inner(0) else Done;
          w.(threads := w.threads[t := th.(at := at)])
        case Inner(x) =>
          if x >= 8 then w
          else
            var (table, th') := Look(digest, w.table, th, |w.threads|);
            w.(table := table, threads := w.threads[t := th'])
  }

  function Run(digest: Digests, w: World, schedule: seq<Action>): (w': World)
    requires Eight(digest) && |w.table| > 0
    ensures |w'.table| == |w.table| && |w'.threads| == |w.threads|
    decreases |schedule|
  {
    if schedule == [] then w else Run(digest, Act(digest, w, schedule[0]), schedule[1..])
  }

  // ----- The invariant -----

  function Residue(k: nat, n: nat): (r: nat)
    requires n > 0
    ensures r < n
  {
    if k < n then k else Residue(k - n, n)
  }

  // The thread a nonce belongs to: the groups of eight are dealt out in turn.
  function Owner(v: nat, n: nat): (t: nat)
    requires n > 0
    ensures t < n
  {
    Residue(v / 8, n)
  }

  ghost predicate Good(digest: Digests, a: nat, b: nat)
    requires Eight(digest)
  {
    && a != b && a < MAX_NONCE && b < MAX_NONCE
    && BirthdayHash(digest, a) == BirthdayHash(digest, b) != 0
  }

  ghost predicate Increasing(s: seq<nat>)
  {
    forall j, k :: 0 <= j < k < |s| ==> s[j] < s[k]
  }

  ghost predicate ThreadOk(digest: Digests, th: Thread, t: nat, n: nat)
    requires Eight(digest) && t < n
  {
    && th.i % 8 == 0 && Owner(th.i, n) == t && th.i < MAX_NONCE + 8 * n
    && (th.at.Inner? ==> th.i < MAX_NONCE && th.at.x < 8)
    && (forall k :: 0 <= k < |th.results| ==> Good(digest, th.results[k].0, th.results[k].1))
    && Increasing(th.visited)
    && (forall v: nat :: v in th.visited <==> Owner(v, n) == t && v < th.Position())
  }

  // A slot in use holds the hash of a nonce that its owner has already looked at.
  ghost predicate SlotOk(digest: Digests, w: World, s: Slot)
    requires Eight(digest) && |w.threads| > 0
  {
    s.key != 0 ==>
      && s.nonce < MAX_NONCE && BirthdayHash(digest, s.nonce) == s.key
      && s.nonce < w.threads[Owner(s.nonce, |w.threads|)].Position()
  }

  ghost predicate Inv(digest: Digests, w: World)
    requires Eight(digest)
  {
    && 0 < |w.threads| <= 32 && |w.table| > 0
    && (forall t :: 0 <= t < |w.threads| ==> ThreadOk(digest, w.threads[t], t, |w.threads|))
    && (forall s :: 0 <= s < |w.table| ==> SlotOk(digest, w, w.table[s]))
  }

  // ----- Strides -----

  // Between two groups of one thread lie only groups of others.
  lemma {:induction false} StrideSkips(q: nat, n: nat, k: nat)
    requires 0 < k < n
    ensures Residue(q + k, n) != Residue(q, n)
  {
    if q < n {
      assert q + k >= n ==> Residue(q + k, n) == q + k - n;
    } else {
      StrideSkips(q - n, n, k);
    }
  }

  // The owned nonces below i + 8n are those below i + 8.
  lemma NextGroup(i: nat, n: nat, v: nat)
    requires n > 0 && i % 8 == 0 && i + 8 <= v < i + 8 * n
    ensures Owner(v, n) != Owner(i, n)
  {
    StrideSkips(i / 8, n, v / 8 - i / 8);
  }

  lemma NextOwner(i: nat, n: nat)
    requires n > 0 && i % 8 == 0
    ensures (i + 8 * n) % 8 == 0 && Owner(i + 8 * n, n) == Owner(i, n)
  {
    assert (i + 8 * n) / 8 == i / 8 + n;
  }

  lemma StartInv(digest: Digests, n: nat)
    requires Eight(digest) && 0 < n <= 32
    ensures Inv(digest, Start(n))
  {
    forall t | 0 <= t < n
      ensures ThreadOk(digest, Start(n).threads[t], t, n)
    {
      assert 8 * t / 8 == t;
      forall v: nat | Owner(v, n) == t
        ensures v >= 8 * t
      {
        OwnerBelow(v / 8, n);
      }
    }
  }

  lemma {:induction false} OwnerBelow(q: nat, n: nat)
    requires n > 0
    ensures Residue(q, n) <= q
  {
    if q >= n {
      OwnerBelow(q - n, n);
    }
  }

  // Looking at one nonce moves a thread past exactly that one of its own nonces.
  lemma NextPosition(i: nat, x: nat, n: nat, v: nat)
    requires n > 0 && i % 8 == 0 && x < 8
    requires Owner(v, n) == Owner(i, n)
    ensures v < (if x == 7 then i + 8 * n else i + x + 1) <==> v < i + x || v == i + x
  {
    if x == 7 && i + 8 <= v < i + 8 * n {
      NextGroup(i, n, v);
    }
  }

  // The loop over eight words reads the same word as the hash of a single nonce.
  lemma GroupOf(digest: Digests, i: nat, x: nat)
    requires Eight(digest) && i % 8 == 0 && x < 8
    ensures digest(i)[x] / 0x4000 == BirthdayHash(digest, i + x)
  {
    assert (i + x) % 8 == x && (i + x) - (i + x) % 8 == i;
  }

  lemma LookIs(digest: Digests, table: seq<Slot>, th: Thread, n: nat)
    requires Eight(digest) && |table| > 0 && th.i % 8 == 0 && th.at.Inner? && th.at.x < 8
    ensures var nonce, b := th.Position(), BirthdayHash(digest, th.Position());
            var (table', th') := Look(digest, table, th, n);
            && table' == (if b == 0 then table else StoreTable(table, b, nonce))
            && th'.results == th.results + Reports(table, b, nonce)
            && th'.visited == th.visited + [nonce]
  {
    hide BirthdayHash, StoreResult, StoreTable;
    GroupOf(digest, th.i, th.at.x);
    assert th.results + [] == th.results;
  }

  lemma LookVisits(digest: Digests, table: seq<Slot>, th: Thread, t: nat, n: nat)
    requires Eight(digest) && |table| > 0 && t < n <= 32
    requires ThreadOk(digest, th, t, n) && th.at.Inner?
    ensures var th' := Look(digest, table, th, n).1;
            && th'.i % 8 == 0 && Owner(th'.i, n) == t && th'.i < MAX_NONCE + 8 * n
            && (th'.at.Inner? ==> th'.i < MAX_NONCE && th'.at.x < 8)
            && th'.visited == th.visited + [th.Position()]
            && Increasing(th'.visited)
            && (forall v: nat :: v in th'.visited <==> Owner(v, n) == t && v < th'.Position())
  {
    hide BirthdayHash, Increasing;
    var th' := Look(digest, table, th, n).1;
    var i, x := th.i, th.at.x;
    NextOwner(i, n);
    assert th'.visited == th.visited + [i + x];
    assert Owner(i + x, n) == t by {
      assert (i + x) / 8 == i / 8;
    }
    forall v: nat
      ensures v in th'.visited <==> Owner(v, n) == t && v < th'.Position()
    {
      assert v in th'.visited <==> v in th.visited || v == i + x;
      if Owner(v, n) == t {
        NextPosition(i, x, n, v);
      }
    }
    IncreasingAppend(th.visited, i + x);
  }

  lemma IncreasingAppend(s: seq<nat>, n: nat)
    requires Increasing(s) && forall v :: v in s ==> v < n
    ensures Increasing(s + [n])
  {
    assert forall k :: 0 <= k < |s| ==> s[k] in s;
  }

  // The slots another lookup may hit hold other nonces than the one looked at now.
  ghost predicate TableOk(digest: Digests, table: seq<Slot>, nonce: nat)
    requires Eight(digest)
  {
    forall s :: 0 <= s < |table| && table[s].key != 0 ==>
      table[s].nonce < MAX_NONCE && BirthdayHash(digest, table[s].nonce) == table[s].key && table[s].nonce != nonce
  }

  lemma LookReports(digest: Digests, table: seq<Slot>, th: Thread, t: nat, n: nat)
    requires Eight(digest) && |table| > 0 && t < n <= 32
    requires ThreadOk(digest, th, t, n) && th.at.Inner? && TableOk(digest, table, th.Position())
    ensures var th' := Look(digest, table, th, n).1;
            forall k :: 0 <= k < |th'.results| ==> Good(digest, th'.results[k].0, th'.results[k].1)
  {
    hide BirthdayHash, Owner, Increasing, Look;
    LookIs(digest, table, th, n);
    var nonce, b := th.Position(), BirthdayHash(digest, th.Position());
    var th', slot := Look(digest, table, th, n).1, table[b % |table|];
    assert b != 0 && slot.key == b ==> Good(digest, slot.nonce, nonce) && Good(digest, nonce, slot.nonce);
    forall k | 0 <= k < |th'.results|
      ensures Good(digest, th'.results[k].0, th'.results[k].1)
    {
      if k >= |th.results| {
        assert th'.results[k] == Reports(table, b, nonce)[k - |th.results|];
      }
    }
  }

  // What every slot says stays true when threads only move on.
  lemma SlotsStay(digest: Digests, w: World, w': World)
    requires Eight(digest) && Inv(digest, w) && |w'.threads| == |w.threads|
    requires forall t :: 0 <= t < |w.threads| ==> w.threads[t].Position() <= w'.threads[t].Position()
    ensures forall s :: 0 <= s < |w.table| ==> SlotOk(digest, w', w.table[s])
  {
    hide BirthdayHash, Owner;
    forall s | 0 <= s < |w.table|
      ensures SlotOk(digest, w', w.table[s])
    {
      assert SlotOk(digest, w, w.table[s]);
    }
  }

  lemma InnerKeepsInv(digest: Digests, w: World, t: nat)
    requires Eight(digest) && Inv(digest, w) && t < |w.threads| && w.threads[t].at.Inner?
    ensures Inv(digest, Act(digest, w, Advance(t)))
  {
    hide BirthdayHash, Owner, Increasing;
    var n, th := |w.threads|, w.threads[t];
    assert ThreadOk(digest, th, t, n);
    var w' := Act(digest, w, Advance(t));
    var nonce := th.Position();
    LookVisits(digest, w.table, th, t, n);
    var th' := Look(digest, w.table, th, n).1;
    assert nonce in th'.visited by {
      assert th'.visited[|th.visited|] == nonce;
    }
    assert TableOk(digest, w.table, nonce) by {
      forall s | 0 <= s < |w.table| && w.table[s].key != 0
        ensures w.table[s].nonce != nonce && w.table[s].nonce < MAX_NONCE
        ensures BirthdayHash(digest, w.table[s].nonce) == w.table[s].key
      {
        assert SlotOk(digest, w, w.table[s]);
      }
    }
    LookReports(digest, w.table, th, t, n);
    assert ThreadOk(digest, th', t, n);
    forall k | 0 <= k < n
      ensures ThreadOk(digest, w'.threads[k], k, n)
    {
      if k != t { assert ThreadOk(digest, w.threads[k], k, n); }
    }
    SlotsStay(digest, w, w');
    NewSlotOk(digest, w, t);
  }

  lemma NewSlotOk(digest: Digests, w: World, t: nat)
    requires Eight(digest) && 0 < |w.table| && t < |w.threads|
    requires ThreadOk(digest, w.threads[t], t, |w.threads|) && w.threads[t].at.Inner?
    requires var w' := Act(digest, w, Advance(t));
             && ThreadOk(digest, w'.threads[t], t, |w.threads|) && w.threads[t].Position() in w'.threads[t].visited
             && forall s :: 0 <= s < |w.table| ==> SlotOk(digest, w', w.table[s])
    ensures var w' := Act(digest, w, Advance(t));
            forall s :: 0 <= s < |w'.table| ==> SlotOk(digest, w', w'.table[s])
  {
    hide Owner, Increasing, BirthdayHash, StoreResult;
    var th, w' := w.threads[t], Act(digest, w, Advance(t));
    GroupOf(digest, th.i, th.at.x);
    forall s | 0 <= s < |w'.table|
      ensures SlotOk(digest, w', w'.table[s])
    {
      assert w'.table[s] == w.table[s] || w'.table[s] == Slot(BirthdayHash(digest, th.Position()), th.Position());
    }
  }

  lemma ActKeepsInv(digest: Digests, w: World, action: Action)
    requires Eight(digest) && Inv(digest, w)
    ensures Inv(digest, Act(digest, w, action))
  {
    if action.Advance? && action.t < |w.threads| && w.threads[action.t].at.Inner? {
      InnerKeepsInv(digest, w, action.t);
    } else {
      hide BirthdayHash, Owner, Increasing;
      var w' := Act(digest, w, action);
      SlotsStay(digest, w, w');
      forall k | 0 <= k < |w.threads|
        ensures ThreadOk(digest, w'.threads[k], k, |w.threads|)
      {
        assert ThreadOk(digest, w.threads[k], k, |w.threads|);
      }
    }
  }

  lemma {:induction false} RunKeepsInv(digest: Digests, w: World, schedule: seq<Action>)
    requires Eight(digest) && Inv(digest, w)
    ensures Inv(digest, Run(digest, w, schedule))
    decreases |schedule|
  {
    if schedule != [] {
      ActKeepsInv(digest, w, schedule[0]);
      RunKeepsInv(digest, Act(digest, w, schedule[0]), schedule[1..]);
    }
  }

  // ----- What momentum_search returns -----

  // The results of the threads, in the order of the threads.
  function Collect(threads: seq<Thread>): seq<(nat, nat)>
  {
    if threads == [] then [] else Collect(threads[..|threads| - 1]) + threads[|threads| - 1].results
  }

  lemma {:induction false} CollectIn(threads: seq<Thread>, k: nat) returns (t: nat, j: nat)
    requires k < |Collect(threads)|
    ensures t < |threads| && j < |threads[t].results| && threads[t].results[j] == Collect(threads)[k]
  {
    var rest := threads[..|threads| - 1];
    if k < |Collect(rest)| {
      t, j := CollectIn(rest, k);
    } else {
      t, j := |threads| - 1, k - |Collect(rest)|;
    }
  }

  // Soundness under every interleaving and every cancellation: a reported pair is two different
  // nonces below 2^26 with the same, non-zero hash, and the verifier accepts it exactly when neither
  // is nonce 0.
  lemma SearchSound(digest: Digests, n: nat, schedule: seq<Action>, k: nat)
    requires Eight(digest) && 0 < n <= 32
    requires k < |Collect(Run(digest, Start(n), schedule).threads)|
    ensures var (a, b) := Collect(Run(digest, Start(n), schedule).threads)[k];
            && a != b && a < MAX_NONCE && b < MAX_NONCE
            && BirthdayHash(digest, a) == BirthdayHash(digest, b) != 0
            && (Verify(digest, a, b) <==> a != 0 && b != 0)
  {
    hide BirthdayHash;
    StartInv(digest, n);
    RunKeepsInv(digest, Start(n), schedule);
    var threads := Run(digest, Start(n), schedule).threads;
    var t, j := CollectIn(threads, k);
    assert ThreadOk(digest, threads[t], t, n);
  }

  ghost predicate AllPast(threads: seq<Thread>)
  {
    forall t :: 0 <= t < |threads| && threads[t].at.Done? ==> threads[t].i >= MAX_NONCE
  }

  // Without a cancellation a thread stops only past the end of the nonce space.
  lemma {:induction false} DoneMeansPast(digest: Digests, w: World, schedule: seq<Action>)
    requires Eight(digest) && |w.table| > 0 && !w.cancelled
    requires forall a :: a in schedule ==> a.Advance?
    requires AllPast(w.threads)
    ensures AllPast(Run(digest, w, schedule).threads)
    ensures !Run(digest, w, schedule).cancelled
    decreases |schedule|
  {
    if schedule == [] {
      assert Run(digest, w, schedule) == w;
    } else {
      assert schedule[0] in schedule;
      var w' := Act(digest, w, schedule[0]);
      assert !w'.cancelled && AllPast(w'.threads);
      assert forall a :: a in schedule[1..] ==> a in schedule;
      hide Act, AllPast;
      DoneMeansPast(digest, w', schedule[1..]);
    }
  }

  // With no cancellation, once every thread is done each nonce below 2^26 has been looked at exactly
  // once, by exactly one thread, and no thread ever computed a nonce of 2^32 or more.
  lemma NoncesPartitioned(digest: Digests, n: nat, schedule: seq<Action>, v: nat)
    requires Eight(digest) && 0 < n <= 32 && v < MAX_NONCE
    requires forall a :: a in schedule ==> a.Advance?
    requires forall t :: 0 <= t < n ==> Run(digest, Start(n), schedule).threads[t].at.Done?
    ensures var threads := Run(digest, Start(n), schedule).threads;
            && Owner(v, n) < n
            && (forall t :: 0 <= t < n ==> (v in threads[t].visited <==> t == Owner(v, n)))
            && (forall t, j, k :: 0 <= t < n && 0 <= j < k < |threads[t].visited| ==>
                  threads[t].visited[j] != threads[t].visited[k])
            && (forall t :: 0 <= t < n ==> threads[t].i < MAX_NONCE + 256)
  {
    hide BirthdayHash, Owner;
    var start := Start(n);
    StartInv(digest, n);
    RunKeepsInv(digest, start, schedule);
    DoneMeansPast(digest, start, schedule);
    var threads := Run(digest, start, schedule).threads;
    hide Run;
    forall t | 0 <= t < n
      ensures ThreadOk(digest, threads[t], t, n) && (v in threads[t].visited <==> t == Owner(v, n))
    {
      assert ThreadOk(digest, threads[t], t, n);
      assert threads[t].at.Done? && threads[t].i >= MAX_NONCE;
    }
  }

  // "Every reported pair verifies" fails for nonce 0, which the search looks at and the verifier
  // refuses: one thread reports nonces 0 and 1 whenever their hashes meet.
  lemma NonceZeroRefused(digest: Digests)
    requires Eight(digest) && BirthdayHash(digest, 0) == BirthdayHash(digest, 1) != 0
    ensures var results := Collect(Run(digest, Start(1), [Advance(0), Advance(0), Advance(0)]).threads);
            results == [(0, 1), (1, 0)] && !Verify(digest, 0, 1) && !Verify(digest, 1, 0)
  {
    hide StoreTable, StoreResult;
    var table, key := Start(1).table, BirthdayHash(digest, 0);
    var filled := StoreTable(table, key, 0);
    FirstStore(table, key, 0, 1);
    var w1 := World(table, [Thread(0, Inner(0), [], [])], false);
    var w2 := World(filled, [Thread(0, Inner(1), [], [0])], false);
    var w3 := World(StoreTable(filled, key, 1), [Thread(0, Inner(2), [(0, 1), (1, 0)], [0, 1])], false);
    assert Act(digest, Start(1), Advance(0)) == w1;
    GroupOf(digest, 0, 0);
    GroupOf(digest, 0, 1);
    assert w1.threads[0].visited + [0] == [0] && w2.threads[0].visited + [1] == [0, 1];
    assert w2.threads[0].results + [(0, 1), (1, 0)] == [(0, 1), (1, 0)];
    assert Look(digest, table, w1.threads[0], 1) == (w2.table, w2.threads[0]);
    assert Act(digest, w1, Advance(0)) == w2;
    assert Look(digest, filled, w2.threads[0], 1) == (w3.table, w3.threads[0]);
    assert Act(digest, w2, Advance(0)) == w3;
    assert [Advance(0), Advance(0), Advance(0)][1..] == [Advance(0), Advance(0)];
    assert [Advance(0), Advance(0)][1..] == [Advance(0)] && [Advance(0)][1..] == [];
    assert Run(digest, w2, [Advance(0)]) == Run(digest, w3, []);
    assert Collect(w3.threads) == Collect([]) + [(0, 1), (1, 0)];
  }

  lemma FirstStore(table: seq<Slot>, key: nat, v: nat, other: nat)
    requires |table| > 0 && key != 0 && table[key % |table|] == Slot(0, 0)
    ensures StoreResult(table, key, v) == NOT_FOUND
    ensures StoreResult(StoreTable(table, key, v), key, other) == v
  {}

  lemma {:induction false} RunOneMore(digest: Digests, w: World, schedule: seq<Action>, a: Action)
    requires Eight(digest) && |w.table| > 0
    ensures Run(digest, w, schedule + [a]) == Act(digest, Run(digest, w, schedule), a)
    decreases |schedule|
  {
    hide Act;
    if schedule == [] {
      assert ([a])[1..] == [] && schedule + [a] == [a];
      assert Run(digest, Act(digest, w, a), []) == Act(digest, w, a);
    } else {
      RunOneMore(digest, Act(digest, w, schedule[0]), schedule[1..], a);
      assert (schedule + [a])[1..] == schedule[1..] + [a];
    }
  }

  // The next action of thread t of `search`: the loop test, or one birthday with its store.
  method Search(digest: Digests, found: HashTable, threads: array<Thread>, t: nat, cancelled: bool)
    requires Eight(digest) && found.table.Length > 0 && found.table as object != threads
    modifies found.table, threads
    ensures World(found.table[..], threads[..], cancelled)
            == Act(digest, old(World(found.table[..], threads[..], cancelled)), Advance(t))
  {
    if t >= threads.Length || threads[t].at.Done? {
      return;
    }
    var th := threads[t];
    if th.at.Guard? {
      threads[t] := th.(at := if !cancelled && th.i < MAX_NONCE then Inner(0) else Done);
      return;
    }
    var x := th.at.x;
    if x >= 8 {
      return;
    }
    var birthday, nonce := digest(th.i)[x] / 0x4000, th.i + x;
    var results := th.results;
    if birthday != 0 {
      var cur := found.Store(birthday, nonce);
      if cur != NOT_FOUND {
        results := results + [(cur, nonce)];
        results := results + [(nonce, cur)];
      }
    }
    assert birthday != 0 && StoreResult(old(found.table[..]), birthday, nonce) != NOT_FOUND ==>
        results == th.results + [(StoreResult(old(found.table[..]), birthday, nonce), nonce),
                                 (nonce, StoreResult(old(found.table[..]), birthday, nonce))];
    if x == 7 {
      threads[t] := Thread(th.i + 8 * threads.Length, Guard, results, th.visited + [nonce]);
    } else {
      threads[t] := Thread(th.i, Inner(x + 1), results, th.visited + [nonce]);
    }
  }

  // momentum_search with n threads, run as far as the schedule goes.
  method MomentumSearch(digest: Digests, n: nat, schedule: seq<Action>) returns (results: seq<(nat, nat)>)
    requires Eight(digest) && n <= 32
    ensures results == Collect(Run(digest, Start(n), schedule).threads)
  {
    hide Run, Act;
    var found := new HashTable();
    var threads := new Thread[n]((t: nat) => Thread(8 * t, Guard, [], []));
    var cancelled := false;
    assert Run(digest, Start(n), []) == Start(n) by {
      RunNothing(digest, Start(n));
    }
    assert World(found.table[..], threads[..], cancelled) == Start(n);
    for s := 0 to |schedule|
      invariant World(found.table[..], threads[..], cancelled) == Run(digest, Start(n), schedule[..s])
    {
      RunOneMore(digest, Start(n), schedule[..s], schedule[s]);
      assert schedule[..s + 1] == schedule[..s] + [schedule[s]];
      match schedule[s]
      case Advance(t) => Search(digest, found, threads, t, cancelled);
      case CancelSearch =>
        cancelled := true;
        Cancelled(digest, Run(digest, Start(n), schedule[..s]));
    }
    assert schedule[..|schedule|] == schedule;
    results := [];
    for t := 0 to n
      invariant results == Collect(threads[..t])
    {
      results := results + threads[t].results;
      assert threads[..t + 1][..t] == threads[..t];
    }
    assert threads[..] == threads[..n];
  }

  lemma RunNothing(digest: Digests, w: World)
    requires Eight(digest) && |w.table| > 0
    ensures Run(digest, w, []) == w
  {}

  lemma Cancelled(digest: Digests, w: World)
    requires Eight(digest) && |w.table| > 0
    ensures Act(digest, w, CancelSearch) == w.(cancelled := true)
  {}
}
