/** What the search of fast_momentum.cpp finds.  A slot of the table holds one hash, and a different
    hash that falls into the slot drives it out; so which of the nonces with a given hash are paired
    depends on the order in which the threads look at nonces. */
module MomentumComplete {
  import opened Momentum

  // ----- One hash and its slot -----

  predicate Mine(digest: Digests, k: nat, v: nat)
    requires Eight(digest)
  {
    BirthdayHash(digest, v) == k
  }

  // Another hash that needs the slot of hash k.
  predicate Rival(digest: Digests, k: nat, v: nat)
    requires Eight(digest)
  {
    var b := BirthdayHash(digest, v);
    b != 0 && b != k && b % TABLE_SIZE == k % TABLE_SIZE
  }

  ghost predicate Undisturbed(digest: Digests, k: nat, order: seq<nat>)
    requires Eight(digest)
  {
    forall p, q, r :: 0 <= p < q < r < |order| && Mine(digest, k, order[p]) && Mine(digest, k, order[r]) ==>
      !Rival(digest, k, order[q])
  }

  // Nonce s is reported, both ways round, with each other nonce of hash k.
  ghost predicate AllPaired(digest: Digests, k: nat, order: seq<nat>, pairs: set<(nat, nat)>, s: nat)
    requires Eight(digest)
  {
    forall c: nat :: c in order && Mine(digest, k, c) && c != s ==> (s, c) in pairs && (c, s) in pairs
  }

  ghost predicate NoneOf(digest: Digests, k: nat, order: seq<nat>)
    requires Eight(digest)
  {
    forall c: nat :: c in order ==> !Mine(digest, k, c)
  }

  // Hash k has been driven out.
  ghost predicate DrivenOut(digest: Digests, k: nat, order: seq<nat>)
    requires Eight(digest)
  {
    exists p, q :: 0 <= p < q < |order| && Mine(digest, k, order[p]) && Rival(digest, k, order[q])
  }

  ghost predicate NoRival(digest: Digests, k: nat, order: seq<nat>, p: int, q: int)
    requires Eight(digest) && -1 <= p && q <= |order|
  {
    forall i :: p < i < q ==> !Rival(digest, k, order[i])
  }

  ghost predicate Together(digest: Digests, k: nat, order: seq<nat>, a: nat, b: nat)
    requires Eight(digest)
  {
    exists p, q :: 0 <= p < |order| && 0 <= q < |order| && order[p] == a && order[q] == b
                && NoRival(digest, k, order, p, q) && NoRival(digest, k, order, q, p)
  }

  // The tenant of the slot has been there since it was looked at.
  ghost predicate Settled(digest: Digests, k: nat, order: seq<nat>, s: nat)
    requires Eight(digest)
  {
    exists p :: 0 <= p < |order| && order[p] == s && NoRival(digest, k, order, p, |order|)
  }

  ghost predicate PairsMet(digest: Digests, k: nat, pairs: set<(nat, nat)>, order: seq<nat>)
    requires Eight(digest)
  {
    forall a: nat, b: nat :: (a, b) in pairs && Mine(digest, k, a) ==>
      Mine(digest, k, b) && Together(digest, k, order, a, b)
  }

  // As long as the order is undisturbed, nobody is missed.
  ghost predicate NobodyMissed(digest: Digests, k: nat, slot: Slot, pairs: set<(nat, nat)>, order: seq<nat>)
    requires Eight(digest)
  {
    if slot.key == k then AllPaired(digest, k, order, pairs, slot.nonce)
    else
      || NoneOf(digest, k, order)
      || (DrivenOut(digest, k, order) && exists s: nat :: AllPaired(digest, k, order, pairs, s))
  }

  // What slot, reports and order say of hash k.
  ghost predicate Tenancy(digest: Digests, k: nat, slot: Slot, pairs: set<(nat, nat)>, order: seq<nat>)
    requires Eight(digest)
  {
    && (slot.key == k ==> Mine(digest, k, slot.nonce) && Settled(digest, k, order, slot.nonce))
    && PairsMet(digest, k, pairs, order)
    && (Undisturbed(digest, k, order) ==> NobodyMissed(digest, k, slot, pairs, order))
  }

  lemma UndisturbedBefore(digest: Digests, k: nat, order: seq<nat>, v: nat)
    requires Eight(digest) && Undisturbed(digest, k, order + [v])
    ensures Undisturbed(digest, k, order)
    ensures DrivenOut(digest, k, order) ==> !Mine(digest, k, v)
  {
    hide Mine, Rival;
    var order' := order + [v];
    assert order'[|order|] == v && forall p :: 0 <= p < |order| ==> order'[p] == order[p];
  }

  lemma DrivenOutStays(digest: Digests, k: nat, order: seq<nat>, v: nat)
    requires Eight(digest) && DrivenOut(digest, k, order)
    ensures DrivenOut(digest, k, order + [v])
  {
    hide Mine, Rival;
    var p, q :| 0 <= p < q < |order| && Mine(digest, k, order[p]) && Rival(digest, k, order[q]);
    var order' := order + [v];
    assert order'[p] == order[p] && order'[q] == order[q];
  }

  lemma TogetherStays(digest: Digests, k: nat, order: seq<nat>, v: nat, a: nat, b: nat)
    requires Eight(digest) && Together(digest, k, order, a, b)
    ensures Together(digest, k, order + [v], a, b)
  {
    hide Rival;
    var p, q :| 0 <= p < |order| && 0 <= q < |order| && order[p] == a && order[q] == b
             && NoRival(digest, k, order, p, q) && NoRival(digest, k, order, q, p);
    var order' := order + [v];
    assert order'[p] == a && order'[q] == b;
    assert NoRival(digest, k, order', p, q) && NoRival(digest, k, order', q, p);
  }

  lemma SettledStays(digest: Digests, k: nat, order: seq<nat>, v: nat, s: nat)
    requires Eight(digest) && Settled(digest, k, order, s) && !Rival(digest, k, v)
    ensures Settled(digest, k, order + [v], s)
  {
    hide Rival;
    var p :| 0 <= p < |order| && order[p] == s && NoRival(digest, k, order, p, |order|);
    var order' := order + [v];
    assert order'[p] == s && NoRival(digest, k, order', p, |order'|);
  }

  // The tenant is still in its slot when the nonce v comes.
  lemma TenantMeets(digest: Digests, k: nat, order: seq<nat>, v: nat, s: nat)
    requires Eight(digest) && Settled(digest, k, order, s)
    ensures Together(digest, k, order + [v], s, v) && Together(digest, k, order + [v], v, s)
  {
    hide Rival;
    var p :| 0 <= p < |order| && order[p] == s && NoRival(digest, k, order, p, |order|);
    var order', q := order + [v], |order|;
    assert order'[p] == s && order'[q] == v;
    assert NoRival(digest, k, order', p, q) && NoRival(digest, k, order', q, p);
  }

  // The reports that a nonce of another hash adds are of no concern.
  ghost predicate MorePairs(digest: Digests, k: nat, pairs: set<(nat, nat)>, pairs': set<(nat, nat)>)
    requires Eight(digest)
  {
    pairs <= pairs' && forall a: nat, b: nat :: (a, b) in pairs' && (a, b) !in pairs ==> !Mine(digest, k, a)
  }

  lemma PairsStay(digest: Digests, k: nat, order: seq<nat>, v: nat, pairs: set<(nat, nat)>, pairs': set<(nat, nat)>)
    requires Eight(digest) && PairsMet(digest, k, pairs, order) && MorePairs(digest, k, pairs, pairs')
    ensures PairsMet(digest, k, pairs', order + [v])
  {
    hide Mine, Together;
    forall a: nat, b: nat | (a, b) in pairs' && Mine(digest, k, a)
      ensures Mine(digest, k, b) && Together(digest, k, order + [v], a, b)
    {
      TogetherStays(digest, k, order, v, a, b);
    }
  }

  lemma PairedStay(digest: Digests, k: nat, order: seq<nat>, v: nat, pairs: set<(nat, nat)>, pairs': set<(nat, nat)>,
                   s: nat)
    requires Eight(digest) && pairs <= pairs' && !Mine(digest, k, v)
    ensures NoneOf(digest, k, order) ==> NoneOf(digest, k, order + [v])
    ensures AllPaired(digest, k, order, pairs, s) ==> AllPaired(digest, k, order + [v], pairs', s)
  {
    hide Mine;
  }

  lemma DrivenOutNow(digest: Digests, k: nat, order: seq<nat>, v: nat, s: nat)
    requires Eight(digest) && Settled(digest, k, order, s) && Mine(digest, k, s) && Rival(digest, k, v)
    ensures DrivenOut(digest, k, order + [v])
  {
    hide Mine, Rival, NoRival;
    var p :| 0 <= p < |order| && order[p] == s && NoRival(digest, k, order, p, |order|);
    var order' := order + [v];
    assert order'[p] == s && order'[|order|] == v;
  }

  // A nonce of another hash in the same slot is looked at.
  lemma RivalComes(digest: Digests, k: nat, slot: Slot, slot': Slot, pairs: set<(nat, nat)>, pairs': set<(nat, nat)>,
                   order: seq<nat>, v: nat)
    requires Eight(digest) && Tenancy(digest, k, slot, pairs, order) && Rival(digest, k, v)
    requires slot'.key != k && MorePairs(digest, k, pairs, pairs')
    ensures Tenancy(digest, k, slot', pairs', order + [v])
  {
    assert !Mine(digest, k, v) && pairs <= pairs';
    hide Mine, Rival, NoRival, Settled, PairsMet, MorePairs, AllPaired, NoneOf, DrivenOut, Undisturbed;
    PairsStay(digest, k, order, v, pairs, pairs');
    if Undisturbed(digest, k, order + [v]) {
      UndisturbedBefore(digest, k, order, v);
      if slot.key == k {
        DrivenOutNow(digest, k, order, v, slot.nonce);
        PairedStay(digest, k, order, v, pairs, pairs', slot.nonce);
      } else {
        MissedStay(digest, k, order, v, pairs, pairs');
      }
    }
  }

  lemma MissedStay(digest: Digests, k: nat, order: seq<nat>, v: nat, pairs: set<(nat, nat)>, pairs': set<(nat, nat)>)
    requires Eight(digest) && pairs <= pairs' && !Mine(digest, k, v)
    requires || NoneOf(digest, k, order)
             || (DrivenOut(digest, k, order) && exists s: nat :: AllPaired(digest, k, order, pairs, s))
    ensures || NoneOf(digest, k, order + [v])
            || (DrivenOut(digest, k, order + [v]) && exists s: nat :: AllPaired(digest, k, order + [v], pairs', s))
  {
    hide Mine, Rival, AllPaired, NoneOf, DrivenOut;
    if NoneOf(digest, k, order) {
      PairedStay(digest, k, order, v, pairs, pairs', 0);
    } else {
      DrivenOutStays(digest, k, order, v);
      var s: nat :| AllPaired(digest, k, order, pairs, s);
      PairedStay(digest, k, order, v, pairs, pairs', s);
    }
  }

  // A nonce that has nothing to do with the slot, or a hash of zero.
  lemma StrangerComes(digest: Digests, k: nat, slot: Slot, pairs: set<(nat, nat)>, pairs': set<(nat, nat)>,
                      order: seq<nat>, v: nat)
    requires Eight(digest) && Tenancy(digest, k, slot, pairs, order) && !Rival(digest, k, v) && !Mine(digest, k, v)
    requires MorePairs(digest, k, pairs, pairs')
    ensures Tenancy(digest, k, slot, pairs', order + [v])
  {
    assert pairs <= pairs';
    hide Mine, Rival, NoRival, Settled, PairsMet, MorePairs, AllPaired, NoneOf, DrivenOut, Undisturbed;
    PairsStay(digest, k, order, v, pairs, pairs');
    if slot.key == k {
      SettledStays(digest, k, order, v, slot.nonce);
    }
    if Undisturbed(digest, k, order + [v]) {
      UndisturbedBefore(digest, k, order, v);
      if slot.key == k {
        PairedStay(digest, k, order, v, pairs, pairs', slot.nonce);
      } else {
        MissedStay(digest, k, order, v, pairs, pairs');
      }
    }
  }

  // A nonce of hash k finds its slot taken by hash k and is paired with the tenant.
  lemma MineMeetsTenant(digest: Digests, k: nat, slot: Slot, pairs: set<(nat, nat)>, order: seq<nat>, v: nat)
    requires Eight(digest) && Tenancy(digest, k, slot, pairs, order)
    requires Mine(digest, k, v) && !Rival(digest, k, v) && slot.key == k
    ensures Tenancy(digest, k, slot, pairs + {(slot.nonce, v), (v, slot.nonce)}, order + [v])
  {
    hide Mine, Rival, NoRival, Settled, NoneOf, DrivenOut, Undisturbed, Together;
    var s, pairs', order' := slot.nonce, pairs + {(slot.nonce, v), (v, slot.nonce)}, order + [v];
    assert PairsMet(digest, k, pairs', order') by {
      PairsStay(digest, k, order, v, pairs, pairs);
      TenantMeets(digest, k, order, v, s);
    }
    SettledStays(digest, k, order, v, s);
    hide PairsMet;
    if Undisturbed(digest, k, order') {
      UndisturbedBefore(digest, k, order, v);
      assert AllPaired(digest, k, order', pairs', s);
    }
  }

  // A nonce of hash k finds its slot free, or taken by another hash, and moves in.
  lemma MineMovesIn(digest: Digests, k: nat, slot: Slot, pairs: set<(nat, nat)>, order: seq<nat>, v: nat)
    requires Eight(digest) && Tenancy(digest, k, slot, pairs, order) && Mine(digest, k, v) && slot.key != k
    ensures Tenancy(digest, k, Slot(k, v), pairs, order + [v])
  {
    hide Mine, Rival, PairsMet, DrivenOut, Undisturbed;
    var order' := order + [v];
    PairsStay(digest, k, order, v, pairs, pairs);
    assert Settled(digest, k, order', v) by {
      assert order'[|order|] == v && NoRival(digest, k, order', |order|, |order'|);
    }
    hide Settled, NoRival;
    if Undisturbed(digest, k, order') {
      UndisturbedBefore(digest, k, order, v);
      assert AllPaired(digest, k, order', pairs, v);
    }
  }

  ghost predicate AllDifferent(s: seq<nat>) { forall p, q :: 0 <= p < q < |s| ==> s[p] != s[q] }

  // A nonce and what it is paired with stand in the order with no rival between.
  lemma Met(digest: Digests, k: nat, pairs: set<(nat, nat)>, order: seq<nat>, s: nat, r: nat) returns (m: nat)
    requires Eight(digest) && PairsMet(digest, k, pairs, order) && AllDifferent(order) && r < |order|
    requires Mine(digest, k, order[r]) && (order[r], s) in pairs
    ensures m < |order| && order[m] == s && Mine(digest, k, s)
    ensures NoRival(digest, k, order, m, r) && NoRival(digest, k, order, r, m)
  {
    hide Mine, Rival, NoRival;
    assert Together(digest, k, order, order[r], s);
    var p, q :| 0 <= p < |order| && 0 <= q < |order| && order[p] == order[r] && order[q] == s
             && NoRival(digest, k, order, p, q) && NoRival(digest, k, order, q, p);
    assert p == r;
    m := q;
  }

  // A rival between two nonces of hash k leaves one of them unpaired.
  lemma TornApart(digest: Digests, k: nat, pairs: set<(nat, nat)>, order: seq<nat>, s: nat, p: nat, q: nat, r: nat)
    requires Eight(digest) && PairsMet(digest, k, pairs, order) && AllDifferent(order)
    requires p < q < r < |order| && Mine(digest, k, order[p]) && Mine(digest, k, order[r])
    requires s != order[p] ==> (order[p], s) in pairs
    requires s != order[r] ==> (order[r], s) in pairs
    ensures !Rival(digest, k, order[q])
  {
    hide PairsMet, Mine, Rival;
    assert order[p] != order[r];
    if s == order[p] {
      var m := Met(digest, k, pairs, order, s, r);
      assert m == p;
    } else if s == order[r] {
      var m := Met(digest, k, pairs, order, s, p);
      assert m == r;
    } else {
      var m := Met(digest, k, pairs, order, s, p);
      var m' := Met(digest, k, pairs, order, s, r);
      assert m == m';
      if m == q { NotBoth(digest, k, s); }
    }
  }

  lemma NotBoth(digest: Digests, k: nat, v: nat)
    requires Eight(digest)
    ensures !(Mine(digest, k, v) && Rival(digest, k, v))
  {}

  // One nonce is paired with all the others of hash k exactly when no rival came between two of them.
  lemma PairedExactly(digest: Digests, k: nat, slot: Slot, pairs: set<(nat, nat)>, order: seq<nat>)
    requires Eight(digest) && Tenancy(digest, k, slot, pairs, order) && AllDifferent(order)
    ensures (exists s: nat :: AllPaired(digest, k, order, pairs, s)) <==> Undisturbed(digest, k, order)
  {
    hide Mine, Rival, Settled, PairsMet, AllDifferent, DrivenOut;
    if s: nat :| AllPaired(digest, k, order, pairs, s) {
      forall p, q, r | 0 <= p < q < r < |order| && Mine(digest, k, order[p]) && Mine(digest, k, order[r])
        ensures !Rival(digest, k, order[q])
      {
        TornApart(digest, k, pairs, order, s, p, q, r);
      }
    } else if Undisturbed(digest, k, order) {
      assert NoneOf(digest, k, order) ==> AllPaired(digest, k, order, pairs, 0);
    }
  }

  // ----- The order of a run -----

  // The nonce an action looks at.
  function LookedAt(w: World, action: Action): seq<nat>
  {
    if action.Advance? && action.t < |w.threads| && w.threads[action.t].at.Inner? && w.threads[action.t].at.x < 8 then
      [w.threads[action.t].Position()]
    else []
  }

  // The nonces of a run, in the order in which the threads look at them.
  function Order(digest: Digests, w: World, schedule: seq<Action>): seq<nat>
    requires Eight(digest) && |w.table| > 0
    decreases |schedule|
  {
    if schedule == [] then []
    else LookedAt(w, schedule[0]) + Order(digest, Act(digest, w, schedule[0]), schedule[1..])
  }

  function Found(threads: seq<Thread>): set<(nat, nat)>
  {
    set t, p | 0 <= t < |threads| && p in threads[t].results :: p
  }

  ghost predicate Visited(threads: seq<Thread>, v: nat)
  {
    exists t :: 0 <= t < |threads| && v in threads[t].visited
  }

  ghost predicate Linked(threads: seq<Thread>, order: seq<nat>)
  {
    forall v: nat :: v in order <==> Visited(threads, v)
  }

  ghost predicate Below(order: seq<nat>) { forall v: nat :: v in order ==> v < MAX_NONCE }

  ghost predicate Tracked(digest: Digests, k: nat, w: World, order: seq<nat>)
    requires Eight(digest)
  {
    && Inv(digest, w) && |w.table| == TABLE_SIZE
    && AllDifferent(order) && Below(order) && Linked(w.threads, order)
    && Tenancy(digest, k, w.table[k % TABLE_SIZE], Found(w.threads), order)
  }

  lemma LookAct(digest: Digests, w: World, t: nat)
    requires Eight(digest) && Inv(digest, w) && t < |w.threads| && w.threads[t].at.Inner?
    ensures w.threads[t].at.x < 8 && w.threads[t].Position() < MAX_NONCE
    ensures var w', th := Act(digest, w, Advance(t)), w.threads[t];
            var nonce, b := th.Position(), BirthdayHash(digest, th.Position());
            && |w'.threads| == |w.threads| && w'.threads == w.threads[t := w'.threads[t]]
            && w'.table == (if b == 0 then w.table else StoreTable(w.table, b, nonce))
            && w'.threads[t].results == th.results + Reports(w.table, b, nonce)
            && w'.threads[t].visited == th.visited + [nonce]
  {
    var th := w.threads[t];
    assert ThreadOk(digest, th, t, |w.threads|);
    hide Owner, Increasing, BirthdayHash, Reports, Inv, Look;
    LookIs(digest, w.table, th, |w.threads|);
  }

  lemma FoundGrows(threads: seq<Thread>, t: nat, th: Thread, extra: seq<(nat, nat)>)
    requires t < |threads| && th.results == threads[t].results + extra
    ensures Found(threads[t := th]) == Found(threads) + set p | p in extra
  {
    var threads' := threads[t := th];
    forall p
      ensures p in Found(threads') <==> p in Found(threads) || p in extra
    {
      if p in Found(threads) {
        var j :| 0 <= j < |threads| && p in threads[j].results;
        assert p in threads'[j].results;
      } else if p in extra {
        assert p in threads'[t].results;
      }
    }
  }

  lemma LinkedGrows(threads: seq<Thread>, t: nat, th: Thread, order: seq<nat>, nonce: nat)
    requires t < |threads| && th.visited == threads[t].visited + [nonce] && Linked(threads, order)
    ensures Linked(threads[t := th], order + [nonce])
  {
    var threads' := threads[t := th];
    forall v: nat
      ensures Visited(threads', v) <==> Visited(threads, v) || v == nonce
    {
      if Visited(threads, v) {
        var j :| 0 <= j < |threads| && v in threads[j].visited;
        assert v in threads'[j].visited;
      } else if v == nonce {
        assert threads'[t].visited[|threads[t].visited|] == nonce;
      }
    }
  }

  lemma NonceNew(digest: Digests, w: World, t: nat)
    requires Eight(digest) && Inv(digest, w) && t < |w.threads| && w.threads[t].at.Inner?
    ensures !Visited(w.threads, w.threads[t].Position())
  {
    hide BirthdayHash, Increasing, Residue;
    var th, n := w.threads[t], |w.threads|;
    assert ThreadOk(digest, th, t, n);
    assert (th.i + th.at.x) / 8 == th.i / 8;
    forall j | 0 <= j < n
      ensures th.Position() !in w.threads[j].visited
    {
      assert ThreadOk(digest, w.threads[j], j, n);
    }
  }

  // What a look at a nonce of hash b does to the slot of hash k.
  lemma SlotAfter(table: seq<Slot>, k: nat, b: nat, nonce: nat)
    requires |table| == TABLE_SIZE
    ensures var slot, slot' := table[k % TABLE_SIZE], StoreTable(table, b, nonce)[k % TABLE_SIZE];
            && (b % TABLE_SIZE != k % TABLE_SIZE ==> slot' == slot)
            && (b % TABLE_SIZE == k % TABLE_SIZE ==> slot'.key == b)
            && (b == k ==> if slot.key == k then slot' == slot && StoreResult(table, b, nonce) == slot.nonce
                           else slot' == Slot(k, nonce) && StoreResult(table, b, nonce) == NOT_FOUND)
  {}

  lemma ReportsOther(digest: Digests, k: nat, w: World, nonce: nat)
    requires Eight(digest) && Inv(digest, w) && BirthdayHash(digest, nonce) != k
    ensures forall p :: p in Reports(w.table, BirthdayHash(digest, nonce), nonce) ==> !Mine(digest, k, p.0)
  {
    hide BirthdayHash, Owner;
    var b := BirthdayHash(digest, nonce);
    assert SlotOk(digest, w, w.table[b % |w.table|]);
  }

  lemma TenancyStep(digest: Digests, k: nat, w: World, order: seq<nat>, nonce: nat)
    requires Eight(digest) && k != 0 && Inv(digest, w) && |w.table| == TABLE_SIZE
    requires Tenancy(digest, k, w.table[k % TABLE_SIZE], Found(w.threads), order)
    ensures var b := BirthdayHash(digest, nonce);
            var table := if b == 0 then w.table else StoreTable(w.table, b, nonce);
            var pairs := Found(w.threads) + set p | p in Reports(w.table, b, nonce);
            Tenancy(digest, k, table[k % TABLE_SIZE], pairs, order + [nonce])
  {
    var b, slot, pairs := BirthdayHash(digest, nonce), w.table[k % TABLE_SIZE], Found(w.threads);
    var extra := set p | p in Reports(w.table, b, nonce);
    SlotAfter(w.table, k, b, nonce);
    assert SlotOk(digest, w, slot);
    assert Rival(digest, k, nonce) <==> b != 0 && b != k && b % TABLE_SIZE == k % TABLE_SIZE;
    assert Mine(digest, k, nonce) <==> b == k;
    if b != k {
      ReportsOther(digest, k, w, nonce);
      assert MorePairs(digest, k, pairs, pairs + extra);
    }
    hide BirthdayHash, Mine, Rival, Tenancy, SlotOk, StoreTable, StoreResult, MorePairs, Inv, Found;
    if b == k {
      if slot.key == k {
        assert extra == {(slot.nonce, nonce), (nonce, slot.nonce)};
        MineMeetsTenant(digest, k, slot, pairs, order, nonce);
      } else {
        assert pairs + extra == pairs;
        MineMovesIn(digest, k, slot, pairs, order, nonce);
      }
    } else if b != 0 && b % TABLE_SIZE == k % TABLE_SIZE {
      RivalComes(digest, k, slot, StoreTable(w.table, b, nonce)[k % TABLE_SIZE], pairs, pairs + extra, order, nonce);
    } else {
      StrangerComes(digest, k, slot, pairs, pairs + extra, order, nonce);
    }
  }

  lemma LookKeeps(digest: Digests, k: nat, w: World, order: seq<nat>, t: nat)
    requires Eight(digest) && k != 0 && Tracked(digest, k, w, order) && t < |w.threads| && w.threads[t].at.Inner?
    ensures Tracked(digest, k, Act(digest, w, Advance(t)), order + LookedAt(w, Advance(t)))
  {
    var w', th, nonce := Act(digest, w, Advance(t)), w.threads[t], w.threads[t].Position();
    ActKeepsInv(digest, w, Advance(t));
    LookAct(digest, w, t);
    hide Act, Inv, Tenancy, Found, BirthdayHash, Linked, StoreTable, Reports;
    assert LookedAt(w, Advance(t)) == [nonce];
    NonceNew(digest, w, t);
    LinkedAt(w.threads, order, nonce);
    OrderGrows(order, nonce);
    hide AllDifferent, Below;
    LinkedGrows(w.threads, t, w'.threads[t], order, nonce);
    FoundGrows(w.threads, t, w'.threads[t], Reports(w.table, BirthdayHash(digest, nonce), nonce));
    TenancyStep(digest, k, w, order, nonce);
  }

  lemma OrderGrows(order: seq<nat>, nonce: nat)
    requires AllDifferent(order) && Below(order) && nonce !in order && nonce < MAX_NONCE
    ensures AllDifferent(order + [nonce]) && Below(order + [nonce])
  {}

  lemma LinkedAt(threads: seq<Thread>, order: seq<nat>, v: nat)
    requires Linked(threads, order)
    ensures v in order <==> Visited(threads, v)
  {}

  lemma ActKeeps(digest: Digests, k: nat, w: World, order: seq<nat>, action: Action)
    requires Eight(digest) && k != 0 && Tracked(digest, k, w, order)
    ensures Tracked(digest, k, Act(digest, w, action), order + LookedAt(w, action))
  {
    if action.Advance? && action.t < |w.threads| && w.threads[action.t].at.Inner? {
      LookKeeps(digest, k, w, order, action.t);
    } else {
      var w' := Act(digest, w, action);
      assert order + LookedAt(w, action) == order;
      ActKeepsInv(digest, w, action);
      assert |w'.threads| == |w.threads| && w'.table == w.table;
      assert forall t :: 0 <= t < |w.threads| ==>
          w'.threads[t].results == w.threads[t].results && w'.threads[t].visited == w.threads[t].visited;
      hide Act, Inv, Tenancy;
      SameThreads(w.threads, w'.threads, order);
    }
  }

  lemma SameThreads(threads: seq<Thread>, threads': seq<Thread>, order: seq<nat>)
    requires |threads'| == |threads| && Linked(threads, order)
    requires forall t :: 0 <= t < |threads| ==>
               threads'[t].results == threads[t].results && threads'[t].visited == threads[t].visited
    ensures Found(threads') == Found(threads) && Linked(threads', order)
  {
    forall p
      ensures p in Found(threads') <==> p in Found(threads)
    {
      if p in Found(threads) {
        var t :| 0 <= t < |threads| && p in threads[t].results;
        assert p in threads'[t].results;
      }
    }
    forall v: nat
      ensures Visited(threads', v) <==> Visited(threads, v)
    {
      if Visited(threads, v) {
        var t :| 0 <= t < |threads| && v in threads[t].visited;
        assert v in threads'[t].visited;
      }
    }
  }

  lemma {:induction false} RunKeeps(digest: Digests, k: nat, w: World, order: seq<nat>, schedule: seq<Action>)
    requires Eight(digest) && k != 0 && |w.table| > 0 && Tracked(digest, k, w, order)
    ensures Tracked(digest, k, Run(digest, w, schedule), order + Order(digest, w, schedule))
    decreases |schedule|
  {
    hide Tracked, Act;
    if schedule == [] {
      assert order + Order(digest, w, schedule) == order;
    } else {
      var w', order' := Act(digest, w, schedule[0]), order + LookedAt(w, schedule[0]);
      ActKeeps(digest, k, w, order, schedule[0]);
      RunKeeps(digest, k, w', order', schedule[1..]);
      assert order' + Order(digest, w', schedule[1..]) == order + Order(digest, w, schedule);
    }
  }

  lemma StartTracked(digest: Digests, k: nat, n: nat)
    requires Eight(digest) && k != 0 && 0 < n <= 32
    ensures Tracked(digest, k, Start(n), [])
  {
    StartInv(digest, n);
    hide Inv;
    var w := Start(n);
    assert Found(w.threads) == {};
    assert Linked(w.threads, []);
  }

  // ----- What every run finds -----

  function Pairs(results: seq<(nat, nat)>): set<(nat, nat)> { set p | p in results }

  lemma {:induction false} InCollect(threads: seq<Thread>, t: nat, p: (nat, nat))
    requires t < |threads| && p in threads[t].results
    ensures p in Collect(threads)
  {
    var rest := threads[..|threads| - 1];
    if t < |rest| {
      InCollect(rest, t, p);
    }
  }

  lemma FoundCollected(threads: seq<Thread>)
    ensures Found(threads) == Pairs(Collect(threads))
  {
    hide Collect;
    forall p
      ensures p in Found(threads) <==> p in Collect(threads)
    {
      if p in Found(threads) {
        var t :| 0 <= t < |threads| && p in threads[t].results;
        InCollect(threads, t, p);
      }
      if p in Collect(threads) {
        var i :| 0 <= i < |Collect(threads)| && Collect(threads)[i] == p;
        var t, j := CollectIn(threads, i);
        assert p in threads[t].results;
      }
    }
  }

  function OrderOf(digest: Digests, n: nat, schedule: seq<Action>): seq<nat>
    requires Eight(digest)
  {
    Order(digest, Start(n), schedule)
  }

  function ResultsOf(digest: Digests, n: nat, schedule: seq<Action>): seq<(nat, nat)>
    requires Eight(digest)
  {
    Collect(Run(digest, Start(n), schedule).threads)
  }

  lemma EndTracked(digest: Digests, k: nat, n: nat, schedule: seq<Action>)
    requires Eight(digest) && k != 0 && 0 < n <= 32
    ensures Tracked(digest, k, Run(digest, Start(n), schedule), OrderOf(digest, n, schedule))
    ensures Found(Run(digest, Start(n), schedule).threads) == Pairs(ResultsOf(digest, n, schedule))
  {
    hide Tracked, Order, Run, Found, Pairs;
    StartTracked(digest, k, n);
    RunKeeps(digest, k, Start(n), [], schedule);
    assert [] + OrderOf(digest, n, schedule) == OrderOf(digest, n, schedule);
    FoundCollected(Run(digest, Start(n), schedule).threads);
  }

  // In every run, cancelled or not, and for each hash: the nonces looked at that have this hash are all
  // paired with one of them exactly when no other hash came for its slot between two of them.
  lemma FoundExactly(digest: Digests, k: nat, n: nat, schedule: seq<Action>)
    requires Eight(digest) && k != 0 && 0 < n <= 32
    ensures var order, pairs := OrderOf(digest, n, schedule), Pairs(ResultsOf(digest, n, schedule));
            && AllDifferent(order)
            && ((exists s: nat :: AllPaired(digest, k, order, pairs, s)) <==> Undisturbed(digest, k, order))
  {
    EndTracked(digest, k, n, schedule);
    var w, order := Run(digest, Start(n), schedule), OrderOf(digest, n, schedule);
    hide Run, OrderOf, ResultsOf, Found, Tenancy, Undisturbed, AllPaired, AllDifferent, Pairs;
    PairedExactly(digest, k, w.table[k % TABLE_SIZE], Found(w.threads), order);
  }

  ghost predicate Completed(digest: Digests, n: nat, schedule: seq<Action>)
    requires Eight(digest)
  {
    && (forall a :: a in schedule ==> a.Advance?)
    && forall t :: 0 <= t < n ==> Run(digest, Start(n), schedule).threads[t].at.Done?
  }

  // A completed search has looked at every nonce below 2^26, and at no other.
  lemma OrderComplete(digest: Digests, n: nat, schedule: seq<Action>, v: nat)
    requires Eight(digest) && 0 < n <= 32 && Completed(digest, n, schedule)
    ensures v in OrderOf(digest, n, schedule) <==> v < MAX_NONCE
  {
    EndTracked(digest, 1, n, schedule);
    if v < MAX_NONCE {
      NoncesPartitioned(digest, n, schedule, v);
      hide Order, Run, Inv, Tenancy, Found, Owner, Visited;
      var threads := Run(digest, Start(n), schedule).threads;
      assert Visited(threads, v) by { VisitedHere(threads, Owner(v, n), v); }
      LinkedAt(threads, OrderOf(digest, n, schedule), v);
    }
  }

  lemma VisitedHere(threads: seq<Thread>, t: nat, v: nat)
    requires t < |threads| && v in threads[t].visited
    ensures Visited(threads, v)
  {}

  // Every other nonce of hash k below 2^26 is reported together with s.
  ghost predicate Complete(digest: Digests, k: nat, results: seq<(nat, nat)>, s: nat)
    requires Eight(digest)
  {
    forall c: nat :: c < MAX_NONCE && BirthdayHash(digest, c) == k && c != s ==> (s, c) in results && (c, s) in results
  }

  // No other hash needs the slot of hash k.
  ghost predicate Alone(digest: Digests, k: nat)
    requires Eight(digest)
  {
    forall v: nat :: v < MAX_NONCE ==> !Rival(digest, k, v)
  }

  // So under every interleaving, a completed search reports all the nonces of a hash that has its slot
  // for itself.
  lemma SearchComplete(digest: Digests, k: nat, n: nat, schedule: seq<Action>)
    requires Eight(digest) && k != 0 && 0 < n <= 32 && Completed(digest, n, schedule) && Alone(digest, k)
    ensures exists s: nat :: Complete(digest, k, ResultsOf(digest, n, schedule), s)
  {
    var order, results := OrderOf(digest, n, schedule), ResultsOf(digest, n, schedule);
    FoundExactly(digest, k, n, schedule);
    forall v: nat
      ensures v in order <==> v < MAX_NONCE
    {
      OrderComplete(digest, n, schedule, v);
    }
    hide Order, OrderOf, ResultsOf, Rival, Completed, BirthdayHash;
    assert Undisturbed(digest, k, order) by {
      assert forall q :: 0 <= q < |order| ==> order[q] in order;
    }
    var s: nat :| AllPaired(digest, k, order, Pairs(results), s);
    assert Complete(digest, k, results, s);
  }

  // ----- One thread -----

  lemma {:induction false} OneThreadOrder(digest: Digests, w: World, schedule: seq<Action>)
    requires Eight(digest) && Inv(digest, w) && |w.threads| == 1 && |w.table| > 0
    ensures Run(digest, w, schedule).threads[0].visited == w.threads[0].visited + Order(digest, w, schedule)
    decreases |schedule|
  {
    hide Run, Order, Act, Inv, LookedAt;
    if schedule == [] {
      NoAction(digest, w);
      assert w.threads[0].visited + [] == w.threads[0].visited;
    } else {
      var w' := Act(digest, w, schedule[0]);
      var visited, look, rest := w.threads[0].visited, LookedAt(w, schedule[0]), Order(digest, w', schedule[1..]);
      FirstAction(digest, w, schedule);
      ActKeepsInv(digest, w, schedule[0]);
      OneLook(digest, w, schedule[0]);
      OneThreadOrder(digest, w', schedule[1..]);
      assert visited + look + rest == visited + (look + rest);
    }
  }

  lemma NoAction(digest: Digests, w: World)
    requires Eight(digest) && |w.table| > 0
    ensures Run(digest, w, []) == w && Order(digest, w, []) == []
  {
    hide Act, LookedAt;
  }

  lemma FirstAction(digest: Digests, w: World, schedule: seq<Action>)
    requires Eight(digest) && |w.table| > 0 && schedule != []
    ensures var w', rest := Act(digest, w, schedule[0]), schedule[1..];
            && Run(digest, w, schedule) == Run(digest, w', rest)
            && Order(digest, w, schedule) == LookedAt(w, schedule[0]) + Order(digest, w', rest)
  {
    hide Act, LookedAt;
  }

  lemma OneLook(digest: Digests, w: World, action: Action)
    requires Eight(digest) && Inv(digest, w) && |w.threads| == 1
    ensures Act(digest, w, action).threads[0].visited == w.threads[0].visited + LookedAt(w, action)
  {
    if action.Advance? && action.t < 1 && w.threads[0].at.Inner? {
      LookAct(digest, w, 0);
    } else {
      hide Inv;
      assert w.threads[0].visited + [] == w.threads[0].visited;
    }
  }

  // Rivals between two nonces of hash k, in the order of the nonces themselves.
  ghost predicate Interrupted(digest: Digests, k: nat)
    requires Eight(digest)
  {
    exists a: nat, d: nat, c: nat ::
      a < d < c < MAX_NONCE && Mine(digest, k, a) && Mine(digest, k, c) && Rival(digest, k, d)
  }

  // With one thread, whether all nonces of a hash are paired can be told from the hashes alone.
  lemma OneThreadExact(digest: Digests, k: nat, schedule: seq<Action>)
    requires Eight(digest) && k != 0 && Completed(digest, 1, schedule)
    ensures (exists s: nat :: Complete(digest, k, ResultsOf(digest, 1, schedule), s)) <==> !Interrupted(digest, k)
  {
    var order, results := OrderOf(digest, 1, schedule), ResultsOf(digest, 1, schedule);
    FoundExactly(digest, k, 1, schedule);
    forall v: nat
      ensures v in order <==> v < MAX_NONCE
    {
      OrderComplete(digest, 1, schedule, v);
    }
    OneThreadIncreasing(digest, schedule);
    hide OrderOf, ResultsOf, Completed, Undisturbed, Interrupted;
    InterruptedExactly(digest, k, order);
    hide Increasing, AllDifferent;
    PairedMeansComplete(digest, k, order, results);
  }

  lemma PairedMeansComplete(digest: Digests, k: nat, order: seq<nat>, results: seq<(nat, nat)>)
    requires Eight(digest) && forall v: nat :: v in order <==> v < MAX_NONCE
    ensures forall s: nat :: AllPaired(digest, k, order, Pairs(results), s) <==> Complete(digest, k, results, s)
  {
    hide BirthdayHash;
  }

  lemma OneThreadIncreasing(digest: Digests, schedule: seq<Action>)
    requires Eight(digest)
    ensures Increasing(OrderOf(digest, 1, schedule))
  {
    StartInv(digest, 1);
    RunKeepsInv(digest, Start(1), schedule);
    OneThreadOrder(digest, Start(1), schedule);
    var w := Run(digest, Start(1), schedule);
    hide Run, Order;
    assert ThreadOk(digest, w.threads[0], 0, 1);
    assert [] + OrderOf(digest, 1, schedule) == OrderOf(digest, 1, schedule);
  }

  lemma InterruptedExactly(digest: Digests, k: nat, order: seq<nat>)
    requires Eight(digest) && Increasing(order)
    requires forall v: nat :: v in order <==> v < MAX_NONCE
    ensures Undisturbed(digest, k, order) <==> !Interrupted(digest, k)
  {
    hide Mine, Rival, Increasing, Undisturbed;
    if Interrupted(digest, k) {
      var a: nat, d: nat, c: nat :|
        a < d < c < MAX_NONCE && Mine(digest, k, a) && Mine(digest, k, c) && Rival(digest, k, d);
      assert a in order && d in order && c in order;
      Disturbs(digest, k, order, a, d, c);
    } else {
      InOrder(digest, k, order);
    }
  }

  lemma Disturbs(digest: Digests, k: nat, order: seq<nat>, a: nat, d: nat, c: nat)
    requires Eight(digest) && Increasing(order) && a < d < c && a in order && d in order && c in order
    requires Mine(digest, k, a) && Mine(digest, k, c) && Rival(digest, k, d)
    ensures !Undisturbed(digest, k, order)
  {
    hide Mine, Rival;
    var p :| 0 <= p < |order| && order[p] == a;
    var q :| 0 <= q < |order| && order[q] == d;
    var r :| 0 <= r < |order| && order[r] == c;
    assert p < q < r;
  }

  lemma InOrder(digest: Digests, k: nat, order: seq<nat>)
    requires Eight(digest) && Increasing(order) && !Interrupted(digest, k) && Below(order)
    ensures Undisturbed(digest, k, order)
  {
    hide Mine, Rival;
    forall p, q, r | 0 <= p < q < r < |order| && Mine(digest, k, order[p]) && Mine(digest, k, order[r])
      ensures !Rival(digest, k, order[q])
    {
      assert order[r] in order && order[p] < order[q] < order[r];
    }
  }
}
