/** Mail/MailboxModel.cpp: the list of headers, the map from digests, the random-access vector and the
    unread counter of one mail folder; and the batch delete of Mail/Mailbox.cpp. */
module Mailbox {
  type Digest = nat

  datatype Header = Header(digest: Digest, read: bool, replied: bool, forwarded: bool)

  // What the four views and the database say: row r is rows[r], and the map holds it under keys[r].
  datatype Box = Box(rows: seq<Header>, keys: seq<Digest>, unread: int, db: map<Digest, Header>)

  function CountUnread(rows: seq<Header>): nat
  {
    if rows == [] then 0 else CountUnread(rows[..|rows| - 1]) + if rows[|rows| - 1].read then 0 else 1
  }

  function Without<T>(s: seq<T>, r: nat): seq<T>
    requires r < |s|
  {
    s[..r] + s[r + 1..]
  }

  function One(h: Header): int { if h.read then 0 else 1 }

  // ----- What each operation does -----

  // addMailHeader: nothing happens when the map has the digest already or the database has no data.
  function Add(b: Box, h: Header): Box
  {
    if h.digest in b.keys || h.digest !in b.db then b
    else b.(rows := b.rows + [h], keys := b.keys + [h.digest], unread := b.unread + One(h))
  }

  // removeRow
  function Remove(b: Box, r: nat): Box
    requires r < |b.rows| == |b.keys|
  {
    b.(rows := Without(b.rows, r), keys := Without(b.keys, r), unread := b.unread - One(b.rows[r]),
       db := b.db - {b.rows[r].digest})
  }

  // The four mark functions: a header with new flags is written to the row and the database.
  function Mark(b: Box, r: nat, h: Header): Box
    requires r < |b.rows|
  {
    if h == b.rows[r] then b
    else b.(rows := b.rows[r := h], unread := b.unread + One(h) - One(b.rows[r]), db := b.db[h.digest := h])
  }

  function Answered(h: Header, replied: bool, forwarded: bool): Header
  {
    h.(replied := h.replied || replied, forwarded := h.forwarded || forwarded)
  }

  // The first row with a digest, or |rows|.
  function RowOf(rows: seq<Header>, d: Digest): (r: nat)
    ensures r <= |rows|
    ensures r < |rows| ==> rows[r].digest == d
    ensures forall k :: 0 <= k < r ==> rows[k].digest != d
  {
    if rows == [] then 0 else if rows[0].digest == d then 0 else 1 + RowOf(rows[1..], d)
  }

  // replaceMessage: the header is rewritten in its place; the map keeps the old key.
  function Replace(b: Box, old_: Header, h: Header): Box
  {
    if Saves(b, old_, h) then
      b.(rows := b.rows[RowOf(b.rows, old_.digest) := h], unread := b.unread + if old_.read then 1 else 0)
    else if RowOf(b.rows, old_.digest) < |b.rows| then b
    else Add(b, h)
  }

  // The message to overwrite is there, and fillMailHeader takes the new one.
  predicate Saves(b: Box, old_: Header, h: Header)
  {
    RowOf(b.rows, old_.digest) < |b.rows| && h.digest !in b.keys && h.digest in b.db
  }

  // ----- The views agree -----

  predicate Distinct<T(==)>(s: seq<T>) { forall j, k :: 0 <= j < k < |s| ==> s[j] != s[k] }

  // List, vector and map hold the same rows.
  predicate Paired(b: Box) { |b.keys| == |b.rows| && Distinct(b.keys) }

  // By how much the counter is off.
  function Drift(b: Box): int { b.unread - CountUnread(b.rows) }

  predicate Inv(b: Box) { Paired(b) && Drift(b) == 0 }

  predicate RowsDistinct(rows: seq<Header>) { forall j, k :: 0 <= j < k < |rows| ==> rows[j].digest != rows[k].digest }

  // Each row is in the map under its own digest.
  predicate Keyed(b: Box)
  {
    |b.keys| == |b.rows| && forall r :: 0 <= r < |b.rows| ==> b.keys[r] == b.rows[r].digest
  }

  // The database has each row's header.
  predicate Stored(b: Box)
  {
    forall r :: 0 <= r < |b.rows| ==> b.rows[r].digest in b.db && b.db[b.rows[r].digest] == b.rows[r]
  }

  lemma {:induction false} CountAppend(a: seq<Header>, b: seq<Header>)
    ensures CountUnread(a + b) == CountUnread(a) + CountUnread(b)
    decreases |b|
  {
    if b == [] {
      assert a + b == a;
    } else {
      CountAppend(a, b[..|b| - 1]);
      assert (a + b)[..|a + b| - 1] == a + b[..|b| - 1];
    }
  }

  lemma CountOne(h: Header)
    ensures CountUnread([h]) == One(h)
  {
    assert [h][..0] == [];
  }

  lemma SplitAround<T>(s: seq<T>, r: nat)
    requires r < |s|
    ensures s == s[..r] + ([s[r]] + s[r + 1..])
  {}

  lemma CountSplit(rows: seq<Header>, r: nat)
    requires r < |rows|
    ensures CountUnread(rows) == CountUnread(rows[..r]) + One(rows[r]) + CountUnread(rows[r + 1..])
  {
    hide CountUnread;
    SplitAround(rows, r);
    CountAppend(rows[..r], [rows[r]] + rows[r + 1..]);
    CountAppend([rows[r]], rows[r + 1..]);
    CountOne(rows[r]);
  }

  lemma CountUpdate(rows: seq<Header>, r: nat, h: Header)
    requires r < |rows|
    ensures CountUnread(rows[r := h]) == CountUnread(rows) - One(rows[r]) + One(h)
  {
    CountSplit(rows, r);
    CountSplit(rows[r := h], r);
    assert rows[r := h][..r] == rows[..r] && rows[r := h][r + 1..] == rows[r + 1..];
  }

  lemma CountWithout(rows: seq<Header>, r: nat)
    requires r < |rows|
    ensures CountUnread(Without(rows, r)) == CountUnread(rows) - One(rows[r])
  {
    CountSplit(rows, r);
    CountAppend(rows[..r], rows[r + 1..]);
  }

  lemma AddKeeps(b: Box, h: Header)
    requires Paired(b)
    ensures Paired(Add(b, h)) && Drift(Add(b, h)) == Drift(b)
    ensures Keyed(Add(b, h)) <==> Keyed(b)
    ensures Stored(b) && (h.digest in b.db ==> b.db[h.digest] == h) ==> Stored(Add(b, h))
  {
    CountAppend(b.rows, [h]);
    CountOne(h);
    var b' := Add(b, h);
    assert forall r :: 0 <= r < |b.rows| ==> b'.rows[r] == b.rows[r] && b'.keys[r] == b.keys[r];
  }

  lemma RemoveKeeps(b: Box, r: nat)
    requires Paired(b) && r < |b.rows|
    ensures Paired(Remove(b, r)) && Drift(Remove(b, r)) == Drift(b)
    ensures Keyed(b) ==> Keyed(Remove(b, r))
    ensures Keyed(b) && Stored(b) ==> Stored(Remove(b, r))
  {
    hide Distinct, Keyed, Stored;
    WithoutDistinct(b.keys, r);
    assert Drift(Remove(b, r)) == Drift(b) by {
      hide Without;
      CountWithout(b.rows, r);
    }
    if Keyed(b) {
      WithoutKeyed(b, r);
      if Stored(b) {
        WithoutStored(b, r);
      }
    }
  }

  lemma WithoutDistinct<T>(s: seq<T>, r: nat)
    requires Distinct(s) && r < |s|
    ensures Distinct(Without(s, r))
  {
    assert forall k :: 0 <= k < |s| - 1 ==> Without(s, r)[k] == s[if k < r then k else k + 1];
  }

  lemma WithoutKeyed(b: Box, r: nat)
    requires Keyed(b) && r < |b.rows|
    ensures Keyed(Remove(b, r))
  {
    forall k | 0 <= k < |b.rows| - 1
      ensures Remove(b, r).keys[k] == Remove(b, r).rows[k].digest
    {
      assert b.keys[if k < r then k else k + 1] == b.rows[if k < r then k else k + 1].digest;
    }
  }

  lemma WithoutStored(b: Box, r: nat)
    requires Keyed(b) && Distinct(b.keys) && Stored(b) && r < |b.rows|
    ensures Stored(Remove(b, r))
  {
    forall k | 0 <= k < |b.rows| - 1
      ensures var h := Remove(b, r).rows[k]; h.digest in Remove(b, r).db && Remove(b, r).db[h.digest] == h
    {
      var j := if k < r then k else k + 1;
      assert Remove(b, r).rows[k] == b.rows[j] && b.keys[j] == b.rows[j].digest && b.keys[j] != b.keys[r];
    }
  }

  lemma MarkKeeps(b: Box, r: nat, h: Header)
    requires Paired(b) && r < |b.rows| && h.digest == b.rows[r].digest
    ensures Paired(Mark(b, r, h)) && Drift(Mark(b, r, h)) == Drift(b)
    ensures Keyed(b) ==> Keyed(Mark(b, r, h))
    ensures Keyed(b) && Stored(b) ==> Stored(Mark(b, r, h))
  {
    CountUpdate(b.rows, r, h);
  }

  // How far a replacement throws the counter off: the caller's flag decides whether it goes up, the
  // replaced row's and the new message's flags whether it should.
  function ReplaceDrift(b: Box, old_: Header, h: Header): int
  {
    if Saves(b, old_, h) then (1 - One(old_)) + One(b.rows[RowOf(b.rows, old_.digest)]) - One(h) else 0
  }

  lemma ReplaceKeeps(b: Box, old_: Header, h: Header)
    requires Paired(b)
    ensures Paired(Replace(b, old_, h)) && Drift(Replace(b, old_, h)) == Drift(b) + ReplaceDrift(b, old_, h)
    ensures Keyed(Replace(b, old_, h)) <==> Keyed(b) && !Saves(b, old_, h)
  {
    if Saves(b, old_, h) {
      var r := RowOf(b.rows, old_.digest);
      CountUpdate(b.rows, r, h);
      assert Replace(b, old_, h).rows[r] == h && b.keys[r] in b.keys;
    } else {
      AddKeeps(b, h);
    }
  }

  // ----- Runs -----

  // OpStore is a message arriving in the database, before the folder is told.
  datatype Op =
    | OpStore(h: Header)
    | OpAdd(h: Header)
    | OpRemove(r: nat)
    | OpMark(r: nat, read: bool, replied: bool, forwarded: bool)
    | OpReplace(old_: Header, h: Header)

  function Do(b: Box, op: Op): Box
    requires |b.keys| == |b.rows|
  {
    match op
    case OpStore(h) => b.(db := b.db[h.digest := h])
    case OpAdd(h) => Add(b, h)
    case OpRemove(r) => if r < |b.rows| then Remove(b, r) else b
    case OpMark(r, read, replied, forwarded) =>
      if r < |b.rows| then Mark(b, r, Header(b.rows[r].digest, read, replied, forwarded)) else b
    case OpReplace(old_, h) => Replace(b, old_, h)
  }

  predicate SavesOver(b: Box, op: Op) { op.OpReplace? && Saves(b, op.old_, op.h) }

  function OpDrift(b: Box, op: Op): int { if op.OpReplace? then ReplaceDrift(b, op.old_, op.h) else 0 }

  lemma DoKeeps(b: Box, op: Op)
    requires Paired(b)
    ensures Paired(Do(b, op)) && Drift(Do(b, op)) == Drift(b) + OpDrift(b, op)
    ensures Keyed(b) ==> (Keyed(Do(b, op)) <==> !SavesOver(b, op))
  {
    hide Saves, CountUnread, Distinct;
    match op
    case OpStore(_) =>
    case OpAdd(h) => AddKeeps(b, h);
    case OpRemove(r) => if r < |b.rows| { RemoveKeeps(b, r); }
    case OpMark(r, read, replied, forwarded) =>
      if r < |b.rows| { MarkKeeps(b, r, Header(b.rows[r].digest, read, replied, forwarded)); }
    case OpReplace(old_, h) => ReplaceKeeps(b, old_, h);
  }

  // A message is taken whose digest another row already has.
  predicate Clash(b: Box, op: Op)
  {
    match op
    case OpAdd(h) => AddClash(b, h)
    case OpReplace(old_, h) =>
      var r := RowOf(b.rows, old_.digest);
      if Saves(b, old_, h) then HasDigest(b.rows[..r], h.digest) || HasDigest(b.rows[r + 1..], h.digest)
      else r == |b.rows| && AddClash(b, h)
    case _ => false
  }

  predicate AddClash(b: Box, h: Header) { h.digest !in b.keys && h.digest in b.db && HasDigest(b.rows, h.digest) }

  predicate HasDigest(rows: seq<Header>, d: Digest) { RowOf(rows, d) < |rows| }

  lemma DistinctAppend(rows: seq<Header>, h: Header)
    requires RowsDistinct(rows)
    ensures RowsDistinct(rows + [h]) <==> !HasDigest(rows, h.digest)
  {
    var r, all := RowOf(rows, h.digest), rows + [h];
    assert all[|rows|] == h && forall k :: 0 <= k < |rows| ==> all[k] == rows[k];
    if r < |rows| {
      assert all[r].digest == all[|rows|].digest;
    }
  }

  lemma DistinctUpdate(rows: seq<Header>, r: nat, h: Header)
    requires RowsDistinct(rows) && r < |rows|
    ensures RowsDistinct(rows[r := h]) <==> !HasDigest(rows[..r], h.digest) && !HasDigest(rows[r + 1..], h.digest)
  {
    var all, before, after := rows[r := h], rows[..r], rows[r + 1..];
    assert forall k :: 0 <= k < |after| ==> after[k] == all[r + 1 + k];
    assert forall k :: r < k < |rows| ==> all[k] == after[k - (r + 1)];
    assert forall k :: 0 <= k < r ==> all[k] == before[k];
    var j, k := RowOf(before, h.digest), RowOf(after, h.digest);
    assert j < |before| ==> all[j].digest == all[r].digest;
    assert k < |after| ==> all[r].digest == all[r + 1 + k].digest;
  }

  // The row digests stay distinct exactly when the operation takes no digest that another row has.
  lemma DoDistinct(b: Box, op: Op)
    requires Paired(b) && RowsDistinct(b.rows)
    ensures RowsDistinct(Do(b, op).rows) <==> !Clash(b, op)
  {
    match op
    case OpStore(_) =>
    case OpAdd(h) =>
      DistinctAppend(b.rows, h);
      hide RowsDistinct, HasDigest, Distinct;
    case OpRemove(_) =>
    case OpMark(_, _, _, _) =>
    case OpReplace(old_, h) =>
      DistinctAppend(b.rows, h);
      if RowOf(b.rows, old_.digest) < |b.rows| { DistinctUpdate(b.rows, RowOf(b.rows, old_.digest), h); }
      hide RowsDistinct, HasDigest, Distinct;
  }

  ghost function DoAll(b: Box, ops: seq<Op>): (b': Box)
    requires Paired(b)
    ensures Paired(b')
    decreases |ops|
  {
    if ops == [] then b
    else
      DoKeeps(b, ops[0]);
      DoAll(Do(b, ops[0]), ops[1..])
  }

  ghost predicate NoClash(b: Box, ops: seq<Op>)
    requires Paired(b)
    decreases |ops|
  {
    DoKeepsAll();
    ops == [] || (!Clash(b, ops[0]) && NoClash(Do(b, ops[0]), ops[1..]))
  }

  ghost predicate NoneSaved(b: Box, ops: seq<Op>)
    requires Paired(b)
    decreases |ops|
  {
    DoKeepsAll();
    ops == [] || (!SavesOver(b, ops[0]) && NoneSaved(Do(b, ops[0]), ops[1..]))
  }

  ghost function TotalDrift(b: Box, ops: seq<Op>): int
    requires Paired(b)
    decreases |ops|
  {
    DoKeepsAll();
    if ops == [] then 0 else OpDrift(b, ops[0]) + TotalDrift(Do(b, ops[0]), ops[1..])
  }

  lemma DoKeepsAll()
    ensures forall b, op :: Paired(b) ==> Paired(Do(b, op))
  {
    forall b, op | Paired(b)
      ensures Paired(Do(b, op))
    {
      DoKeeps(b, op);
    }
  }

  lemma {:induction false} RunKeeps(b: Box, ops: seq<Op>)
    requires Paired(b)
    ensures Drift(DoAll(b, ops)) == Drift(b) + TotalDrift(b, ops)
    ensures RowsDistinct(b.rows) && NoClash(b, ops) ==> RowsDistinct(DoAll(b, ops).rows)
    ensures Keyed(b) && NoneSaved(b, ops) ==> Keyed(DoAll(b, ops))
    decreases |ops|
  {
    if ops != [] {
      DoKeeps(b, ops[0]);
      if RowsDistinct(b.rows) { DoDistinct(b, ops[0]); }
      hide Do, RowsDistinct, Clash, SavesOver, Keyed, Drift, OpDrift, Paired;
      RunKeeps(Do(b, ops[0]), ops[1..]);
    }
  }

  // findModelIndex(digest): through the map to a header, then the first row with that header's digest.
  function FindRow(b: Box, d: Digest): (r: int)
    requires |b.keys| == |b.rows|
  {
    if d in b.keys then
      var k := KeyAt(b.keys, d);
      RowOf(b.rows, b.rows[k].digest)
    else -1
  }

  function KeyAt(keys: seq<Digest>, d: Digest): (k: nat)
    requires d in keys
    ensures k < |keys| && keys[k] == d
  {
    if keys[0] == d then 0 else 1 + KeyAt(keys[1..], d)
  }

  // The lookup finds the row that the map holds under the digest, or none.
  lemma FindsKey(b: Box, d: Digest)
    requires Paired(b) && RowsDistinct(b.rows)
    ensures FindRow(b, d) == if d in b.keys then KeyAt(b.keys, d) else -1
    ensures forall r :: 0 <= r < |b.rows| ==> (FindRow(b, d) == r <==> b.keys[r] == d)
  {
    if d in b.keys {
      var k := KeyAt(b.keys, d);
      var r := RowOf(b.rows, b.rows[k].digest);
      assert r == k;
      assert forall j :: 0 <= j < |b.keys| && j != k ==> b.keys[j] != d;
    }
  }

  // Any run of adding, removing, marking and replacing, from an empty folder and whatever its database,
  // as long as no message is taken with a digest that another row has: list, vector and map hold the
  // same rows, the digests are distinct, the counter is right exactly when the replacements' flags
  // balance, and the lookup finds a row by its digest exactly when the map holds it under this digest.
  lemma FolderViews(db: map<Digest, Header>, ops: seq<Op>)
    requires NoClash(Box([], [], 0, db), ops)
    ensures var b := DoAll(Box([], [], 0, db), ops);
            && Paired(b) && RowsDistinct(b.rows)
            && (b.unread == CountUnread(b.rows) <==> TotalDrift(Box([], [], 0, db), ops) == 0)
            && forall r :: 0 <= r < |b.rows| ==>
                 (FindRow(b, b.rows[r].digest) == r <==> b.keys[r] == b.rows[r].digest)
  {
    var b := DoAll(Box([], [], 0, db), ops);
    RunKeeps(Box([], [], 0, db), ops);
    hide DoAll, TotalDrift, NoClash;
    forall r | 0 <= r < |b.rows|
      ensures FindRow(b, b.rows[r].digest) == r <==> b.keys[r] == b.rows[r].digest
    {
      FindsKey(b, b.rows[r].digest);
    }
  }

  // Where no message was replaced in place nothing can clash, and the lookup by digest answers the one
  // row that has the digest, or that there is none.
  lemma ViewsAgree(db: map<Digest, Header>, ops: seq<Op>, d: Digest)
    requires NoneSaved(Box([], [], 0, db), ops)
    ensures var b := DoAll(Box([], [], 0, db), ops);
            && b.unread == CountUnread(b.rows) && RowsDistinct(b.rows)
            && if exists r :: 0 <= r < |b.rows| && b.rows[r].digest == d
               then 0 <= FindRow(b, d) < |b.rows| && b.rows[FindRow(b, d)].digest == d
               else FindRow(b, d) == -1
  {
    var b := DoAll(Box([], [], 0, db), ops);
    RunKeeps(Box([], [], 0, db), ops);
    NoDrift(Box([], [], 0, db), ops);
    hide DoAll, TotalDrift, NoneSaved;
    assert forall j, k :: 0 <= j < k < |b.rows| ==> b.keys[j] != b.keys[k];
    assert d in b.keys ==> b.rows[KeyAt(b.keys, d)].digest == d;
    if r :| 0 <= r < |b.rows| && b.rows[r].digest == d {
      assert b.keys[r] == d;
    }
  }

  lemma {:induction false} NoDrift(b: Box, ops: seq<Op>)
    requires Paired(b) && NoneSaved(b, ops)
    ensures TotalDrift(b, ops) == 0
    decreases |ops|
  {
    if ops != [] {
      DoKeeps(b, ops[0]);
      assert OpDrift(b, ops[0]) == 0;
      hide Do, OpDrift, SavesOver, Paired;
      NoDrift(Do(b, ops[0]), ops[1..]);
    }
  }

  // ----- replaceMessage -----

  // After a replacement the counter is right exactly when the replaced row's flag, the flag the
  // caller passed and the new flag add up.
  lemma ReplaceCounts(b: Box, old_: Header, h: Header)
    requires Inv(b) && Saves(b, old_, h)
    ensures var r := RowOf(b.rows, old_.digest);
            && Replace(b, old_, h).rows == b.rows[r := h] && Replace(b, old_, h).keys == b.keys
            && (Inv(Replace(b, old_, h)) <==> One(b.rows[r]) + (1 - One(old_)) == One(h))
  {
    ReplaceKeeps(b, old_, h);
  }

  // In the intended use (the flag passed is the row's flag) that is: when the new message is unread.
  lemma ReplaceCountsUnread(b: Box, old_: Header, h: Header)
    requires Inv(b) && Saves(b, old_, h)
    requires b.rows[RowOf(b.rows, old_.digest)].read == old_.read
    ensures Inv(Replace(b, old_, h)) <==> !h.read
  {
    ReplaceCounts(b, old_, h);
  }

  // Every replacement of the run passes the replaced row's flag, and an unread message.
  ghost predicate Intended(b: Box, ops: seq<Op>)
    requires Paired(b)
    decreases |ops|
  {
    DoKeepsAll();
    || ops == []
    || ((SavesOver(b, ops[0]) ==>
           !ops[0].h.read && b.rows[RowOf(b.rows, ops[0].old_.digest)].read == ops[0].old_.read)
        && Intended(Do(b, ops[0]), ops[1..]))
  }

  // So over every run of intended uses the counter is right, however often a draft is saved.
  lemma {:induction false} IntendedCounts(b: Box, ops: seq<Op>)
    requires Inv(b) && Intended(b, ops)
    ensures Inv(DoAll(b, ops))
    decreases |ops|
  {
    if ops != [] {
      DoKeeps(b, ops[0]);
      assert OpDrift(b, ops[0]) == 0;
      assert Inv(Do(b, ops[0]));
      hide Do, OpDrift, SavesOver, Inv;
      IntendedCounts(Do(b, ops[0]), ops[1..]);
    }
  }

  // The map is not told of a replacement, the first or a later one: the new message is not found by its
  // digest, and the key under which its row was added finds it.
  lemma ReplaceLosesKey(b: Box, old_: Header, h: Header)
    requires Paired(b) && RowsDistinct(b.rows) && Saves(b, old_, h) && !Clash(b, OpReplace(old_, h))
    ensures var b', r := Replace(b, old_, h), RowOf(b.rows, old_.digest);
            && b'.rows[r] == h && RowsDistinct(b'.rows)
            && FindRow(b', h.digest) == -1 && FindRow(b', b.keys[r]) == r
            && (FindRow(b', old_.digest) == r <==> b.keys[r] == old_.digest)
  {
    var b', r := Replace(b, old_, h), RowOf(b.rows, old_.digest);
    ReplaceKeeps(b, old_, h);
    DoDistinct(b, OpReplace(old_, h));
    FindsKey(b', h.digest);
    FindsKey(b', b.keys[r]);
    FindsKey(b', old_.digest);
  }

  // Whether the map holds every row under its digest after a replacement: exactly when it did before
  // and no row was rewritten.
  lemma ReplaceKeyed(b: Box, old_: Header, h: Header)
    requires Paired(b)
    ensures Keyed(Replace(b, old_, h)) <==> Keyed(b) && !Saves(b, old_, h)
  {
    ReplaceKeeps(b, old_, h);
  }

  // So the duplicate check lets the same message in a second time exactly when it replaced another.
  lemma ReplaceThenDuplicate(b: Box, old_: Header, h: Header)
    requires Paired(b) && RowsDistinct(b.rows) && !Clash(b, OpReplace(old_, h))
    ensures !RowsDistinct(Add(Replace(b, old_, h), h).rows) <==> Saves(b, old_, h)
  {
    var b', r := Replace(b, old_, h), RowOf(b.rows, old_.digest);
    ReplaceKeeps(b, old_, h);
    DoDistinct(b, OpReplace(old_, h));
    DoDistinct(b', OpAdd(h));
    if Saves(b, old_, h) {
      assert b'.rows[r].digest == h.digest;
    } else {
      assert r == |b.rows| && Add(b, h) != b ==> Add(b, h).keys[|b.rows|] == h.digest;
    }
  }

  // ----- removeRows -----

  // The loop of removeRows: row + k is removed in turn k, counted in what is left by then.
  function RemoveLoop<T>(s: seq<T>, row: nat, count: nat): (r: seq<T>)
    requires count > 0 ==> row + 2 * (count - 1) < |s|
    ensures |r| == |s| - count
  {
    if count == 0 then s else Without(RemoveLoop(s, row, count - 1), row + count - 1)
  }

  // removeRows on the whole folder.
  function RemoveAll(b: Box, row: nat, count: nat): (b': Box)
    requires |b.rows| == |b.keys| && (count > 0 ==> row + 2 * (count - 1) < |b.rows|)
    ensures |b'.rows| == |b'.keys| == |b.rows| - count
  {
    if count == 0 then b else Remove(RemoveAll(b, row, count - 1), row + count - 1)
  }

  // k rows of the loop are removed.
  ghost predicate After(b: Box, row: nat, k: nat, now: Box)
  {
    && |b.rows| == |b.keys| && (k > 0 ==> row + 2 * (k - 1) < |b.rows|)
    && now == RemoveAll(b, row, k)
  }

  lemma NoneRemoved(b: Box, row: nat)
    requires |b.rows| == |b.keys|
    ensures After(b, row, 0, b)
  {}

  lemma OneRowMore(b: Box, row: nat, k: nat, now: Box)
    requires After(b, row, k, now) && row + 2 * k < |b.rows|
    ensures |now.rows| == |now.keys| == |b.rows| - k && After(b, row, k + 1, Remove(now, row + k))
  {}

  lemma AllRemoved(b: Box, row: nat, count: nat, now: Box)
    requires After(b, row, count, now)
    requires |b.rows| == |b.keys| && (count > 0 ==> row + 2 * (count - 1) < |b.rows|)
    ensures now == RemoveAll(b, row, count)
  {}

  lemma {:induction false} RemoveAllRows(b: Box, row: nat, count: nat)
    requires |b.rows| == |b.keys| && (count > 0 ==> row + 2 * (count - 1) < |b.rows|)
    ensures RemoveAll(b, row, count).rows == RemoveLoop(b.rows, row, count)
    ensures RemoveAll(b, row, count).keys == RemoveLoop(b.keys, row, count)
    ensures count == 1 ==> RemoveAll(b, row, count) == Remove(b, row)
  {
    if count > 0 {
      RemoveAllRows(b, row, count - 1);
    }
  }

  lemma {:induction false} RemoveLoopHead<T>(s: seq<T>, row: nat, count: nat)
    requires count > 0 && row + 2 * (count - 1) < |s|
    ensures RemoveLoop(s, row, count)[..row] == s[..row]
    ensures row + 1 < |s| ==> RemoveLoop(s, row, count)[row] == s[row + 1]
  {
    if count > 1 {
      RemoveLoopHead(s, row, count - 1);
    }
  }

  // It removes the rows it was asked to remove exactly when that is at most one row.
  lemma RemoveLoopIsRange<T>(s: seq<T>, row: nat, count: nat)
    requires count > 0 ==> row + 2 * (count - 1) < |s|
    requires row <= |s| && forall j, k :: 0 <= j < k < |s| ==> s[j] != s[k]
    ensures RemoveLoop(s, row, count) == s[..row] + s[row + count..] <==> count <= 1
  {
    if count > 1 {
      RemoveLoopHead(s, row, count);
      assert (s[..row] + s[row + count..])[row] == s[row + count];
    }
  }

  // ----- Batch delete -----

  // The rows that are not selected, in their order.
  function Keep<T>(s: seq<T>, sel: set<nat>): seq<T>
  {
    if s == [] then [] else Keep(s[..|s| - 1], sel) + if |s| - 1 in sel then [] else [s[|s| - 1]]
  }

  // Distinct rows of a folder of n, sorted.
  predicate Selection(rows: seq<nat>, n: nat)
  {
    (forall j, k :: 0 <= j < k < |rows| ==> rows[j] < rows[k]) && forall k :: 0 <= k < |rows| ==> rows[k] < n
  }

  // onDeleteMail: the selected rows, sorted, are removed from the last to the first.
  ghost function DeleteRows(b: Box, rows: seq<nat>): (b': Box)
    requires Paired(b) && Selection(rows, |b.rows|)
    ensures Paired(b') && Drift(b') == Drift(b)
    ensures Keyed(b) ==> Keyed(b')
    ensures Keyed(b) && Stored(b) ==> Stored(b')
    decreases |rows|
  {
    if rows == [] then b
    else
      var last := rows[|rows| - 1];
      RemoveKeeps(b, last);
      DeleteRows(Remove(b, last), rows[..|rows| - 1])
  }

  function Selected(rows: seq<nat>): set<nat> { set r | r in rows }

  lemma {:induction false} KeepAll<T>(s: seq<T>, sel: set<nat>)
    requires forall r :: r in sel ==> r >= |s|
    ensures Keep(s, sel) == s
  {
    if s != [] {
      KeepAll(s[..|s| - 1], sel);
    }
  }

  lemma {:induction false} KeepSame<T>(s: seq<T>, sel: set<nat>, sel': set<nat>)
    requires forall r: nat :: r < |s| ==> (r in sel <==> r in sel')
    ensures Keep(s, sel) == Keep(s, sel')
  {
    if s != [] {
      KeepSame(s[..|s| - 1], sel, sel');
    }
  }

  // Taking out the last selected row first.
  lemma {:induction false} KeepWithout<T>(s: seq<T>, m: nat, sel: set<nat>)
    requires m < |s| && forall r :: r in sel ==> r < m
    ensures Keep(Without(s, m), sel) == Keep(s, sel + {m})
  {
    var init := s[..|s| - 1];
    if m == |s| - 1 {
      assert Without(s, m) == init;
      KeepSame(init, sel, sel + {m});
    } else {
      WithoutInit(s, m);
      assert |s| - 2 !in sel && |s| - 1 !in sel + {m};
      hide Without;
      KeepWithout(init, m, sel);
      KeepLast(Without(s, m), sel);
      KeepLast(s, sel + {m});
    }
  }

  lemma KeepLast<T>(s: seq<T>, sel: set<nat>)
    requires s != []
    ensures Keep(s, sel) == Keep(s[..|s| - 1], sel) + if |s| - 1 in sel then [] else [s[|s| - 1]]
  {}

  lemma WithoutInit<T>(s: seq<T>, m: nat)
    requires m < |s| - 1
    ensures var w := Without(s, m);
            |w| == |s| - 1 && w[..|w| - 1] == Without(s[..|s| - 1], m) && w[|w| - 1] == s[|s| - 1]
  {}

  // What is left is exactly what was not selected, in its order, in the list, the vector and the map;
  // the counter counts it, and the database has lost exactly the selected messages.
  lemma BatchDelete(b: Box, rows: seq<nat>)
    requires Paired(b) && Selection(rows, |b.rows|)
    ensures var b' := DeleteRows(b, rows);
            && b'.rows == Keep(b.rows, Selected(rows)) && b'.keys == Keep(b.keys, Selected(rows))
            && (b'.unread == CountUnread(b'.rows) <==> b.unread == CountUnread(b.rows))
            && b'.db == b.db - DigestsAt(b.rows, rows)
            && (Keyed(b) ==> Keyed(b')) && (Keyed(b) && Stored(b) ==> Stored(b'))
  {
    BatchRows(b, rows);
    BatchDatabase(b, rows);
  }

  lemma {:induction false} BatchRows(b: Box, rows: seq<nat>)
    requires Paired(b) && Selection(rows, |b.rows|)
    ensures DeleteRows(b, rows).rows == Keep(b.rows, Selected(rows))
    ensures DeleteRows(b, rows).keys == Keep(b.keys, Selected(rows))
    decreases |rows|
  {
    assert |b.keys| == |b.rows|;
    hide Paired;
    if rows == [] {
      KeepAll(b.rows, Selected(rows));
      KeepAll(b.keys, Selected(rows));
    } else {
      var last, rest := rows[|rows| - 1], rows[..|rows| - 1];
      LastSelected(b.rows, rows);
      RemoveKeeps(b, last);
      hide Selected, Keep, DigestsAt;
      BatchRows(Remove(b, last), rest);
      KeepWithout(b.rows, last, Selected(rest));
      KeepWithout(b.keys, last, Selected(rest));
    }
  }

  lemma {:induction false} BatchDatabase(b: Box, rows: seq<nat>)
    requires Paired(b) && Selection(rows, |b.rows|)
    ensures DeleteRows(b, rows).db == b.db - DigestsAt(b.rows, rows)
    decreases |rows|
  {
    if rows == [] {
      assert b.db - {} == b.db;
    } else {
      var last, rest := rows[|rows| - 1], rows[..|rows| - 1];
      LastSelected(b.rows, rows);
      RemoveKeeps(b, last);
      assert DeleteRows(b, rows) == DeleteRows(Remove(b, last), rest);
      hide DigestsAt, Paired, Selected, Selection, DeleteRows, Drift, Keyed, Stored;
      BatchDatabase(Remove(b, last), rest);
      TakenTwice(b.db, {b.rows[last].digest}, DigestsAt(Without(b.rows, last), rest));
    }
  }

  lemma TakenTwice<K, V>(db: map<K, V>, x: set<K>, y: set<K>)
    ensures db - x - y == db - (x + y)
  {}

  function DigestsAt(all: seq<Header>, rows: seq<nat>): set<Digest>
    requires forall k :: 0 <= k < |rows| ==> rows[k] < |all|
  {
    set k | 0 <= k < |rows| :: all[rows[k]].digest
  }

  // The last selected row set apart from the others, which keep their places when it goes.
  lemma LastSelected(all: seq<Header>, rows: seq<nat>)
    requires rows != [] && Selection(rows, |all|)
    ensures var last, rest := rows[|rows| - 1], rows[..|rows| - 1];
            && last < |all| && Selection(rest, |all| - 1)
            && (forall r :: r in Selected(rest) ==> r < last)
            && Selected(rows) == Selected(rest) + {last}
            && DigestsAt(all, rows) == {all[last].digest} + DigestsAt(Without(all, last), rest)
  {
    var last, rest := rows[|rows| - 1], rows[..|rows| - 1];
    assert rows == rest + [last];
    assert forall k :: 0 <= k < |rest| ==> rest[k] == rows[k] && rest[k] < last;
    LastDigest(all, rows);
    hide DigestsAt;
  }

  lemma LastDigest(all: seq<Header>, rows: seq<nat>)
    requires rows != [] && Selection(rows, |all|)
    ensures var last, rest := rows[|rows| - 1], rows[..|rows| - 1];
            && last < |all| && Selection(rest, |all| - 1)
            && DigestsAt(all, rows) == {all[last].digest} + DigestsAt(Without(all, last), rest)
  {
    var last, rest := rows[|rows| - 1], rows[..|rows| - 1];
    var w := Without(all, last);
    assert forall k :: 0 <= k < |rest| ==> rest[k] == rows[k] && rest[k] < last;
    forall k | 0 <= k < |rest|
      ensures w[rest[k]] == all[rows[k]]
    {
    }
    hide Without, Selection;
    forall d | d in DigestsAt(all, rows)
      ensures d in {all[last].digest} + DigestsAt(w, rest)
    {
      var k :| 0 <= k < |rows| && d == all[rows[k]].digest;
      if k < |rest| { assert w[rest[k]].digest == d; }
    }
    forall d | d in DigestsAt(w, rest)
      ensures d in DigestsAt(all, rows)
    {
      var k :| 0 <= k < |rest| && d == w[rest[k]].digest;
      assert all[rows[k]].digest == d;
    }
    assert all[rows[|rest|]].digest in DigestsAt(all, rows);
  }

  // ----- The model object -----

  // A node of the list; the map and the vector point at it.
  class Node {
    var header: Header

    constructor (header: Header)
      ensures this.header == header
    {
      this.header := header;
    }
  }

  function Headers(nodes: seq<Node>): (hs: seq<Header>)
    reads nodes
    ensures |hs| == |nodes|
    ensures forall k :: 0 <= k < |nodes| ==> hs[k] == nodes[k].header
  {
    seq(|nodes|, k requires 0 <= k < |nodes| reads nodes => nodes[k].header)
  }

  lemma HeadersWithout(nodes: seq<Node>, row: nat)
    requires row < |nodes|
    ensures Headers(Without(nodes, row)) == Without(Headers(nodes), row)
  {}

  function KeysOf(random: seq<(Node, Digest)>): (ks: seq<Digest>)
    ensures |ks| == |random|
    ensures forall k :: 0 <= k < |random| ==> ks[k] == random[k].1
  {
    seq(|random|, k requires 0 <= k < |random| => random[k].1)
  }

  // The iterators of the vector are those of the list, row by row, and reach all of the map.
  ghost predicate Linked(storage: seq<Node>, index: map<Digest, Node>, random: seq<(Node, Digest)>)
  {
    && |random| == |storage|
    && (forall r :: 0 <= r < |storage| ==> random[r].0 == storage[r])
    && Distinct(storage) && Distinct(KeysOf(random))
    && (forall r :: 0 <= r < |random| ==> random[r].1 in index && index[random[r].1] == storage[r])
    && (forall d :: d in index ==> d in KeysOf(random))
  }

  lemma LinkNew(storage: seq<Node>, index: map<Digest, Node>, random: seq<(Node, Digest)>, node: Node, d: Digest)
    requires Linked(storage, index, random) && node !in storage && d !in KeysOf(random)
    ensures Linked(storage + [node], index[d := node], random + [(node, d)])
    ensures KeysOf(random + [(node, d)]) == KeysOf(random) + [d]
  {
    var random' := random + [(node, d)];
    assert KeysOf(random') == KeysOf(random) + [d];
    assert forall x :: x in KeysOf(random) + [d] <==> x in KeysOf(random) || x == d;
    assert forall r :: 0 <= r < |random| ==> random[r].1 in KeysOf(random) by {
      assert forall r :: 0 <= r < |random| ==> KeysOf(random)[r] == random[r].1;
    }
  }

  lemma Unlink(storage: seq<Node>, index: map<Digest, Node>, random: seq<(Node, Digest)>, row: nat)
    requires Linked(storage, index, random) && row < |storage|
    ensures Linked(Without(storage, row), index - {random[row].1}, Without(random, row))
    ensures KeysOf(Without(random, row)) == Without(KeysOf(random), row)
  {
    var ks, random' := KeysOf(random), Without(random, row);
    assert KeysOf(random') == Without(ks, row);
    DistinctWithout(storage, row);
    DistinctWithout(ks, row);
    forall d | d in index - {random[row].1}
      ensures d in KeysOf(random')
    {
      StillThere(ks, row, d);
    }
    hide KeysOf, Distinct;
    StillLinked(storage, index, random, ks, row);
  }

  lemma StillLinked(
    storage: seq<Node>, index: map<Digest, Node>, random: seq<(Node, Digest)>, ks: seq<Digest>, row: nat)
    requires row < |storage| == |random| == |ks| && forall r :: 0 <= r < |random| ==> random[r].0 == storage[r]
    requires forall r :: 0 <= r < |random| ==> random[r].1 in index && index[random[r].1] == storage[r]
    requires Distinct(ks) && forall r :: 0 <= r < |ks| ==> ks[r] == random[r].1
    ensures var s', random' := Without(storage, row), Without(random, row);
            && (forall r :: 0 <= r < |random'| ==> random'[r].0 == s'[r])
            && forall r :: 0 <= r < |random'| ==>
                 random'[r].1 in index - {random[row].1} && (index - {random[row].1})[random'[r].1] == s'[r]
  {
    var s', random' := Without(storage, row), Without(random, row);
    forall r | 0 <= r < |random'|
      ensures random'[r].0 == s'[r] && random'[r].1 in index && index[random'[r].1] == s'[r]
      ensures random'[r].1 != random[row].1
    {
      var r0 := if r < row then r else r + 1;
      assert random'[r] == random[r0] && s'[r] == storage[r0] && ks[r0] != ks[row];
    }
  }

  lemma DistinctWithout<T>(s: seq<T>, row: nat)
    requires Distinct(s) && row < |s|
    ensures Distinct(Without(s, row))
  {}

  lemma StillThere<T>(s: seq<T>, row: nat, x: T)
    requires row < |s| && x in s && x != s[row]
    ensures x in Without(s, row)
  {
    var r :| 0 <= r < |s| && s[r] == x;
    if r < row { assert Without(s, row)[r] == x; } else { assert Without(s, row)[r - 1] == x; }
  }

  class MailboxModel {
    var storage: seq<Node>                // _headers_storage
    var digest2headers: map<Digest, Node> // _digest2headers
    var random: seq<(Node, Digest)>       // _headers_random: list and map iterators
    var unread: int                       // _unread_msg_count
    var db: map<Digest, Header>           // _mail_db

    ghost predicate Valid()
      reads this
    {
      Linked(storage, digest2headers, random)
    }

    ghost function View(): Box
      reads this, storage
    {
      Box(Headers(storage), KeysOf(random), unread, db)
    }

    constructor (db: map<Digest, Header>)
      ensures Valid() && View() == Box([], [], 0, db)
    {
      storage, digest2headers, random, unread, this.db := [], map[], [], 0, db;
    }

    // fillMailHeader: refuses a digest the map already has, and one the database has no data for.
    method FillMailHeader(header: Header) returns (ok: bool)
      requires Valid()
      ensures ok <==> header.digest !in KeysOf(random) && header.digest in db
    {
      if header.digest in digest2headers {
        return false;
      }
      ok := header.digest in db;
    }

    method AddMailHeader(header: Header)
      requires Valid()
      modifies this
      ensures Valid() && View() == Add(old(View()), header)
    {
      hide Linked, Headers, KeysOf;
      var ok := FillMailHeader(header);
      if ok {
        PushBack(header);
        if !header.read {
          unread := unread + 1;
        }
      }
    }

    method PushBack(header: Header)
      requires Valid() && header.digest !in KeysOf(random)
      modifies this
      ensures Valid() && unread == old(unread) && db == old(db)
      ensures Headers(storage) == old(Headers(storage)) + [header]
      ensures KeysOf(random) == old(KeysOf(random)) + [header.digest]
    {
      hide Linked, Headers, KeysOf;
      var node := new Node(header);
      LinkNew(storage, digest2headers, random, node, header.digest);
      storage := storage + [node];
      digest2headers := digest2headers[header.digest := node];
      random := random + [(node, header.digest)];
    }

    method RemoveRow(row: nat)
      requires Valid() && row < |storage|
      modifies this
      ensures Valid() && |storage| == old(|storage|) - 1
      ensures View() == Remove(old(View()), row)
    {
      var data := random[row];
      assert data.0 == storage[row];
      hide Linked, Headers, KeysOf;
      Unlink(storage, digest2headers, random, row);
      HeadersWithout(storage, row);
      if !data.0.header.read {
        unread := unread - 1;
      }
      db := db - {data.0.header.digest};
      storage := Without(storage, row);
      digest2headers := digest2headers - {data.1};
      random := Without(random, row);
    }

    // removeRows, whose callers all pass a count of 1.
    method RemoveRows(row: nat, count: nat)
      requires Valid() && (count > 0 ==> row + 2 * (count - 1) < |storage|)
      modifies this
      ensures Valid() && |storage| == old(|storage|) - count && View() == RemoveAll(old(View()), row, count)
    {
      PairedView();
      ghost var start := View();
      NoneRemoved(start, row);
      hide Linked, Headers, KeysOf, Remove, After, View, Valid;
      ghost var now := start;
      for k := 0 to count
        invariant Valid() && |storage| == |start.rows| - k && View() == now && After(start, row, k, now)
      {
        OneRowMore(start, row, k, now);
        now := Remove(now, row + k);
        RemoveRow(row + k);
      }
      AllRemoved(start, row, count, now);
    }

    // markMessageAsRead and markMessageAsUnread
    method MarkRead(row: nat, read: bool)
      requires Valid() && row < |storage|
      modifies this, storage[row]
      ensures Valid() && storage == old(storage)
      ensures View() == Mark(old(View()), row, old(storage[row].header).(read := read))
    {
      var node := random[row].0;
      assert node == storage[row];
      if node.header.read == read {
        return;
      }
      WriteHeader(row, node.header.(read := read));
      unread := if read then unread - 1 else unread + 1;
      db := db[node.header.digest := node.header];
    }

    // markMessageAsReplied and markMessageAsForwarded
    method MarkAnswered(row: nat, replied: bool, forwarded: bool)
      requires Valid() && row < |storage|
      modifies this, storage[row]
      ensures Valid() && storage == old(storage)
      ensures View() == Mark(old(View()), row, Answered(old(storage[row].header), replied, forwarded))
    {
      var node := random[row].0;
      assert node == storage[row];
      var h := Answered(node.header, replied, forwarded);
      if h == node.header {
        return;
      }
      WriteHeader(row, h);
      db := db[node.header.digest := node.header];
    }

    // The header of one list node is rewritten where it is.
    method WriteHeader(row: nat, h: Header)
      requires Valid() && row < |storage|
      modifies storage[row]
      ensures Valid() && storage[row].header == h
      ensures Headers(storage) == old(Headers(storage))[row := h]
    {
      storage[row].header := h;
    }

    // replaceMessage: the search is by digest, down the list.
    method ReplaceMessage(overwritten: Header, msg: Header)
      requires Valid()
      modifies this, storage
      ensures Valid() && View() == Replace(old(View()), overwritten, msg)
    {
      hide Linked, KeysOf, Add;
      var row := FindModelIndex(overwritten.digest);
      if row < 0 {
        AddMailHeader(msg);
        return;
      }
      var ok := FillMailHeader(msg);
      if ok {
        WriteHeader(row, msg);
        if overwritten.read {
          unread := unread + 1;
        }
      }
    }

    // findModelIndex(msg): the first list node with this digest; -1 when there is none.
    method FindModelIndex(digest: Digest) returns (row: int)
      ensures var r := RowOf(Headers(storage), digest);
              row == if r < |storage| then r else -1
    {
      for k := 0 to |storage|
        invariant forall j :: 0 <= j < k ==> storage[j].header.digest != digest
      {
        if storage[k].header.digest == digest {
          return k;
        }
      }
      row := -1;
    }

    // findModelIndex(digest): through the map.
    method FindByDigest(digest: Digest) returns (row: int)
      requires Valid()
      ensures row == FindRow(View(), digest)
    {
      if digest !in digest2headers {
        InIndex(digest);
        return -1;
      }
      InIndex(digest);
      var header := digest2headers[digest];
      row := FindModelIndex(header.header.digest);
    }

    lemma InIndex(digest: Digest)
      requires Valid()
      ensures digest in digest2headers <==> digest in KeysOf(random)
      ensures digest in digest2headers ==>
        digest2headers[digest] == storage[KeyAt(KeysOf(random), digest)]
    {
      if k :| 0 <= k < |random| && KeysOf(random)[k] == digest {
        assert random[k].1 in digest2headers;
      }
    }

    // The loop of Mailbox::onDeleteMail over the sorted selection.
    method DeleteMail(rows: seq<nat>)
      requires Valid() && Selection(rows, |storage|)
      modifies this
      ensures Valid() && View() == DeleteRows(old(View()), rows)
    {
      PairedView();
      hide Linked, Headers, KeysOf, DeleteRows, Selection, Paired, Remove, View, Valid;
      ghost var start, now := View(), View();
      assert rows[..|rows|] == rows;
      var i := |rows|;
      while i > 0
        invariant 0 <= i <= |rows| && Valid() && View() == now && |now.rows| == |storage|
        invariant Paired(now) && Selection(rows[..i], |storage|)
        invariant DeleteRows(start, rows) == DeleteRows(now, rows[..i])
      {
        i := i - 1;
        DeleteLast(now, rows, i);
        RemoveAllRows(now, rows[i], 1);
        now := Remove(now, rows[i]);
        RemoveRows(rows[i], 1);
      }
      assert rows[..0] == [];
      NothingDeleted(now);
    }

    lemma PairedView()
      requires Valid()
      ensures Paired(View()) && |View().rows| == |View().keys| == |storage| && View().rows == Headers(storage)
    {}
  }

  lemma NothingDeleted(b: Box)
    requires Paired(b)
    ensures Selection([], |b.rows|) && DeleteRows(b, []) == b
  {}

  lemma DeleteLast(b: Box, rows: seq<nat>, i: nat)
    requires i < |rows| && Paired(b) && Selection(rows[..i + 1], |b.rows|)
    ensures rows[i] < |b.rows| == |b.keys|
    ensures var b' := Remove(b, rows[i]);
            && Paired(b') && |b'.rows| == |b.rows| - 1 && Selection(rows[..i], |b'.rows|)
            && DeleteRows(b, rows[..i + 1]) == DeleteRows(b', rows[..i])
  {
    var upTo := rows[..i + 1];
    assert upTo[|upTo| - 1] == rows[i] && upTo[..|upTo| - 1] == rows[..i];
    ShorterSelection(rows, i, |b.rows|);
    RemoveKeeps(b, rows[i]);
    assert |Remove(b, rows[i]).rows| == |b.rows| - 1;
    assert DeleteRows(b, upTo) == DeleteRows(Remove(b, upTo[|upTo| - 1]), upTo[..|upTo| - 1]);
  }

  lemma ShorterSelection(rows: seq<nat>, i: nat, n: nat)
    requires i < |rows| && Selection(rows[..i + 1], n)
    ensures rows[i] < n && Selection(rows[..i], n - 1)
  {
    var upTo := rows[..i + 1];
    assert forall k :: 0 <= k < i ==> rows[..i][k] == upTo[k] && upTo[k] < upTo[i];
  }
}
