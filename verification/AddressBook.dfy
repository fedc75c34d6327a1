/** AddressBook/AddressBookModel.cpp: the contacts of the model, a vector sorted by wallet index, and
    the address book they are stored in. */
module AddressBook {
  import opened Basics

  // A contact that has not been stored carries this index.  Its value is not part of the repository;
  // any that no stored contact has would do.
  const WALLET_INVALID_INDEX: int := -1

  datatype Contact = Contact(walletIndex: int, data: string)

  predicate Sorted(s: seq<Contact>)
  {
    forall j, k :: 0 <= j < k < |s| ==> s[j].walletIndex < s[k].walletIndex
  }

  predicate Stored(s: seq<Contact>) { forall k :: 0 <= k < |s| ==> s[k].walletIndex >= 0 }

  // The scan that the source keeps in a comment.
  function LinearScan(s: seq<Contact>, id: int): (r: int)
  {
    if s == [] then -1
    else if s[0].walletIndex == id then 0
    else
      var r := LinearScan(s[1..], id);
      if r < 0 then -1 else r + 1
  }

  lemma {:induction false} LinearScanFinds(s: seq<Contact>, id: int)
    ensures var r := LinearScan(s, id);
            && -1 <= r < |s| && (r >= 0 ==> s[r].walletIndex == id)
            && (r < 0 ==> forall k :: 0 <= k < |s| ==> s[k].walletIndex != id)
            && forall k :: 0 <= k < r ==> s[k].walletIndex != id
  {
    if s != [] && s[0].walletIndex != id {
      LinearScanFinds(s[1..], id);
      assert forall k :: 0 < k < |s| ==> s[k] == s[1..][k - 1];
    }
  }

  // The address book that holds exactly these contacts.
  function BookOf(s: seq<Contact>): map<int, Contact>
  {
    if s == [] then map[] else BookOf(s[..|s| - 1])[s[|s| - 1].walletIndex := s[|s| - 1]]
  }

  ghost predicate Has(s: seq<Contact>, i: int) { exists k :: 0 <= k < |s| && s[k].walletIndex == i }

  // The address book holds these contacts under their indexes, and nothing else.
  ghost predicate Holds(book: map<int, Contact>, s: seq<Contact>)
  {
    && (forall i :: i in book ==> Has(s, i))
    && (forall k :: 0 <= k < |s| ==> s[k].walletIndex in book && book[s[k].walletIndex] == s[k])
  }

  lemma {:induction false} BookHolds(s: seq<Contact>)
    requires Sorted(s)
    ensures Holds(BookOf(s), s)
  {
    if s != [] {
      var init, last := s[..|s| - 1], s[|s| - 1];
      BookHolds(init);
      forall i | i in BookOf(s)
        ensures Has(s, i)
      {
        if i == last.walletIndex {
          assert s[|s| - 1].walletIndex == i;
        } else {
          assert Has(init, i);
          var k :| 0 <= k < |init| && init[k].walletIndex == i;
          assert s[k].walletIndex == i;
        }
      }
      forall k | 0 <= k < |s|
        ensures s[k].walletIndex in BookOf(s) && BookOf(s)[s[k].walletIndex] == s[k]
      {
        if k < |init| { assert init[k] == s[k]; }
      }
    }
  }

  // Only one address book holds given contacts.
  lemma BookUnique(s: seq<Contact>, book: map<int, Contact>)
    requires Sorted(s) && Holds(book, s)
    ensures book == BookOf(s)
  {
    BookHolds(s);
    forall i
      ensures i in book <==> i in BookOf(s)
      ensures i in book ==> book[i] == BookOf(s)[i]
    {
      if i in book || i in BookOf(s) {
        assert Has(s, i);
        var k :| 0 <= k < |s| && s[k].walletIndex == i;
        assert s[k].walletIndex in book && s[k].walletIndex in BookOf(s);
      }
    }
  }

  // ----- What the operations do to the sorted contacts -----

  // The index a new contact gets.
  function NextIndex(s: seq<Contact>): int
  {
    if s == [] then 0 else s[|s| - 1].walletIndex + 1
  }

  // storeContact: a new contact goes to the end, a known one is replaced in its row, and an index
  // nobody has is refused.
  function Store(s: seq<Contact>, c: Contact): Option<seq<Contact>>
  {
    if c.walletIndex == WALLET_INVALID_INDEX then Some(s + [c.(walletIndex := NextIndex(s))])
    else
      LinearScanFinds(s, c.walletIndex);
      var r := LinearScan(s, c.walletIndex);
      if r < 0 then None else Some(s[r := c])
  }

  // The index the contact has then.
  function StoredIndex(s: seq<Contact>, c: Contact): Option<int>
  {
    if Store(s, c).None? then None
    else Some(if c.walletIndex == WALLET_INVALID_INDEX then NextIndex(s) else c.walletIndex)
  }

  function RemoveRange(s: seq<Contact>, row: nat, count: nat): seq<Contact>
    requires row + count <= |s|
  {
    s[..row] + s[row + count..]
  }

  // A new contact gets an index above all present ones, and the order is kept.
  lemma StoreKeepsOrder(s: seq<Contact>, c: Contact)
    requires Sorted(s) && Stored(s)
    requires Store(s, c).Some?
    ensures Sorted(Store(s, c).value) && Stored(Store(s, c).value)
    ensures c.walletIndex == WALLET_INVALID_INDEX ==> forall k :: 0 <= k < |s| ==> s[k].walletIndex < NextIndex(s)
  {
    LinearScanFinds(s, c.walletIndex);
  }

  // A contact put where the smaller indexes end.
  lemma InsertedAt(s: seq<Contact>, at: nat, c: Contact)
    requires Sorted(s) && at <= |s| && !Has(s, c.walletIndex)
    requires forall k :: 0 <= k < at ==> s[k].walletIndex < c.walletIndex
    requires forall k :: at <= k < |s| ==> s[k].walletIndex >= c.walletIndex
    ensures var s' := s[..at] + [c] + s[at..];
            && Sorted(s') && (forall k :: 0 <= k < |s'| ==> s'[k] == c || s'[k] in s)
            && forall i :: Has(s, i) || i == c.walletIndex ==> Has(s', i)
  {
    var s' := s[..at] + [c] + s[at..];
    assert forall k :: 0 <= k < |s| ==> s[k].walletIndex != c.walletIndex;
    assert forall k :: at < k < |s'| ==> s'[k] == s[k - 1];
    InsertedHas(s, at, c);
    hide Has;
  }

  lemma InsertedHas(s: seq<Contact>, at: nat, c: Contact)
    requires at <= |s|
    ensures forall i :: Has(s, i) || i == c.walletIndex ==> Has(s[..at] + [c] + s[at..], i)
  {
    var s' := s[..at] + [c] + s[at..];
    forall i | Has(s, i) || i == c.walletIndex
      ensures Has(s', i)
    {
      if i == c.walletIndex {
        assert s'[at].walletIndex == i;
      } else {
        var k :| 0 <= k < |s| && s[k].walletIndex == i;
        assert s'[if k < at then k else k + 1].walletIndex == i;
      }
    }
  }

  class AddressBookModel {
    var contacts: seq<Contact>
    var book: map<int, Contact>

    // The model's contacts, in the order of their indexes, are what is stored.
    ghost predicate Valid()
      reads this
    {
      Sorted(contacts) && Stored(contacts) && book == BookOf(contacts)
    }

    // The constructor, through reloadContacts.
    constructor (book: map<int, Contact>)
      requires forall i :: i in book ==> i >= 0 && book[i].walletIndex == i
      ensures Valid() && this.book == book
    {
      contacts := [];
      this.book := book;
      new;
      ReloadContacts();
    }

    // reloadContacts: the contacts come in any order and are then sorted.
    method ReloadContacts()
      requires forall i :: i in book ==> i >= 0 && book[i].walletIndex == i
      modifies this`contacts
      ensures Valid()
    {
      var left := book.Keys;
      contacts := [];
      while left != {}
        invariant left <= book.Keys && Sorted(contacts)
        invariant forall k :: 0 <= k < |contacts| ==>
                    var i := contacts[k].walletIndex; i in book && i !in left && book[i] == contacts[k]
        invariant forall i :: i in book && i !in left ==> Has(contacts, i)
        decreases |left|
      {
        assert (forall i :: i !in left) ==> left == {};
        var i :| i in left;
        InsertSorted(book[i]);
        left := left - {i};
      }
      BookUnique(contacts, book);
    }

    // One step of std::sort's result.
    method InsertSorted(c: Contact)
      requires Sorted(contacts) && !Has(contacts, c.walletIndex)
      modifies this`contacts
      ensures Sorted(contacts)
      ensures forall k :: 0 <= k < |contacts| ==> contacts[k] == c || contacts[k] in old(contacts)
      ensures forall i :: old(Has(contacts, i)) || i == c.walletIndex ==> Has(contacts, i)
    {
      var at := LowerBound(c.walletIndex);
      InsertedAt(contacts, at, c);
      hide Sorted, Has;
      contacts := contacts[..at] + [c] + contacts[at..];
    }

    // std::lower_bound by wallet index.
    method LowerBound(id: int) returns (at: nat)
      requires Sorted(contacts)
      ensures at <= |contacts|
      ensures forall k :: 0 <= k < at ==> contacts[k].walletIndex < id
      ensures forall k :: at <= k < |contacts| ==> contacts[k].walletIndex >= id
    {
      at := 0;
      var count := |contacts|;
      while count > 0
        invariant 0 <= count && at + count <= |contacts|
        invariant forall k :: 0 <= k < at ==> contacts[k].walletIndex < id
        invariant forall k :: at + count <= k < |contacts| ==> contacts[k].walletIndex >= id
      {
        var step := count / 2;
        if contacts[at + step].walletIndex < id {
          at := at + step + 1;
          count := count - (step + 1);
        } else {
          count := step;
        }
      }
    }

    // getContactRow: binary search answers what the linear scan would, and fails when it would.
    method GetContactRow(id: int) returns (row: int)
      requires Sorted(contacts)
      ensures row == LinearScan(contacts, id)
    {
      LinearScanFinds(contacts, id);
      var at := LowerBound(id);
      if at == |contacts| || contacts[at].walletIndex != id {
        return -1;
      }
      row := at;
    }

    // getContactById
    method GetContactById(id: int) returns (c: Option<Contact>)
      requires Valid()
      ensures c == if id in book then Some(book[id]) else None
    {
      var row := GetContactRow(id);
      LinearScanFinds(contacts, id);
      BookHolds(contacts);
      c := if row < 0 then None else Some(contacts[row]);
    }

    // storeContact: the index the contact has now, or nothing when the lookup throws.
    method StoreContact(c: Contact) returns (index: Option<int>)
      requires Valid()
      modifies this
      ensures Valid()
      ensures index == StoredIndex(old(contacts), c)
      ensures contacts == if index == None then old(contacts) else Store(old(contacts), c).value
    {
      if c.walletIndex == WALLET_INVALID_INDEX {
        var next := if |contacts| == 0 then 0 else contacts[|contacts| - 1].walletIndex + 1;
        assert next == NextIndex(contacts);
        hide Sorted, Stored, BookOf, NextIndex;
        StoredNew(contacts, c);
        contacts := contacts + [c.(walletIndex := next)];
        book := book[next := contacts[|contacts| - 1]];
        return Some(next);
      }
      hide Sorted, Stored, BookOf, LinearScan;
      var row := GetContactRow(c.walletIndex);
      LinearScanFinds(contacts, c.walletIndex);
      if row < 0 {
        return None;
      }
      StoredAgain(contacts, row, c);
      contacts := contacts[row := c];
      book := book[c.walletIndex := contacts[row]];
      index := Some(c.walletIndex);
    }

    // removeRows: the range leaves the address book first, row by row, and then the vector.
    method RemoveRows(row: nat, count: nat)
      requires Valid() && row + count <= |contacts|
      modifies this
      ensures Valid() && contacts == RemoveRange(old(contacts), row, count)
    {
      ghost var before := contacts;
      hide Sorted, Stored, BookOf, HoldsBut, Holds, RemoveRange;
      BookHolds(contacts);
      HoldsBefore(book, before, row);
      for i := row to row + count
        invariant contacts == before
        invariant HoldsBut(book, before, row, i)
      {
        RemoveOne(book, before, row, i);
        book := book - {contacts[i].walletIndex};
      }
      assert RemoveRange(before, row, count) == contacts[..row] + contacts[row + count..] by {
        RangeIs(before, row, count);
      }
      contacts := contacts[..row] + contacts[row + count..];
      RangeGone(before, row, count, book);
    }
  }

  // The address book while the rows from `row` to `i` have been removed.
  ghost predicate HoldsBut(book: map<int, Contact>, s: seq<Contact>, row: nat, i: nat)
  {
    && (forall x :: x in book ==> exists k :: 0 <= k < |s| && !(row <= k < i) && s[k].walletIndex == x)
    && (forall k :: 0 <= k < |s| && !(row <= k < i) ==> s[k].walletIndex in book && book[s[k].walletIndex] == s[k])
  }

  lemma HoldsBefore(book: map<int, Contact>, s: seq<Contact>, row: nat)
    requires Holds(book, s)
    ensures HoldsBut(book, s, row, row)
  {
    forall x | x in book
      ensures exists k :: 0 <= k < |s| && !(row <= k < row) && s[k].walletIndex == x
    {
      assert Has(s, x);
      var k :| 0 <= k < |s| && s[k].walletIndex == x;
    }
  }

  lemma RemoveOne(book: map<int, Contact>, s: seq<Contact>, row: nat, i: nat)
    requires Sorted(s) && row <= i < |s| && HoldsBut(book, s, row, i)
    ensures HoldsBut(book - {s[i].walletIndex}, s, row, i + 1)
  {
    forall x | x in book - {s[i].walletIndex}
      ensures exists k :: 0 <= k < |s| && !(row <= k < i + 1) && s[k].walletIndex == x
    {
      var k :| 0 <= k < |s| && !(row <= k < i) && s[k].walletIndex == x;
      assert k != i;
    }
  }

  lemma StoredNew(s: seq<Contact>, c: Contact)
    requires Sorted(s) && Stored(s) && c.walletIndex == WALLET_INVALID_INDEX
    ensures var n := c.(walletIndex := NextIndex(s)); var s' := s + [n];
            Sorted(s') && Stored(s') && BookOf(s') == BookOf(s)[n.walletIndex := n]
  {
    StoreKeepsOrder(s, c);
    var s' := s + [c.(walletIndex := NextIndex(s))];
    assert s'[..|s'| - 1] == s;
  }

  lemma StoredAgain(s: seq<Contact>, row: nat, c: Contact)
    requires Sorted(s) && Stored(s) && row < |s| && s[row].walletIndex == c.walletIndex
    ensures Sorted(s[row := c]) && Stored(s[row := c]) && BookOf(s)[c.walletIndex := c] == BookOf(s[row := c])
  {
    BookHolds(s);
    var s', book := s[row := c], BookOf(s)[c.walletIndex := c];
    forall i | i in book
      ensures Has(s', i)
    {
      if i == c.walletIndex {
        assert s'[row].walletIndex == i;
      } else {
        assert Has(s, i);
        var k :| 0 <= k < |s| && s[k].walletIndex == i;
        assert s'[k].walletIndex == i;
      }
    }
    BookUnique(s', book);
  }

  lemma RangeIs(s: seq<Contact>, row: nat, count: nat)
    requires row + count <= |s|
    ensures RemoveRange(s, row, count) == s[..row] + s[row + count..]
  {}

  lemma RangeGone(s: seq<Contact>, row: nat, count: nat, book: map<int, Contact>)
    requires Sorted(s) && Stored(s) && row + count <= |s| && HoldsBut(book, s, row, row + count)
    ensures var s' := RemoveRange(s, row, count); Sorted(s') && Stored(s') && book == BookOf(s')
  {
    var s' := RemoveRange(s, row, count);
    assert Sorted(s') && Stored(s') by { hide HoldsBut, BookOf; }
    assert Holds(book, s') by {
      hide Sorted, Stored, BookOf;
      HoldsAfter(s, row, count, book);
    }
    hide RemoveRange, Sorted, Stored, HoldsBut, Holds;
    BookUnique(s', book);
  }

  lemma HoldsAfter(s: seq<Contact>, row: nat, count: nat, book: map<int, Contact>)
    requires row + count <= |s| && HoldsBut(book, s, row, row + count)
    ensures Holds(book, RemoveRange(s, row, count))
  {
    var s' := RemoveRange(s, row, count);
    forall x | x in book
      ensures Has(s', x)
    {
      var k :| 0 <= k < |s| && !(row <= k < row + count) && s[k].walletIndex == x;
      assert s'[if k < row then k else k - count] == s[k];
    }
    forall k | 0 <= k < |s'|
      ensures s'[k].walletIndex in book && book[s'[k].walletIndex] == s'[k]
    {
      assert s'[k] == s[if k < row then k else k + count];
    }
  }
}
