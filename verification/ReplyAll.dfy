/** Whom a reply goes to (transformRecipientList and LoadMessage in Mail/maileditorwindow.cpp). */
module ReplyAll {
  import opened Basics

  type Key = nat

  datatype Mail = Mail(from: Key, to: seq<Key>, cc: seq<Key>)

  function Keys(s: seq<Key>): set<Key> { set k | k in s }

  // ----- The specification -----

  // The elements that are not seen yet, each where it first occurs.
  function NewOnes(seen: set<Key>, source: seq<Key>): seq<Key>
    decreases |source|
  {
    if source == [] then []
    else if source[0] in seen then NewOnes(seen, source[1..])
    else [source[0]] + NewOnes(seen + {source[0]}, source[1..])
  }

  function FirstOwn(own: set<Key>, source: seq<Key>): Option<Key>
  {
    if source == [] then None else if source[0] in own then Some(source[0]) else FirstOwn(own, source[1..])
  }

  function ReplyTo(own: set<Key>, m: Mail): seq<Key> { [m.from] + NewOnes(own, m.to) }

  function ReplyCc(own: set<Key>, m: Mail): seq<Key> { NewOnes(own + Keys(m.to), m.cc) }

  // Position of the first occurrence.
  function IndexOf(s: seq<Key>, k: Key): (i: nat)
    requires k in s
    ensures i < |s| && s[i] == k && k !in s[..i]
  {
    if s[0] == k then 0 else 1 + IndexOf(s[1..], k)
  }

  // ----- What it means -----

  lemma {:induction false} NewOnesAppend(seen: set<Key>, x: seq<Key>, y: seq<Key>)
    ensures NewOnes(seen, x + y) == NewOnes(seen, x) + NewOnes(seen + Keys(x), y)
    decreases |x|
  {
    if x == [] {
      assert x + y == y && seen + Keys(x) == seen;
    } else {
      assert (x + y)[1..] == x[1..] + y;
      assert {x[0]} + Keys(x[1..]) == Keys(x);
      var more := if x[0] in seen then seen else seen + {x[0]};
      NewOnesAppend(more, x[1..], y);
      assert more + Keys(x[1..]) == seen + Keys(x);
    }
  }

  lemma {:induction false} NewOnesElements(seen: set<Key>, source: seq<Key>)
    ensures forall k :: k in NewOnes(seen, source) <==> k in source && k !in seen
    decreases |source|
  {
    if source != [] {
      NewOnesElements(if source[0] in seen then seen else seen + {source[0]}, source[1..]);
      assert forall k :: k in source <==> k == source[0] || k in source[1..];
    }
  }

  // a comes before b in the source.
  predicate Before(source: seq<Key>, a: Key, b: Key)
  {
    a in source && b in source && IndexOf(source, a) < IndexOf(source, b)
  }

  predicate InOrder(r: seq<Key>, source: seq<Key>)
  {
    forall i, j :: 0 <= i < j < |r| ==> Before(source, r[i], r[j])
  }

  // None twice, and in the order in which they first occur.
  lemma {:induction false} NewOnesOrder(seen: set<Key>, source: seq<Key>)
    ensures InOrder(NewOnes(seen, source), source)
    decreases |source|
  {
    if source != [] {
      var head, tail := source[0], source[1..];
      var more := if head in seen then seen else seen + {head};
      NewOnesOrder(more, tail);
      NewOnesElements(more, tail);
      var t := NewOnes(more, tail);
      assert NewOnes(seen, source) == if head in seen then t else [head] + t;
      assert head !in t && source == [head] + tail;
      hide NewOnes, IndexOf;
      Behind(t, head, tail);
    }
  }

  lemma BeforeBehind(head: Key, tail: seq<Key>, a: Key, b: Key)
    requires Before(tail, a, b) && a != head && b != head
    ensures Before([head] + tail, a, b)
  {
    assert ([head] + tail)[1..] == tail;
  }

  lemma HeadBefore(head: Key, tail: seq<Key>, b: Key)
    requires b in tail && b != head
    ensures Before([head] + tail, head, b)
  {}

  lemma Behind(t: seq<Key>, head: Key, tail: seq<Key>)
    requires InOrder(t, tail) && head !in t && forall k :: k in t ==> k in tail
    ensures InOrder(t, [head] + tail) && InOrder([head] + t, [head] + tail)
  {
    var r := [head] + t;
    hide Before;
    forall i, j | 0 <= i < j < |t|
      ensures Before([head] + tail, t[i], t[j])
    {
      assert t[i] in t && t[j] in t;
      BeforeBehind(head, tail, t[i], t[j]);
    }
    forall i, j | 0 <= i < j < |r|
      ensures Before([head] + tail, r[i], r[j])
    {
      assert r[j] == t[j - 1] && t[j - 1] in t;
      if i > 0 {
        assert r[i] == t[i - 1];
      } else {
        HeadBefore(head, tail, r[j]);
      }
    }
  }

  lemma {:induction false} FirstOwnMeans(own: set<Key>, source: seq<Key>)
    ensures match FirstOwn(own, source)
            case None => forall k :: k in source ==> k !in own
            case Some(k) => k in own && k in source && forall j :: j in source[..IndexOf(source, k)] ==> j !in own
  {
    if source != [] && source[0] !in own {
      FirstOwnMeans(own, source[1..]);
      var r := FirstOwn(own, source);
      if r.Some? {
        var n := IndexOf(source, r.value);
        assert source[..n] == [source[0]] + source[1..][..n - 1];
      }
    }
  }

  // ----- The editor -----

  // The index, and the list, when i recipients are through.
  function Index(seen: set<Key>, s: seq<Key>, i: nat): set<Key>
    requires i <= |s|
  {
    seen + Keys(s[..i])
  }

  function Chosen(seen: set<Key>, s: seq<Key>, i: nat): seq<Key>
    requires i <= |s|
  {
    NewOnes(seen, s[..i])
  }

  function Own(own: set<Key>, s: seq<Key>, i: nat): Option<Key>
    requires i <= |s|
  {
    FirstOwn(own, s[..i])
  }

  lemma NextRecipient(seen: set<Key>, s: seq<Key>, i: nat)
    requires i < |s|
    ensures Index(seen, s, i + 1) == Index(seen, s, i) + {s[i]}
    ensures s[i] in Index(seen, s, i) ==> Index(seen, s, i + 1) == Index(seen, s, i)
    ensures Chosen(seen, s, i + 1) == Chosen(seen, s, i) + if s[i] in Index(seen, s, i) then [] else [s[i]]
    ensures s[i] in Index(seen, s, i) ==> Chosen(seen, s, i + 1) == Chosen(seen, s, i)
  {
    assert s[..i + 1] == s[..i] + [s[i]];
    NewOnesAppend(seen, s[..i], [s[i]]);
    assert [s[i]][1..] == [];
  }

  lemma AllRecipients(seen: set<Key>, s: seq<Key>)
    ensures Index(seen, s, 0) == seen && Chosen(seen, s, 0) == [] && Own(seen, s, 0) == None
    ensures Index(seen, s, |s|) == seen + Keys(s) && Chosen(seen, s, |s|) == NewOnes(seen, s)
    ensures Own(seen, s, |s|) == FirstOwn(seen, s)
  {
    assert s[..0] == [] && s[..|s|] == s;
  }

  lemma {:induction false} NextOwn(own: set<Key>, s: seq<Key>, i: nat)
    requires i < |s|
    ensures Own(own, s, i + 1) == if Own(own, s, i).None? && s[i] in own then Some(s[i]) else Own(own, s, i)
  {
    assert s[..i + 1][0] == s[0];
    if i > 0 && s[0] !in own {
      NextOwn(own, s[1..], i - 1);
      assert s[..i + 1][1..] == s[1..][..i] && s[..i][1..] == s[1..][..i - 1];
    }
  }

  // transformRecipientList
  method TransformRecipientList(identities: seq<Key>, m: Mail)
    returns (newSender: Option<Key>, toRecipients: seq<Key>, ccRecipients: seq<Key>)
    ensures newSender == FirstOwn(Keys(identities), m.to)
    ensures toRecipients == ReplyTo(Keys(identities), m)
    ensures ccRecipients == ReplyCc(Keys(identities), m)
  {
    ghost var own := Keys(identities);
    ghost var seen := own + Keys(m.to);
    AllRecipients({}, identities);
    AllRecipients(own, m.to);
    AllRecipients(seen, m.cc);
    hide Index, Chosen, Own, NewOnes, FirstOwn, Keys;
    var allRecipients := {};
    for i := 0 to |identities|
      invariant allRecipients == Index({}, identities, i)
    {
      NextRecipient({}, identities, i);
      allRecipients := allRecipients + {identities[i]};
    }
    var myIdentities := allRecipients;
    assert myIdentities == own;
    newSender := None;
    toRecipients, ccRecipients := [m.from], [];
    for i := 0 to |m.to|
      invariant allRecipients == Index(own, m.to, i)
      invariant toRecipients == [m.from] + Chosen(own, m.to, i)
      invariant newSender == Own(own, m.to, i)
    {
      var recipient := m.to[i];
      NextRecipient(own, m.to, i);
      NextOwn(own, m.to, i);
      if recipient !in allRecipients {
        allRecipients := allRecipients + {recipient};
        toRecipients := toRecipients + [recipient];
      }
      if newSender.None? && recipient in myIdentities {
        newSender := Some(recipient);
      }
    }
    for i := 0 to |m.cc|
      invariant allRecipients == Index(seen, m.cc, i)
      invariant ccRecipients == Chosen(seen, m.cc, i)
    {
      var recipient := m.cc[i];
      NextRecipient(seen, m.cc, i);
      if recipient !in allRecipients {
        allRecipients := allRecipients + {recipient};
        ccRecipients := ccRecipients + [recipient];
      }
    }
  }

  lemma OneRecipient(own: set<Key>, s: seq<Key>)
    requires |s| <= 1
    ensures NewOnes(own, s) == if s == [] || s[0] in own then [] else s
    ensures FirstOwn(own, s) == if s == [] || s[0] !in own then None else Some(s[0])
  {
    if s != [] {
      assert s == [s[0]] && s[1..] == [];
    }
  }

  datatype LoadForm = ToAll | ToSender

  // LoadMessage for the two ways to reply: a plain reply sees the first recipient only.
  method LoadMessage(form: LoadForm, identities: seq<Key>, m: Mail)
    returns (newSender: Option<Key>, to: seq<Key>, cc: seq<Key>)
    ensures form == ToAll ==> to == ReplyTo(Keys(identities), m) && cc == ReplyCc(Keys(identities), m)
    ensures form == ToAll ==> newSender == FirstOwn(Keys(identities), m.to)
    ensures form == ToSender ==> cc == [] && 0 < |to| && to[0] == m.from
    ensures form == ToSender ==>
              to[1..] == if m.to == [] || m.to[0] in identities then [] else [m.to[0]]
    ensures form == ToSender ==>
              newSender == if m.to == [] || m.to[0] !in identities then None else Some(m.to[0])
  {
    match form {
      case ToAll =>
        newSender, to, cc := TransformRecipientList(identities, m);
      case ToSender =>
        var sourceTo := [];
        if m.to != [] {
          sourceTo := sourceTo + [m.to[0]];
        }
        newSender, to, cc := TransformRecipientList(identities, Mail(m.from, sourceTo, []));
        OneRecipient(Keys(identities), sourceTo);
    }
  }

  // ----- A reply to all -----

  // The sender first, then everybody else of both lists except oneself: once, and in the order of the
  // source. No address is in the two new lists twice, apart from the sender's.
  lemma ReplyGoesToAll(own: set<Key>, m: Mail)
    ensures var to, cc := ReplyTo(own, m), ReplyCc(own, m);
            var rest := to[1..] + cc;
            && to[0] == m.from
            && rest == NewOnes(own, m.to + m.cc)
            && (forall k :: k in rest <==> k in m.to + m.cc && k !in own)
            && (forall i, j :: 0 <= i < j < |rest| ==> rest[i] != rest[j])
            && InOrder(rest, m.to + m.cc)
  {
    NewOnesAppend(own, m.to, m.cc);
    NewOnesElements(own, m.to + m.cc);
    NewOnesOrder(own, m.to + m.cc);
    hide NewOnes;
    var rest := ReplyTo(own, m)[1..] + ReplyCc(own, m);
    assert forall i, j :: 0 <= i < j < |rest| ==> Before(m.to + m.cc, rest[i], rest[j]);
  }

  // The sender is not in the index, so a sender who also was a recipient gets the reply twice.
  lemma SenderRepeats(own: set<Key>, m: Mail)
    ensures m.from in ReplyTo(own, m)[1..] + ReplyCc(own, m) <==> m.from in m.to + m.cc && m.from !in own
    ensures (exists k :: k in own && k in ReplyTo(own, m) + ReplyCc(own, m)) <==> m.from in own
  {
    ReplyGoesToAll(own, m);
    var to, cc := ReplyTo(own, m), ReplyCc(own, m);
    assert to == [m.from] + to[1..];
    assert forall k :: k in to + cc <==> k == m.from || k in to[1..] + cc;
  }

  // ----- A thread of replies -----

  function Participants(m: Mail): set<Key> { {m.from} + Keys(m.to) + Keys(m.cc) }

  // A reply to all by someone who has these identities and sends as one of them.
  datatype Reply = Reply(own: set<Key>, sendAs: Key)

  function Answer(m: Mail, r: Reply): Mail { Mail(r.sendAs, ReplyTo(r.own, m), ReplyCc(r.own, m)) }

  // One's own other identities are left out, nobody else is, and nobody comes in but the one replying.
  lemma AnswerParticipants(m: Mail, r: Reply)
    ensures Participants(Answer(m, r)) == (Participants(m) - r.own) + {m.from, r.sendAs}
    ensures Participants(m) <= Participants(Answer(m, r)) <==>
              forall k :: k in Participants(m) && k in r.own ==> k == m.from || k == r.sendAs
  {
    var to, cc := ReplyTo(r.own, m), ReplyCc(r.own, m);
    forall k
      ensures k in Keys(to) + Keys(cc) <==> k == m.from || (k in Keys(m.to) + Keys(m.cc) && k !in r.own)
    {
      GoesTo(r.own, m, k);
    }
    hide ReplyTo, ReplyCc, Keys;
  }

  lemma GoesTo(own: set<Key>, m: Mail, k: Key)
    ensures k in ReplyTo(own, m) || k in ReplyCc(own, m) <==>
              k == m.from || ((k in m.to || k in m.cc) && k !in own)
  {
    ReplyGoesToAll(own, m);
    hide NewOnes, InOrder;
    var to, cc := ReplyTo(own, m), ReplyCc(own, m);
    assert to == [m.from] + to[1..];
    hide ReplyTo, ReplyCc;
    assert k in to[1..] + cc <==> k in to[1..] || k in cc;
    assert k in m.to + m.cc <==> k in m.to || k in m.cc;
  }

  function Thread(m: Mail, replies: seq<Reply>): Mail
    decreases |replies|
  {
    if replies == [] then m else Thread(Answer(m, replies[0]), replies[1..])
  }

  // However long a thread of replies to all gets, as long as each is by a participant with one
  // identity, it goes to the same people.
  lemma {:induction false} ThreadKeepsGroup(m: Mail, replies: seq<Reply>)
    requires forall r :: r in replies ==> r.sendAs in Participants(m) && r.own == {r.sendAs}
    ensures Participants(Thread(m, replies)) == Participants(m)
    decreases |replies|
  {
    if replies != [] {
      assert replies[0] in replies;
      AnswerParticipants(m, replies[0]);
      assert Participants(Answer(m, replies[0])) == Participants(m);
      assert forall r :: r in replies[1..] ==> r in replies;
      hide Participants, Answer;
      ThreadKeepsGroup(Answer(m, replies[0]), replies[1..]);
    }
  }
}
