/** Printing a card and parsing it again. */
module VCardRoundTrip {
  import opened Text
  import opened VCard

  // ----- Parameter tokens -----

  predicate Upper(s: string) { ToUpper(s) == s }

  // The printed parameter tokens that parsing and printing again leave as they are.
  predicate Stable(token: string)
  {
    if StartsWith(token, "TYPE") then token == "TYPE"
    else if StartsWith(token, "ENCODING") then |token| > 8 && token[8] == '='
    else if StartsWith(token, "CHARSET") then |token| > 7 && token[7] == '='
    else true
  }

  // An upper-case token is printed back as itself, and as one token, exactly when it is stable.
  lemma TokenReprint(token: string)
    requires Upper(token)
    ensures ParamTexts(ParseToken(token)) == [token] <==> Stable(token)
  {
    if StartsWith(token, "TYPE") {
      var right := Right(token, |token| - 5);
      var parts := Split(right, ',');
      assert ParamTexts(ParseToken(token))[0] == ToUpper(parts[0]);
      if |token| == 4 {
        assert token == "TYPE" && right == token;
        SplitFree(token, ',');
        assert ParseToken(token) == [Param(Type, "TYPE")] + Typed([]);
        assert ParamTexts(ParseToken(token)) == [token];
      } else {
        SplitShorter(right, ',');
        assert |parts[0]| < |token|;
      }
    } else if StartsWith(token, "ENCODING") {
      Reassemble(token, "ENCODING", Encoding);
    } else if StartsWith(token, "CHARSET") {
      Reassemble(token, "CHARSET", Charset);
    } else {
      assert ParseToken(token) == [Param(Undefined, token)] && ParamTexts([Param(Undefined, token)]) == [token];
    }
  }

  lemma {:induction false} SplitShorter(s: string, c: char)
    ensures |Split(s, c)[0]| <= |s|
  {
    if s != "" {
      SplitShorter(s[1..], c);
    }
  }

  // The parser skips one character after the group name without looking at it.
  lemma Reassemble(token: string, group: string, g: Group)
    requires Upper(token) && StartsWith(token, group)
    requires forall v :: ParamText(Param(g, v)) == ToUpper(group + "=" + v)
    ensures var p := Param(g, Right(token, |token| - |group| - 1));
            ParamTexts([p]) == [token] <==> |token| > |group| && token[|group|] == '='
  {
    hide ParamText;
    var n := |group|;
    var value := Right(token, |token| - n - 1);
    assert ParamTexts([Param(g, value)]) == [ToUpper(group + "=" + value)];
    if |token| > n {
      assert group + "=" + value == token[n := '='] by {
        assert value == token[n + 1..] && token[..n] == group;
      }
      UpperText(group + "=" + value, token, n);
    } else {
      assert |group + "=" + value| > |token|;
    }
  }

  // Changing one character of an upper-case text to '=' gives back the text only if it was '='.
  lemma UpperText(changed: string, token: string, at: nat)
    requires Upper(token) && at < |token| && changed == token[at := '=']
    ensures ToUpper(changed) == token <==> token[at] == '='
  {
    assert forall k :: 0 <= k < |token| && k != at ==> ToUpper(changed)[k] == ToUpper(token)[k];
    assert ToUpper(changed)[at] == '=';
  }

  lemma {:induction false} TokensReprint(tokens: seq<string>)
    requires forall k :: 0 <= k < |tokens| ==> Upper(tokens[k]) && Stable(tokens[k])
    ensures ParamTexts(ParseTokens(tokens)) == tokens
  {
    if tokens != [] {
      TokenReprint(tokens[0]);
      TokensReprint(tokens[1..]);
      TextsOfConcat(ParseToken(tokens[0]), ParseTokens(tokens[1..]));
    }
  }

  lemma {:induction false} TextsOfConcat(ps: seq<Param>, qs: seq<Param>)
    ensures ParamTexts(ps + qs) == ParamTexts(ps) + ParamTexts(qs)
  {
    hide ParamTexts, ParamText;
    if ps == [] {
      NoTexts();
      assert ps + qs == qs;
    } else {
      FirstText(ps);
      FirstText(ps + qs);
      assert (ps + qs)[1..] == ps[1..] + qs && (ps + qs)[0] == ps[0];
      TextsOfConcat(ps[1..], qs);
      Associates([ParamText(ps[0])], ParamTexts(ps[1..]), ParamTexts(qs));
    }
  }

  lemma NoTexts()
    ensures ParamTexts([]) == []
  {}

  lemma FirstText(ps: seq<Param>)
    requires ps != []
    ensures ParamTexts(ps) == [ParamText(ps[0])] + ParamTexts(ps[1..])
  {
    hide ParamText;
  }

  lemma Associates<T>(a: seq<T>, b: seq<T>, c: seq<T>)
    ensures a + (b + c) == a + b + c
  {}

  predicate ParamsOk(text: string)
  {
    && Free(text, ':') && Simplified(text) == text && Upper(text)
    && forall k :: 0 <= k < |Split(text, ';')| ==> Stable(Split(text, ';')[k])
  }

  lemma {:induction false} UpperParts(s: string, c: char, k: nat)
    requires Upper(s) && k < |Split(s, c)|
    ensures Upper(Split(s, c)[k])
  {
    SplitParts(s, c, k);
    var part := Split(s, c)[k];
    forall j | 0 <= j < |part|
      ensures UpperChar(part[j]) == part[j]
    {
      assert part[j] in s;
      var i :| 0 <= i < |s| && s[i] == part[j];
      assert ToUpper(s)[i] == s[i];
    }
  }

  // The parameter text of a property survives parsing and printing.
  lemma ParamsReprint(text: string)
    requires ParamsOk(text)
    ensures ParamsText(ParseParams(text)) == text
  {
    var tokens := Split(text, ';');
    forall k | 0 <= k < |tokens|
      ensures Upper(tokens[k]) && Stable(tokens[k])
    {
      UpperParts(text, ';', k);
    }
    TokensReprint(tokens);
    JoinOfSplit(text, ';');
  }

  // ----- One property -----

  predicate PropertyOk(p: Property)
  {
    && Free(p.name, ':') && Free(p.name, ';') && p.name != VERSION
    && |p.values| > 0 && (forall k :: 0 <= k < |p.values| ==> Free(p.values[k], ':') && Free(p.values[k], ';'))
    && ParamsOk(ParamsText(p.params))
    && Simplified(PropertyText(p)) == PropertyText(p)
    && PropertyText(p) != BEGIN_TOKEN && PropertyText(p) != END_TOKEN
  }

  // What a printed property parses to: its parameters come back in the parser's groups.
  function Reparsed(p: Property): Property
  {
    p.(params := ParseParams(ParamsText(p.params)))
  }

  lemma {:induction false} JoinFree(parts: seq<string>, c: char, sep: char)
    requires c != sep && forall k :: 0 <= k < |parts| ==> Free(parts[k], c)
    ensures Free(Join(parts, sep), c)
  {
    if |parts| > 1 {
      JoinFree(parts[1..], c, sep);
    }
  }

  lemma NoNewline(s: string)
    requires Simplified(s) == s
    ensures Free(s, '\n')
  {
    SimplifiedChars(s);
  }

  lemma ParseOnePrinted(p: Property)
    requires PropertyOk(p)
    ensures ParseProperties(PropertyText(p)) == [Reparsed(p)]
    ensures PropertyText(Reparsed(p)) == PropertyText(p)
  {
    var line, text := PropertyText(p), ParamsText(p.params);
    NoNewline(line);
    SplitFree(line, '\n');
    assert ParseProperties(line) == ParseLine(line) + ParseLines([]);
    ParamsReprint(text);
    ParsePrintedLine(p.name, text, p.values);
  }

  // The tokens of a printed line.
  lemma ParsePrintedLine(name: string, text: string, values: seq<string>)
    requires Free(name, ':') && Free(name, ';') && Free(text, ':') && name != VERSION
    requires |values| > 0 && forall k :: 0 <= k < |values| ==> Free(values[k], ':') && Free(values[k], ';')
    ensures ParseLine(name + (if text == "" then "" else ";" + text) + ":" + Join(values, ';'))
            == [Property(name, values, ParseParams(text))]
  {
    hide Split, ParseParams, ParseLine, Join, Free;
    var head, tail := name + (if text == "" then "" else ";" + text), Join(values, ';');
    assert Free(head, ':') by { HeadFree(name, text); }
    JoinFree(values, ':', ';');
    LineTokens(head, tail);
    NameTokens(name, text);
    SplitOfJoin(values, ';');
    SplitLine(head + ":" + tail, head, tail, name, text, values);
  }

  lemma HeadFree(name: string, text: string)
    requires Free(name, ':') && Free(text, ':')
    ensures Free(name + (if text == "" then "" else ";" + text), ':')
  {}

  lemma SplitLine(line: string, head: string, tail: string, name: string, text: string, values: seq<string>)
    requires Split(line, ':') == [head, tail] && Split(tail, ';') == values && name != VERSION
    requires Split(head, ';')[0] == name && Join(Split(head, ';')[1..], ';') == text
    ensures ParseLine(line) == [Property(name, values, ParseParams(text))]
  {
    hide ParseParams, Split, Join;
  }

  lemma LineTokens(head: string, tail: string)
    requires Free(head, ':') && Free(tail, ':')
    ensures Split(head + ":" + tail, ':') == [head, tail]
  {
    hide Split;
    SplitAt(head, ':', tail);
    SplitFree(tail, ':');
  }

  lemma NameTokens(name: string, text: string)
    requires Free(name, ';')
    ensures var tokens := Split(name + (if text == "" then "" else ";" + text), ';');
            tokens[0] == name && Join(tokens[1..], ';') == text
  {
    if text == "" {
      assert name + "" == name;
      SplitFree(name, ';');
    } else {
      assert name + (";" + text) == name + [';'] + text;
      SplitAt(name, ';', text);
      assert Split(name + (";" + text), ';')[1..] == Split(text, ';');
      JoinOfSplit(text, ';');
    }
  }

  // ----- A whole card -----

  function ReparsedAll(props: seq<Property>): (r: seq<Property>)
    ensures |r| == |props|
    ensures forall k :: 0 <= k < |props| ==> r[k] == Reparsed(props[k])
  {
    seq(|props|, k requires 0 <= k < |props| => Reparsed(props[k]))
  }

  // No two properties are printed with the same name and parameters.
  predicate DistinctKeys(props: seq<Property>)
  {
    forall j, k :: 0 <= j < k < |props| ==>
      !(props[j].name == props[k].name && ParamsText(props[j].params) == ParamsText(props[k].params))
  }

  predicate CardOk(props: seq<Property>)
  {
    DistinctKeys(props) && forall k :: 0 <= k < |props| ==> PropertyOk(props[k])
  }

  // The loop of the parser over the lines of the properties from k on, with `more` behind the card.
  lemma {:induction false} ParseRest(props: seq<Property>, k: nat, current: seq<Property>, more: seq<string>)
    requires CardOk(props) && k <= |props|
    ensures var end := AddAll(current, ReparsedAll(props)[k..]);
            ParseCards(PropertyTexts(props[k..]) + [END_TOKEN] + more, true, current)
            == [end] + ParseCards(more, false, end)
    decreases |props| - k
  {
    hide PropertyText, PropertyTexts, ReparsedAll, ParseCards, AddAll, Add, PropertyOk, CardOk, Reparsed;
    if k == |props| {
      AllAdded(props, current, more);
      ParseEnd(current, more);
    } else {
      PropertyOkOf(props, k);
      OneTextMore(props, k, more);
      NextAdded(current, ReparsedAll(props), k);
      StepOverProperty(props[k], PropertyTexts(props[k + 1..]) + [END_TOKEN] + more, current);
      ParseRest(props, k + 1, Add(current, Reparsed(props[k])), more);
    }
  }

  lemma AllAdded(props: seq<Property>, current: seq<Property>, more: seq<string>)
    ensures PropertyTexts(props[|props|..]) + [END_TOKEN] + more == [END_TOKEN] + more
    ensures AddAll(current, ReparsedAll(props)[|props|..]) == current
  {
    hide ReparsedAll;
    assert props[|props|..] == [] && ReparsedAll(props)[|props|..] == [];
  }

  lemma NextAdded(current: seq<Property>, all: seq<Property>, k: nat)
    requires k < |all|
    ensures AddAll(current, all[k..]) == AddAll(Add(current, all[k]), all[k + 1..])
  {
    hide Add;
    assert all[k..][1..] == all[k + 1..];
  }

  lemma OneTextMore(props: seq<Property>, k: nat, more: seq<string>)
    requires k < |props|
    ensures PropertyTexts(props[k..]) + [END_TOKEN] + more
            == [PropertyText(props[k])] + (PropertyTexts(props[k + 1..]) + [END_TOKEN] + more)
  {
    hide PropertyText;
    assert props[k..][1..] == props[k + 1..];
  }

  lemma ParseEnd(all: seq<Property>, more: seq<string>)
    ensures ParseCards([END_TOKEN] + more, true, all) == [all] + ParseCards(more, false, all)
  {
    SolidStays(END_TOKEN);
    assert ([END_TOKEN] + more)[1..] == more;
    assert END_TOKEN[0] != BEGIN_TOKEN[0];
  }

  // No two properties of a list have the same name and parameters.
  predicate DistinctProperties(props: seq<Property>)
  {
    forall j, k :: 0 <= j < k < |props| ==> !SameKey(props[j], props[k])
  }

  // Adding s to f from its k-th property on, when what was before is already as in s.
  lemma {:induction false} Replaced(f: seq<Property>, s: seq<Property>, k: nat)
    requires DistinctProperties(s) && k <= |s| && |f| <= |s| && forall i :: 0 <= i < |f| ==> SameKey(f[i], s[i])
    ensures AddAll(s[..k] + if k < |f| then f[k..] else [], s[k..]) == s
    decreases |s| - k
  {
    var now := s[..k] + if k < |f| then f[k..] else [];
    if k == |s| {
      assert now == s;
    } else {
      AddAt(now, k, s[k]);
      assert s[k..][1..] == s[k + 1..];
      assert Add(now, s[k]) == s[..k + 1] + if k + 1 < |f| then f[k + 1..] else [];
      hide Add;
      Replaced(f, s, k + 1);
    }
  }

  lemma {:induction false} KeysStay(f: seq<Property>, s: seq<Property>)
    ensures |f| <= |AddAll(f, s)| && forall i :: 0 <= i < |f| ==> SameKey(f[i], AddAll(f, s)[i])
    decreases |s|
  {
    if s != [] {
      KeyStays(f, s[0]);
      hide Add;
      KeysStay(Add(f, s[0]), s[1..]);
    }
  }

  lemma {:induction false} KeyStays(f: seq<Property>, p: Property)
    ensures |f| <= |Add(f, p)| && forall i :: 0 <= i < |f| ==> SameKey(f[i], Add(f, p)[i])
  {
    if f != [] {
      KeyStays(f[1..], p);
    }
  }

  // Adding a list of distinct properties to another leaves just that list exactly when the properties
  // there were have the keys with which the list begins.
  lemma LeavesSecond(f: seq<Property>, s: seq<Property>)
    requires DistinctProperties(s)
    ensures AddAll(f, s) == s <==> |f| <= |s| && forall i :: 0 <= i < |f| ==> SameKey(f[i], s[i])
  {
    KeysStay(f, s);
    if |f| <= |s| && forall i :: 0 <= i < |f| ==> SameKey(f[i], s[i]) {
      Replaced(f, s, 0);
      assert s[..0] + (if 0 < |f| then f[0..] else []) == f && s[0..] == s;
    }
  }

  lemma StepOverProperty(p: Property, rest: seq<string>, current: seq<Property>)
    requires PropertyOk(p)
    ensures ParseCards([PropertyText(p)] + rest, true, current) == ParseCards(rest, true, Add(current, Reparsed(p)))
  {
    assert Simplified(PropertyText(p)) == PropertyText(p);
    assert PropertyText(p) != BEGIN_TOKEN && PropertyText(p) != END_TOKEN;
    hide PropertyText, ParseProperties, Simplified, PropertyOk, Reparsed;
    ParseOnePrinted(p);
    var more := [Reparsed(p)];
    assert more[1..] == [];
    assert AddAll(current, more) == AddAll(Add(current, Reparsed(p)), []);
    assert ([PropertyText(p)] + rest)[1..] == rest;
  }

  lemma KeysStayDistinct(props: seq<Property>)
    requires CardOk(props)
    ensures DistinctProperties(ReparsedAll(props))
  {
    hide ParseParams, ParamsText, ParamsOk;
    var all := ReparsedAll(props);
    forall j, k | 0 <= j < k < |all|
      ensures !SameKey(all[j], all[k])
    {
      assert PropertyOk(props[j]) && PropertyOk(props[k]);
      ParamsReprint(ParamsText(props[j].params));
      ParamsReprint(ParamsText(props[k].params));
    }
  }

  lemma {:induction false} TextsAt(props: seq<Property>, k: nat)
    requires k < |props|
    ensures PropertyTexts(props)[k] == PropertyText(props[k])
  {
    if k > 0 {
      TextsAt(props[1..], k - 1);
    }
  }

  const VERSION_LINE := "VERSION:2.1"

  lemma HeaderLines()
    ensures Simplified(BEGIN_TOKEN) == BEGIN_TOKEN && Simplified(END_TOKEN) == END_TOKEN
    ensures Simplified(VERSION_LINE) == VERSION_LINE && ParseProperties(VERSION_LINE) == []
  {
    hide Simplified, Tail, Inner, InnerSkip;
    SolidStays(BEGIN_TOKEN);
    SolidStays(END_TOKEN);
    SolidStays(VERSION_LINE);
    hide ParseProperties;
    VersionLine();
  }

  // The parser ignores the version.
  lemma VersionLine()
    ensures ParseProperties(VERSION_LINE) == []
  {
    hide ParseParams, Split;
    SplitFree(VERSION_LINE, '\n');
    assert VERSION + ":" + "2.1" == VERSION_LINE;
    LineTokens(VERSION, "2.1");
    SplitFree(VERSION, ';');
  }

  lemma VersionText()
    ensures PropertyText(Property(VERSION, ["2.1"], [])) == VERSION_LINE
  {
    assert Join(["2.1"], ';') == "2.1" && ParamsText([]) == "";
  }

  // The first two lines of every printed card start the parser, on what is left of the card before.
  lemma ParseHeader(lines: seq<string>, current: seq<Property>)
    ensures ParseCards([BEGIN_TOKEN, VERSION_LINE] + lines, false, current) == ParseCards(lines, true, current)
  {
    hide Simplified, ParseProperties;
    HeaderLines();
    var all := [BEGIN_TOKEN, VERSION_LINE] + lines;
    assert all[1..] == [VERSION_LINE] + lines && all[1..][1..] == lines;
    assert ParseCards(all[1..], true, current) == ParseCards(lines, true, AddAll(current, []));
  }

  // Print, parse, print: one card comes back, its properties equal the printed ones, and it prints
  // as the same bytes.
  lemma PrintParsePrint(props: seq<Property>)
    requires CardOk(props)
    ensures ParseCardText(CardText(props)) == [ReparsedAll(props)]
    ensures forall k :: 0 <= k < |props| ==> SameProperty(ReparsedAll(props)[k], props[k])
    ensures CardText(ReparsedAll(props)) == CardText(props)
  {
    hide PropertyText, ParseCardText, Reparsed, CardOk;
    ParsePrinted(props);
    ReprintAll(props);
    VersionText();
    forall k | 0 <= k < |props|
      ensures SameProperty(ReparsedAll(props)[k], props[k])
    {
      ReparsedSame(props[k]);
    }
  }

  lemma ParsePrinted(props: seq<Property>)
    requires CardOk(props)
    ensures ParseCardText(CardText(props)) == [ReparsedAll(props)]
  {
    hide PropertyText, ParseCards, Join, Split, ReparsedAll, CardOk;
    var lines, all := CardLines(props), ReparsedAll(props);
    LinesFree(props);
    SplitOfJoin(lines, '\n');
    assert lines == lines + [];
    ParseCardLines(props, [], []);
    KeysStayDistinct(props);
    LeavesSecond([], all);
    NoMoreLines(all);
  }

  lemma NoMoreLines(current: seq<Property>)
    ensures ParseCards([], false, current) == []
  {}

  // A printed card in front of other lines, when the parser has read `current` before it.
  lemma ParseCardLines(props: seq<Property>, current: seq<Property>, more: seq<string>)
    requires CardOk(props)
    ensures var end := AddAll(current, ReparsedAll(props));
            ParseCards(CardLines(props) + more, false, current) == [end] + ParseCards(more, false, end)
  {
    hide PropertyText, ParseCards, ReparsedAll, CardOk, AddAll;
    var rest := PropertyTexts(props) + [END_TOKEN] + more;
    VersionText();
    assert CardLines(props) + more == [BEGIN_TOKEN, VERSION_LINE] + rest;
    ParseHeader(rest, current);
    assert props[0..] == props && ReparsedAll(props)[0..] == ReparsedAll(props);
    ParseRest(props, 0, current, more);
  }

  // Two printed cards in one text: the first comes back alone, the second with the properties of the
  // first before its own, replaced where names and parameters agree. It comes back alone exactly when
  // the first has no other properties than those with which the second begins.
  lemma TwoCards(first: seq<Property>, second: seq<Property>)
    requires CardOk(first) && CardOk(second)
    ensures var a, b := ReparsedAll(first), ReparsedAll(second);
            && ParseCardText(CardText(first) + "\n" + CardText(second)) == [a, AddAll(a, b)]
            && (AddAll(a, b) == b <==> |a| <= |b| && forall i :: 0 <= i < |a| ==> SameKey(a[i], b[i]))
  {
    hide PropertyText, ParseCards, Split, ReparsedAll, CardOk;
    var a, b := ReparsedAll(first), ReparsedAll(second);
    LinesFree(first);
    LinesFree(second);
    JoinOfBoth(CardLines(first), CardLines(second), '\n');
    FreeBoth(CardLines(first), CardLines(second));
    hide Join, CardLines;
    SplitOfJoin(CardLines(first) + CardLines(second), '\n');
    ParseCardLines(first, [], CardLines(second));
    KeysStayDistinct(first);
    LeavesSecond([], a);
    assert CardLines(second) == CardLines(second) + [];
    ParseCardLines(second, a, []);
    NoMoreLines(AddAll(a, b));
    KeysStayDistinct(second);
    LeavesSecond(a, b);
  }

  lemma {:induction false} JoinOfBoth(a: seq<string>, b: seq<string>, c: char)
    requires a != [] && b != []
    ensures Join(a + b, c) == Join(a, c) + [c] + Join(b, c)
  {
    if |a| == 1 {
      assert a + b == [a[0]] + b && (a + b)[1..] == b;
    } else {
      JoinOfBoth(a[1..], b, c);
      assert (a + b)[1..] == a[1..] + b;
    }
  }

  lemma FreeBoth(a: seq<string>, b: seq<string>)
    requires forall k :: 0 <= k < |a| ==> Free(a[k], '\n')
    requires forall k :: 0 <= k < |b| ==> Free(b[k], '\n')
    ensures forall k :: 0 <= k < |a + b| ==> Free((a + b)[k], '\n')
  {
    hide Free;
  }

  lemma ReparsedSame(p: Property)
    ensures SameProperty(Reparsed(p), p)
  {}

  lemma LinesFree(props: seq<Property>)
    requires CardOk(props)
    ensures forall k :: 0 <= k < |CardLines(props)| ==> Free(CardLines(props)[k], '\n')
  {
    hide PropertyText, Simplified, CardOk, Free;
    forall k | 0 <= k < |props|
      ensures Free(PropertyText(props[k]), '\n')
    {
      PropertyOkOf(props, k);
      NoNewline(PropertyText(props[k]));
    }
    FreeLines(props);
  }

  lemma FreeLines(props: seq<Property>)
    requires forall k :: 0 <= k < |props| ==> Free(PropertyText(props[k]), '\n')
    ensures forall k :: 0 <= k < |CardLines(props)| ==> Free(CardLines(props)[k], '\n')
  {
    hide PropertyText, Simplified, Free;
    HeaderLines();
    VersionText();
    var texts := PropertyTexts(props);
    forall k | 0 <= k < |texts|
      ensures Free(texts[k], '\n')
    {
      TextsAt(props, k);
    }
    NoNewline(BEGIN_TOKEN);
    NoNewline(END_TOKEN);
    NoNewline(VERSION_LINE);
    Surround(BEGIN_TOKEN, VERSION_LINE, texts, END_TOKEN);
  }

  lemma Surround(first: string, second: string, texts: seq<string>, last: string)
    requires Free(first, '\n') && Free(second, '\n') && Free(last, '\n')
    requires forall k :: 0 <= k < |texts| ==> Free(texts[k], '\n')
    ensures forall k :: 0 <= k < |texts| + 3 ==> Free(([first, second] + texts + [last])[k], '\n')
  {
    hide Free;
  }

  lemma PropertyOkOf(props: seq<Property>, k: nat)
    requires CardOk(props) && k < |props|
    ensures PropertyOk(props[k]) && Simplified(PropertyText(props[k])) == PropertyText(props[k])
  {
    assert PropertyOk(props[k]);
  }

  lemma ReprintAll(props: seq<Property>)
    requires CardOk(props)
    ensures PropertyTexts(ReparsedAll(props)) == PropertyTexts(props)
  {
    hide PropertyText;
    forall k | 0 <= k < |props|
      ensures PropertyTexts(ReparsedAll(props))[k] == PropertyTexts(props)[k]
    {
      TextsAt(ReparsedAll(props), k);
      TextsAt(props, k);
      assert PropertyOk(props[k]);
      ParseOnePrinted(props[k]);
    }
  }
}
