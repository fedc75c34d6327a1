/** Exactly which properties survive printing and parsing. */
module VCardExact {
  import opened Text
  import opened VCard
  import opened VCardRoundTrip

  // ----- Parameters -----

  // A character that ends a token, a name or a line.
  predicate Mark(c: char) { c == ';' || c == ':' || c == '\n' }

  lemma UpperFree(s: string, c: char)
    requires Mark(c) && Free(s, c)
    ensures Free(ToUpper(s), c) && Upper(ToUpper(s))
  {
    var u := ToUpper(s);
    assert forall k :: 0 <= k < |u| ==> s[k] in s && u[k] != c && UpperChar(u[k]) == u[k];
  }

  lemma {:induction false} TypedTexts(values: seq<string>, c: char)
    requires Mark(c) && forall k :: 0 <= k < |values| ==> Free(values[k], c)
    ensures var texts := ParamTexts(Typed(values));
            |texts| == |values| && forall k :: 0 <= k < |texts| ==> Upper(texts[k]) && Free(texts[k], c)
  {
    if values != [] {
      UpperFree(values[0], c);
      TypedTexts(values[1..], c);
    }
  }

  lemma RightFree(s: string, n: int, c: char)
    requires Free(s, c)
    ensures Free(Right(s, n), c)
  {}

  // What one token is printed back as: at least one text, in upper case and without the mark.
  lemma TokenTexts(token: string, c: char)
    requires Mark(c) && Free(token, c)
    ensures var texts := ParamTexts(ParseToken(token));
            |texts| >= 1 && forall k :: 0 <= k < |texts| ==> Upper(texts[k]) && Free(texts[k], c)
  {
    hide Upper, Right;
    if StartsWith(token, "TYPE") {
      var right := Right(token, |token| - 5);
      RightFree(token, |token| - 5, c);
      forall k | 0 <= k < |Split(right, ',')|
        ensures Free(Split(right, ',')[k], c)
      {
        SplitParts(right, ',', k);
      }
      TypedTexts(Split(right, ','), c);
    } else if StartsWith(token, "ENCODING") {
      RightFree(token, |token| - 9, c);
      UpperFree("ENCODING=" + Right(token, |token| - 9), c);
    } else if StartsWith(token, "CHARSET") {
      RightFree(token, |token| - 8, c);
      UpperFree("CHARSET=" + Right(token, |token| - 8), c);
    } else {
      UpperFree(token, c);
    }
  }

  lemma {:induction false} AllTexts(tokens: seq<string>, c: char)
    requires Mark(c) && forall k :: 0 <= k < |tokens| ==> Free(tokens[k], c)
    ensures var texts := ParamTexts(ParseTokens(tokens));
            |texts| >= |tokens| && forall k :: 0 <= k < |texts| ==> Upper(texts[k]) && Free(texts[k], c)
  {
    if tokens != [] {
      TokenTexts(tokens[0], c);
      AllTexts(tokens[1..], c);
      TextsOfConcat(ParseToken(tokens[0]), ParseTokens(tokens[1..]));
      hide Upper, ParseToken, Free;
    }
  }

  // Tokens that are all printed back as themselves are stable.
  lemma {:induction false} TokensExact(tokens: seq<string>)
    requires forall k :: 0 <= k < |tokens| ==> Upper(tokens[k]) && Free(tokens[k], ';')
    requires ParamTexts(ParseTokens(tokens)) == tokens
    ensures forall k :: 0 <= k < |tokens| ==> Stable(tokens[k])
  {
    if tokens != [] {
      var first, rest := ParamTexts(ParseToken(tokens[0])), ParamTexts(ParseTokens(tokens[1..]));
      TextsOfConcat(ParseToken(tokens[0]), ParseTokens(tokens[1..]));
      assert first + rest == tokens;
      TokenTexts(tokens[0], ';');
      AllTexts(tokens[1..], ';');
      hide Upper, ParseToken, Stable;
      assert |first| == 1 && first == [tokens[0]] && rest == tokens[1..] by {
        assert (first + rest)[0] == first[0] && (first + rest)[|first|..] == rest;
      }
      TokenReprint(tokens[0]);
      TokensExact(tokens[1..]);
    }
  }

  lemma {:induction false} JoinUpper(parts: seq<string>)
    requires forall k :: 0 <= k < |parts| ==> Upper(parts[k])
    ensures ToUpper(Join(parts, ';')) == Join(parts, ';')
  {
    if |parts| > 1 {
      JoinUpper(parts[1..]);
      var a, b := parts[0], Join(parts[1..], ';');
      assert ToUpper(a) == a;
      assert forall k :: 0 <= k < |a| ==> UpperChar(a[k]) == ToUpper(a)[k] == a[k];
      assert forall k :: 0 <= k < |b| ==> UpperChar(b[k]) == ToUpper(b)[k] == b[k];
    }
  }

  // A parameter text that simplified() leaves alone comes back exactly when its tokens are stable.
  lemma ParamsExact(text: string)
    requires Simplified(text) == text && Upper(text)
    ensures ParamsText(ParseParams(text)) == text <==>
              forall k :: 0 <= k < |Split(text, ';')| ==> Stable(Split(text, ';')[k])
  {
    var tokens := Split(text, ';');
    forall k | 0 <= k < |tokens|
      ensures Upper(tokens[k]) && Free(tokens[k], ';')
    {
      UpperParts(text, ';', k);
      SplitParts(text, ';', k);
    }
    var texts := ParamTexts(ParseTokens(tokens));
    AllTexts(tokens, ';');
    JoinUpper(texts);
    JoinOfSplit(text, ';');
    hide Upper, Stable, ParseTokens, ParamTexts, Free, Simplified;
    SplitOfJoin(texts, ';');
    if texts == tokens {
      TokensExact(tokens);
    }
    if forall k :: 0 <= k < |tokens| ==> Stable(tokens[k]) {
      TokensReprint(tokens);
    }
  }

  // No colon or newline comes in by parsing and printing.
  lemma ParamsFree(text: string, c: char)
    requires Free(text, c) && (c == ':' || c == '\n')
    ensures Free(ParamsText(ParseParams(text)), c)
  {
    var simple := Simplified(text);
    SimplifiedChars(text);
    var tokens := Split(simple, ';');
    forall k | 0 <= k < |tokens|
      ensures Free(tokens[k], c)
    {
      SplitParts(simple, ';', k);
    }
    AllTexts(tokens, c);
    hide Upper, ParseTokens;
    JoinFree(ParamTexts(ParseTokens(tokens)), c, ';');
    UpperFree(Join(ParamTexts(ParseTokens(tokens)), ';'), c);
  }

  // ----- One property -----

  // One property comes back, with the same name, values and text.
  ghost predicate Survives(p: Property)
  {
    exists q :: ParseProperties(PropertyText(p)) == [q] && SameProperty(q, p) && PropertyText(q) == PropertyText(p)
  }

  function Suffix(params: string): string { if params == "" then "" else ";" + params }

  lemma SameSuffix(name: string, a: string, b: string, values: string)
    requires name + Suffix(a) + ":" + values == name + Suffix(b) + ":" + values
    ensures a == b
  {
    var s, t := name + Suffix(a) + ":" + values, name + Suffix(b) + ":" + values;
    assert s[|name|..|name| + |Suffix(a)|] == Suffix(a) && t[|name|..|name| + |Suffix(b)|] == Suffix(b);
    assert a != "" ==> Suffix(a)[1..] == a;
    assert b != "" ==> Suffix(b)[1..] == b;
  }

  // What a line that holds one property says of it.
  lemma LineTells(line: string, q: Property)
    requires ParseLine(line) == [q]
    ensures Free(q.name, ':') && Free(q.name, ';') && q.name != VERSION && |q.values| > 0
    ensures forall k :: 0 <= k < |q.values| ==> Free(q.values[k], ':') && Free(q.values[k], ';')
    ensures exists text :: Free(text, ':') && q.params == ParseParams(text)
  {
    var tokens := Split(line, ':');
    SplitParts(line, ':', 0);
    SplitParts(line, ':', 1);
    var names := Split(tokens[0], ';');
    SplitParts(tokens[0], ';', 0);
    forall k | 0 <= k < |q.values|
      ensures Free(q.values[k], ':') && Free(q.values[k], ';')
    {
      SplitParts(tokens[1], ';', k);
    }
    forall k | 0 <= k < |names[1..]|
      ensures Free(names[1..][k], ':')
    {
      SplitParts(tokens[0], ';', k + 1);
    }
    JoinFree(names[1..], ':', ';');
    hide ParseParams;
    assert Free(Join(names[1..], ';'), ':') && q.params == ParseParams(Join(names[1..], ';'));
  }

  lemma OneLine(line: string, q: Property)
    requires Free(line, '\n') && ParseProperties(line) == [q]
    ensures line != BEGIN_TOKEN && line != END_TOKEN && ParseLine(line) == [q]
  {
    SplitFree(line, '\n');
    assert [line][1..] == [];
    hide ParseLine;
    assert ParseLines([]) == [];
  }

  // What comes back has the parameter text that was printed, and that text has no colon.
  lemma SameParams(p: Property, q: Property)
    requires ParseLine(PropertyText(p)) == [q] && SameProperty(q, p) && PropertyText(q) == PropertyText(p)
    ensures ParamsText(q.params) == ParamsText(p.params) && Free(ParamsText(p.params), ':')
  {
    LineTells(PropertyText(p), q);
    hide ParseLine, ParamsText, ParseParams;
    SameSuffix(p.name, ParamsText(p.params), ParamsText(q.params), Join(p.values, ';'));
    var s :| Free(s, ':') && q.params == ParseParams(s);
    ParamsFree(s, ':');
  }

  // So the parser reads just that text.
  lemma ReadsParams(p: Property, q: Property)
    requires ParseLine(PropertyText(p)) == [q] && SameProperty(q, p) && PropertyText(q) == PropertyText(p)
    ensures q.params == ParseParams(ParamsText(p.params))
  {
    SameParams(p, q);
    LineTells(PropertyText(p), q);
    hide ParseLine, ParamsText, ParseParams;
    ParsePrintedLine(p.name, ParamsText(p.params), p.values);
  }

  lemma ParamsAreOk(p: Property, q: Property)
    requires ParseLine(PropertyText(p)) == [q] && SameProperty(q, p) && PropertyText(q) == PropertyText(p)
    requires Simplified(ParamsText(p.params)) == ParamsText(p.params)
    ensures ParamsOk(ParamsText(p.params))
  {
    hide PropertyText, ParseLine, ParamsText, ParseParams, Simplified, Upper, Stable, Free;
    SameParams(p, q);
    ReadsParams(p, q);
    ParamsUpper(p.params);
    AllOk(ParamsText(p.params));
  }

  lemma AllOk(text: string)
    requires Free(text, ':') && Simplified(text) == text && Upper(text) && ParamsText(ParseParams(text)) == text
    ensures ParamsOk(text)
  {
    ParamsExact(text);
    hide ParamsText, ParseParams;
    forall k | 0 <= k < |Split(text, ';')|
      ensures Stable(Split(text, ';')[k])
    {
    }
  }

  lemma SurvivesOnlyIf(p: Property, q: Property)
    requires Simplified(PropertyText(p)) == PropertyText(p)
    requires Simplified(ParamsText(p.params)) == ParamsText(p.params)
    requires ParseProperties(PropertyText(p)) == [q] && SameProperty(q, p) && PropertyText(q) == PropertyText(p)
    ensures PropertyOk(p)
  {
    hide PropertyText, ParseLine, ParseProperties, ParamsText, ParseParams, Simplified, ParamsOk, Free;
    NoNewline(PropertyText(p));
    OneLine(PropertyText(p), q);
    LineTells(PropertyText(p), q);
    ParamsAreOk(p, q);
  }

  lemma ParamsUpper(params: seq<Param>)
    ensures Upper(ParamsText(params))
  {
    var s := Join(ParamTexts(params), ';');
    assert forall k :: 0 <= k < |s| ==> UpperChar(ToUpper(s)[k]) == ToUpper(s)[k];
  }

  // For a property whose line and parameters are as simplified() leaves them: it comes back, and as the
  // same text, exactly when it is well-formed.
  lemma SurvivesExactly(p: Property)
    requires Simplified(PropertyText(p)) == PropertyText(p)
    requires Simplified(ParamsText(p.params)) == ParamsText(p.params)
    ensures Survives(p) <==> PropertyOk(p)
  {
    hide Simplified, PropertyText, ParseProperties, ParamsText;
    if Survives(p) {
      var q :| ParseProperties(PropertyText(p)) == [q] && SameProperty(q, p) && PropertyText(q) == PropertyText(p);
      SurvivesOnlyIf(p, q);
    }
    if PropertyOk(p) {
      ParseOnePrinted(p);
      ReparsedSame(p);
      assert Survives(p);
    }
  }

  // ----- A whole card -----

  predicate Settled(p: Property)
  {
    Simplified(PropertyText(p)) == PropertyText(p) && Simplified(ParamsText(p.params)) == ParamsText(p.params)
  }

  // One card comes back, with equal properties in the same order, and prints as the same bytes.
  ghost predicate CardSurvives(props: seq<Property>)
  {
    exists qs :: ComesBackAs(props, qs)
  }

  ghost predicate ComesBackAs(props: seq<Property>, qs: seq<Property>)
  {
    && ParseCardText(CardText(props)) == [qs]
    && |qs| == |props| && (forall k :: 0 <= k < |props| ==> SameProperty(qs[k], props[k]))
    && CardText(qs) == CardText(props)
  }

  lemma {:induction false} AddCounts(props: seq<Property>, p: Property)
    ensures |Add(props, p)| <= |props| + 1
    ensures |Add(props, p)| == |props| + 1 ==>
              Add(props, p) == props + [p] && forall k :: 0 <= k < |props| ==> !SameKey(props[k], p)
  {
    if props != [] {
      AddCounts(props[1..], p);
    }
  }

  // A line of a card that has begun: it ends the card, or adds at most one property.
  lemma StepOverLine(line: string, rest: seq<string>, current: seq<Property>)
    requires Simplified(line) == line
    ensures |ParseProperties(line)| <= 1
    ensures var next := if line == END_TOKEN then [current] + ParseCards(rest, false, current)
                        else ParseCards(rest, true, AddAll(current, ParseProperties(line)));
            ParseCards([line] + rest, true, current) == next
  {
    NoNewline(line);
    SplitFree(line, '\n');
    assert [line][1..] == [] && ([line] + rest)[1..] == rest;
    hide ParseLine, Simplified;
    assert ParseLines([]) == [];
    assert |ParseLine(line)| <= 1 by { LineHoldsOne(line); }
  }

  lemma LineHoldsOne(line: string)
    ensures |ParseLine(line)| <= 1
  {}

  lemma OneAdded(current: seq<Property>, ps: seq<Property>)
    requires |ps| <= 1
    ensures |AddAll(current, ps)| <= |current| + 1
    ensures |AddAll(current, ps)| == |current| + 1 ==>
              && |ps| == 1 && AddAll(current, ps) == current + ps
              && forall k :: 0 <= k < |current| ==> !SameKey(current[k], ps[0])
  {
    hide Add;
    if ps != [] {
      AddCounts(current, ps[0]);
      assert ps == [ps[0]] && ps[1..] == [];
      assert AddAll(current, ps) == AddAll(Add(current, ps[0]), []);
    }
  }

  // The first card read has at most one property a line; if it has as many as lines, each line held
  // one, and no two had the same name and parameters.
  lemma {:induction false} CountLines(texts: seq<string>, current: seq<Property>)
    requires forall k :: 0 <= k < |texts| ==> Simplified(texts[k]) == texts[k]
    ensures var r := ParseCards(texts + [END_TOKEN], true, current);
            && |r| > 0 && |r[0]| <= |current| + |texts|
            && (|r[0]| == |current| + |texts| ==>
                  && current <= r[0]
                  && (forall k :: 0 <= k < |texts| ==> ParseProperties(texts[k]) == [r[0][|current| + k]])
                  && (DistinctProperties(current) ==> DistinctProperties(r[0])))
    decreases |texts|
  {
    hide Simplified, ParseCards, ParseProperties, AddAll;
    if texts == [] {
      assert texts + [END_TOKEN] == [END_TOKEN] + [];
      ParseEnd(current, []);
    } else {
      var rest := texts[1..] + [END_TOKEN];
      var ps := ParseProperties(texts[0]);
      assert texts + [END_TOKEN] == [texts[0]] + rest;
      StepOverLine(texts[0], rest, current);
      if texts[0] != END_TOKEN {
        OneAdded(current, ps);
        CountLines(texts[1..], AddAll(current, ps));
        var r := ParseCards(rest, true, AddAll(current, ps));
        hide SameKey;
        if |r[0]| == |current| + |texts| {
          assert AddAll(current, ps) == current + ps && ps == [r[0][|current|]];
          forall k | 0 <= k < |texts|
            ensures ParseProperties(texts[k]) == [r[0][|current| + k]]
          {
            if k > 0 { assert texts[k] == texts[1..][k - 1]; }
          }
        }
      }
    }
  }

  // The lines of a card whose texts hold no newline are read as they were printed.
  lemma PrintedLines(props: seq<Property>)
    requires forall k :: 0 <= k < |props| ==> Free(PropertyText(props[k]), '\n')
    ensures Split(CardText(props), '\n') == CardLines(props)
    ensures ParseCardText(CardText(props)) == ParseCards(PropertyTexts(props) + [END_TOKEN], true, [])
  {
    hide PropertyText, PropertyTexts, ParseCards, Split, Join, Free;
    FreeLines(props);
    SplitOfJoin(CardLines(props), '\n');
    VersionText();
    assert CardLines(props) == [BEGIN_TOKEN, VERSION_LINE] + (PropertyTexts(props) + [END_TOKEN]);
    ParseHeader(PropertyTexts(props) + [END_TOKEN], []);
  }

  // A property read from a line is printed without a newline.
  lemma ReadPrintsFree(line: string, q: Property)
    requires Free(line, '\n') && ParseLine(line) == [q]
    ensures Free(PropertyText(q), '\n')
  {
    var tokens := Split(line, ':');
    SplitParts(line, ':', 0);
    SplitParts(line, ':', 1);
    var names := Split(tokens[0], ';');
    forall k | 0 <= k < |names|
      ensures Free(names[k], '\n')
    {
      SplitParts(tokens[0], ';', k);
    }
    forall k | 0 <= k < |q.values|
      ensures Free(q.values[k], '\n')
    {
      SplitParts(tokens[1], ';', k);
    }
    hide ParseParams, ParamsText, Join, Split;
    JoinFree(names[1..], '\n', ';');
    JoinFree(q.values, '\n', ';');
    ParamsFree(Join(names[1..], ';'), '\n');
  }

  lemma SameMiddle<T>(head: seq<T>, x: seq<T>, y: seq<T>, last: T)
    requires head + x + [last] == head + y + [last]
    ensures x == y
  {
    var s, t := head + x + [last], head + y + [last];
    assert s[|head|..|head| + |x|] == x && t[|head|..|head| + |y|] == y;
  }

  lemma LineByLine(props: seq<Property>, qs: seq<Property>)
    requires CardText(qs) == CardText(props)
    requires forall k :: 0 <= k < |props| ==> Free(PropertyText(props[k]), '\n')
    requires forall k :: 0 <= k < |qs| ==> Free(PropertyText(qs[k]), '\n')
    ensures |qs| == |props| && forall k :: 0 <= k < |props| ==> PropertyText(qs[k]) == PropertyText(props[k])
  {
    PrintedLines(props);
    PrintedLines(qs);
    hide PropertyText, PropertyTexts, Split, Free, CardText, ParseCards, ParseCardText;
    var head := [BEGIN_TOKEN, PropertyText(Property(VERSION, ["2.1"], []))];
    assert CardLines(props) == head + PropertyTexts(props) + [END_TOKEN];
    assert CardLines(qs) == head + PropertyTexts(qs) + [END_TOKEN];
    hide CardLines;
    SameMiddle(head, PropertyTexts(props), PropertyTexts(qs), END_TOKEN);
    forall k | 0 <= k < |props|
      ensures PropertyText(qs[k]) == PropertyText(props[k])
    {
      TextsAt(props, k);
      TextsAt(qs, k);
    }
  }

  // What came back was read line by line.
  lemma EachLineOne(props: seq<Property>, qs: seq<Property>)
    requires forall k :: 0 <= k < |props| ==> Settled(props[k])
    requires ComesBackAs(props, qs)
    ensures forall k :: 0 <= k < |props| ==> ParseProperties(PropertyText(props[k])) == [qs[k]]
    ensures DistinctProperties(qs)
    ensures forall k :: 0 <= k < |props| ==> PropertyText(qs[k]) == PropertyText(props[k])
  {
    var texts := PropertyTexts(props);
    hide Simplified, PropertyText, PropertyTexts, ParamsText, ParseCards, ParseProperties, ParseCardText, CardText;
    hide Free;
    forall k | 0 <= k < |props|
      ensures texts[k] == PropertyText(props[k]) && Simplified(texts[k]) == texts[k] && Free(texts[k], '\n')
    {
      TextsAt(props, k);
      assert Settled(props[k]);
      NoNewline(texts[k]);
    }
    hide Settled;
    PrintedLines(props);
    CountLines(texts, []);
    forall k | 0 <= k < |qs|
      ensures Free(PropertyText(qs[k]), '\n')
    {
      OneLine(texts[k], qs[k]);
      ReadPrintsFree(texts[k], qs[k]);
    }
    LineByLine(props, qs);
  }

  lemma KeysDiffer(props: seq<Property>, qs: seq<Property>, j: nat, k: nat)
    requires j < k < |props| == |qs| && DistinctProperties(qs)
    requires ParseLine(PropertyText(props[j])) == [qs[j]] && ParseLine(PropertyText(props[k])) == [qs[k]]
    requires SameProperty(qs[j], props[j]) && SameProperty(qs[k], props[k])
    requires PropertyText(qs[j]) == PropertyText(props[j]) && PropertyText(qs[k]) == PropertyText(props[k])
    ensures !(props[j].name == props[k].name && ParamsText(props[j].params) == ParamsText(props[k].params))
  {
    hide ParseLine, PropertyText, ParamsText, ParseParams;
    ReadsParams(props[j], qs[j]);
    ReadsParams(props[k], qs[k]);
    assert !SameKey(qs[j], qs[k]);
  }

  // A card whose lines and parameters are as simplified() leaves them comes back, and as the same bytes,
  // exactly when its properties are well-formed and no two print the same name and parameters.
  lemma CardSurvivesExactly(props: seq<Property>)
    requires forall k :: 0 <= k < |props| ==> Settled(props[k])
    ensures CardSurvives(props) <==> CardOk(props)
  {
    if qs :| ComesBackAs(props, qs) {
      CardSurvivesOnlyIf(props, qs);
    }
    if CardOk(props) {
      PrintParsePrint(props);
      assert ComesBackAs(props, ReparsedAll(props));
    }
  }

  lemma CardSurvivesOnlyIf(props: seq<Property>, qs: seq<Property>)
    requires forall k :: 0 <= k < |props| ==> Settled(props[k])
    requires ComesBackAs(props, qs)
    ensures CardOk(props)
  {
    EachLineOne(props, qs);
    hide CardText, ParseCardText, Simplified, PropertyText, ParamsText, ParseProperties, PropertyOk, DistinctProperties,
         ParseLine, Free;
    forall k | 0 <= k < |props|
      ensures PropertyOk(props[k]) && ParseLine(PropertyText(props[k])) == [qs[k]]
    {
      assert Settled(props[k]) && Survives(props[k]);
      SurvivesExactly(props[k]);
      NoNewline(PropertyText(props[k]));
      OneLine(PropertyText(props[k]), qs[k]);
    }
    hide Settled, Survives;
    forall j, k | 0 <= j < k < |props|
      ensures !(props[j].name == props[k].name && ParamsText(props[j].params) == ParamsText(props[k].params))
    {
      KeysDiffer(props, qs, j, k);
    }
  }
}
