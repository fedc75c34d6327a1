/** The vCard printer and parser of vCard/, in the default version 2.1. */
module VCard {
  import opened Text

  const BEGIN_TOKEN := "BEGIN:VCARD"
  const END_TOKEN := "END:VCARD"
  const VERSION := "VERSION"

  datatype Group = Type | Encoding | Charset | Undefined

  datatype Param = Param(group: Group, value: string)

  datatype Property = Property(name: string, values: seq<string>, params: seq<Param>)
  {
    // value(): the components joined again
    function Value(): string { Join(values, ';') }
  }

  // operator==, which ignores the parameters
  predicate SameProperty(p: Property, q: Property) { p.name == q.name && p.values == q.values }

  // ----- Parameters -----

  function ParamText(p: Param): string
  {
    ToUpper(match p.group
            case Charset => "CHARSET=" + p.value
            case Encoding => "ENCODING=" + p.value
            case _ => p.value)
  }

  function ParamTexts(ps: seq<Param>): (ts: seq<string>)
    ensures |ts| == |ps|
  {
    if ps == [] then [] else [ParamText(ps[0])] + ParamTexts(ps[1..])
  }

  function ParamsText(ps: seq<Param>): string { ToUpper(Join(ParamTexts(ps), ';')) }

  function Typed(values: seq<string>): seq<Param>
  {
    if values == [] then [] else [Param(Type, values[0])] + Typed(values[1..])
  }

  function ParseToken(token: string): seq<Param>
  {
    if StartsWith(token, "TYPE") then Typed(Split(Right(token, |token| - 5), ','))
    else if StartsWith(token, "ENCODING") then [Param(Encoding, Right(token, |token| - 9))]
    else if StartsWith(token, "CHARSET") then [Param(Charset, Right(token, |token| - 8))]
    else [Param(Undefined, token)]
  }

  function ParseTokens(tokens: seq<string>): seq<Param>
  {
    if tokens == [] then [] else ParseToken(tokens[0]) + ParseTokens(tokens[1..])
  }

  function ParseParams(text: string): seq<Param> { ParseTokens(Split(Simplified(text), ';')) }

  // ----- Properties -----

  function PropertyText(p: Property): string
  {
    var params := ParamsText(p.params);
    p.name + (if params == "" then "" else ";" + params) + ":" + Join(p.values, ';')
  }

  // The property on one line, if it holds one.
  function ParseLine(line: string): seq<Property>
  {
    var tokens := Split(line, ':');
    if |tokens| < 2 then []
    else
      var nameTokens := Split(tokens[0], ';');
      if nameTokens[0] == VERSION then []
      else [Property(nameTokens[0], Split(tokens[1], ';'), ParseParams(Join(nameTokens[1..], ';')))]
  }

  function ParseLines(lines: seq<string>): seq<Property>
  {
    if lines == [] || lines[0] == BEGIN_TOKEN || lines[0] == END_TOKEN then []
    else ParseLine(lines[0]) + ParseLines(lines[1..])
  }

  // vCardProperty::fromByteArray
  function ParseProperties(data: string): seq<Property> { ParseLines(Split(data, '\n')) }

  // ----- Cards -----

  // addProperty: the first property with the same name and parameters is replaced.
  function Add(props: seq<Property>, p: Property): seq<Property>
  {
    if props == [] then [p]
    else if props[0].name == p.name && props[0].params == p.params then [p] + props[1..]
    else [props[0]] + Add(props[1..], p)
  }

  predicate SameKey(p: Property, q: Property) { p.name == q.name && p.params == q.params }

  lemma {:induction false} AddAt(props: seq<Property>, i: nat, p: Property)
    requires i <= |props| && forall j :: 0 <= j < i ==> !SameKey(props[j], p)
    requires i < |props| ==> SameKey(props[i], p)
    ensures Add(props, p) == if i < |props| then props[i := p] else props + [p]
  {
    if i > 0 {
      AddAt(props[1..], i - 1, p);
    }
  }

  function AddAll(props: seq<Property>, more: seq<Property>): seq<Property>
    decreases |more|
  {
    if more == [] then props else AddAll(Add(props, more[0]), more[1..])
  }

  // property(name): the parameters do not narrow the search unless it is strict.
  function Find(props: seq<Property>, name: string): Property
  {
    if props == [] then Property("", [], [])
    else if props[0].name == name then props[0]
    else Find(props[1..], name)
  }

  // property(name, params, true)
  function FindStrict(props: seq<Property>, name: string, params: seq<Param>): Property
  {
    if props == [] then Property("", [], [])
    else if props[0].name == name && props[0].params == params then props[0]
    else FindStrict(props[1..], name, params)
  }

  function PropertyTexts(props: seq<Property>): (ts: seq<string>)
    ensures |ts| == |props|
  {
    if props == [] then [] else [PropertyText(props[0])] + PropertyTexts(props[1..])
  }

  function CardLines(props: seq<Property>): seq<string>
  {
    [BEGIN_TOKEN, PropertyText(Property(VERSION, ["2.1"], []))] + PropertyTexts(props) + [END_TOKEN]
  }

  // vCard::toByteArray
  function CardText(props: seq<Property>): string { Join(CardLines(props), '\n') }

  // The loop of vCard::fromByteArray over the lines that are left.  `current` is not emptied
  // between two cards.
  function ParseCards(lines: seq<string>, started: bool, current: seq<Property>): seq<seq<Property>>
  {
    if lines == [] then []
    else
      var line := Simplified(lines[0]);
      if line == BEGIN_TOKEN && !started then ParseCards(lines[1..], true, current)
      else if line == END_TOKEN && started then [current] + ParseCards(lines[1..], false, current)
      else if started then ParseCards(lines[1..], started, AddAll(current, ParseProperties(line)))
      else ParseCards(lines[1..], started, current)
  }

  // vCard::fromByteArray
  function ParseCardText(data: string): seq<seq<Property>> { ParseCards(Split(data, '\n'), false, []) }

  lemma {:induction false} TextsGrow(props: seq<Property>, i: nat)
    requires i < |props|
    ensures PropertyTexts(props[..i + 1]) == PropertyTexts(props[..i]) + [PropertyText(props[i])]
  {
    hide PropertyText;
    if i > 0 {
      TextsGrow(props[1..], i - 1);
      assert props[..i + 1][1..] == props[1..][..i] && props[..i][1..] == props[1..][..i - 1];
    }
  }

  // ----- The loops of the source -----

  class Card {
    var properties: seq<Property>

    constructor ()
      ensures properties == []
    {
      properties := [];
    }

    method AddProperty(p: Property)
      modifies this
      ensures properties == Add(old(properties), p)
    {
      for i := 0 to |properties|
        invariant properties == old(properties)
        invariant forall j :: 0 <= j < i ==> !SameKey(properties[j], p)
      {
        if properties[i].name == p.name && properties[i].params == p.params {
          AddAt(properties, i, p);
          properties := properties[i := p];
          return;
        }
      }
      AddAt(properties, |properties|, p);
      properties := properties + [p];
    }

    method AddProperties(ps: seq<Property>)
      modifies this
      ensures properties == AddAll(old(properties), ps)
    {
      for i := 0 to |ps|
        invariant AddAll(old(properties), ps) == AddAll(properties, ps[i..])
      {
        assert ps[i..][1..] == ps[i + 1..];
        AddProperty(ps[i]);
      }
    }

    // property: in a search that is not strict the test of the parameters has no effect.
    method GetProperty(name: string, params: seq<Param>, strict: bool) returns (p: Property)
      ensures p == if strict then FindStrict(properties, name, params) else Find(properties, name)
    {
      for i := 0 to |properties|
        invariant Find(properties, name) == Find(properties[i..], name) || strict
        invariant FindStrict(properties, name, params) == FindStrict(properties[i..], name, params)
      {
        assert properties[i..][1..] == properties[i + 1..];
        if properties[i].name == name {
          if !strict || properties[i].params == params {
            return properties[i];
          }
        }
      }
      p := Property("", [], []);
    }

    method ToByteArray() returns (data: string)
      ensures data == CardText(properties)
    {
      var lines := [BEGIN_TOKEN];
      lines := lines + [PropertyText(Property(VERSION, ["2.1"], []))];
      ghost var head := lines;
      hide PropertyText;
      for i := 0 to |properties|
        invariant lines == head + PropertyTexts(properties[..i])
      {
        TextsGrow(properties, i);
        lines := lines + [PropertyText(properties[i])];
      }
      assert properties[..|properties|] == properties;
      lines := lines + [END_TOKEN];
      assert lines == CardLines(properties);
      data := Join(lines, '\n');
    }
  }

  // vCard::fromByteArray
  method FromByteArray(data: string) returns (cards: seq<seq<Property>>)
    ensures cards == ParseCardText(data)
  {
    cards := [];
    var current := new Card();
    var started := false;
    var lines := Split(data, '\n');
    for i := 0 to |lines|
      invariant ParseCardText(data) == cards + ParseCards(lines[i..], started, current.properties)
    {
      assert lines[i..][1..] == lines[i + 1..];
      var line := Simplified(lines[i]);
      if line == BEGIN_TOKEN && !started {
        started := true;
      } else if line == END_TOKEN && started {
        cards := cards + [current.properties];
        started := false;
      } else if started {
        var props := ParseProperties(line);
        current.AddProperties(props);
      }
    }
  }
}
