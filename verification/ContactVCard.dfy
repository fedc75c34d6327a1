/** AddressBook/ContactvCard.cpp: a contact to a vCard and back. */
module ContactVCard {
  import opened Basics
  import opened Text
  import opened VCard
  import opened VCardRoundTrip

  // The text fields the conversions carry; `key` is the text form of the public key.
  datatype Contact = Contact(first: string, last: string, id: string, key: string, notes: string)

  // ----- Notes -----

  // createNotes: a newline becomes a backslash and an n.
  function Escape(s: string): string
  {
    if s == "" then "" else (if s[0] == '\n' then ['\\', 'n'] else [s[0]]) + Escape(s[1..])
  }

  // getNotes
  function Unescape(s: string): string
    decreases |s|
  {
    if s == "" then ""
    else if |s| > 1 && s[0] == '\\' && s[1] == 'n' then ['\n'] + Unescape(s[2..])
    else [s[0]] + Unescape(s[1..])
  }

  // The two characters that stand for a newline do not occur.
  predicate NoEscape(s: string)
  {
    forall k :: 0 <= k < |s| - 1 ==> !(s[k] == '\\' && s[k + 1] == 'n')
  }

  lemma {:induction false} UnescapeOfEscape(s: string)
    requires NoEscape(s)
    ensures Unescape(Escape(s)) == s
  {
    if s != "" {
      assert forall k :: 0 <= k < |s[1..]| ==> s[1..][k] == s[k + 1];
      UnescapeOfEscape(s[1..]);
      var rest := Escape(s[1..]);
      if s[0] == '\n' {
        assert (['\\', 'n'] + rest)[2..] == rest;
      } else {
        assert ([s[0]] + rest)[1..] == rest;
        assert |s| > 1 && s[0] == '\\' ==> s[1] != 'n';
      }
    }
  }

  lemma {:induction false} EscapeOfUnescape(s: string)
    requires Free(s, '\n')
    ensures Escape(Unescape(s)) == s
    decreases |s|
  {
    if s != "" {
      if |s| > 1 && s[0] == '\\' && s[1] == 'n' {
        assert forall x :: x in s[2..] ==> x in s;
        EscapeOfUnescape(s[2..]);
        assert (['\n'] + Unescape(s[2..]))[1..] == Unescape(s[2..]);
        assert ['\\', 'n'] + s[2..] == s;
      } else {
        assert s[0] in s && forall x :: x in s[1..] ==> x in s;
        EscapeOfUnescape(s[1..]);
        assert ([s[0]] + Unescape(s[1..]))[1..] == Unescape(s[1..]);
        assert [s[0]] + s[1..] == s;
      }
    }
  }

  lemma {:induction false} UnescapedHasNone(s: string)
    ensures NoEscape(Unescape(s))
    decreases |s|
  {
    if s != "" {
      if |s| > 1 && s[0] == '\\' && s[1] == 'n' {
        UnescapedHasNone(s[2..]);
      } else {
        UnescapedHasNone(s[1..]);
        assert |s| > 1 && s[0] == '\\' ==> s[1] != 'n';
      }
    }
  }

  // Notes come back from the escaping exactly when they do not hold a literal backslash-n.
  lemma NotesRoundTrip(s: string)
    ensures Unescape(Escape(s)) == s <==> NoEscape(s)
  {
    if NoEscape(s) {
      UnescapeOfEscape(s);
    }
    UnescapedHasNone(Escape(s));
  }

  // ----- The conversions -----

  // createAvatar puts its parameters into the name.
  const PHOTO_NAME := "PHOTO;PNG;ENCODING=BASE64"

  const KHID := "X-KEYHOTEE-ID"
  const PUBLIC_KEY := "X-KEYHOTEE-PublicKey"

  function ContactProperties(c: Contact, photo: string): seq<Property>
  {
    [Property("N", [c.last, c.first, "", "", ""], []),
     Property("FN", [c.first + " " + c.last], []),
     Property(KHID, [c.id], []),
     Property(PUBLIC_KEY, [c.key], []),
     Property("NOTE", [Escape(c.notes)], []),
     Property(PHOTO_NAME, Split(photo, ';'), [])]
  }

  // convert(const Contact&, QByteArray*), with the icon already in base64
  method ExportContact(c: Contact, photo: string) returns (data: string)
    ensures data == CardText(ContactProperties(c, photo))
  {
    hide Add, Escape, Split, CardText;
    ghost var props := ContactProperties(c, photo);
    var card := new Card();
    NextProperty(c, photo, 0);
    card.AddProperty(Property("N", [c.last, c.first, "", "", ""], []));
    var formattedName := c.first + " " + c.last;
    NextProperty(c, photo, 1);
    card.AddProperty(Property("FN", [formattedName], []));
    NextProperty(c, photo, 2);
    card.AddProperty(Property(KHID, [c.id], []));
    NextProperty(c, photo, 3);
    card.AddProperty(Property(PUBLIC_KEY, [c.key], []));
    NextProperty(c, photo, 4);
    card.AddProperty(Property("NOTE", [Escape(c.notes)], []));
    NextProperty(c, photo, 5);
    card.AddProperty(Property(PHOTO_NAME, Split(photo, ';'), []));
    assert props[..6] == props;
    data := card.ToByteArray();
  }

  // The six names differ, so each property is appended.
  lemma NextProperty(c: Contact, photo: string, k: nat)
    requires k < 6
    ensures Add(ContactProperties(c, photo)[..k], ContactProperties(c, photo)[k])
            == ContactProperties(c, photo)[..k + 1]
  {
    hide Escape, Split;
    var props := ContactProperties(c, photo);
    assert forall j :: 0 <= j < k ==> props[j].name != props[k].name by {
      Names(c, photo);
    }
    AddAt(props[..k], k, props[k]);
    assert props[..k] + [props[k]] == props[..k + 1];
  }

  lemma Names(c: Contact, photo: string)
    ensures forall j, k :: 0 <= j < k < 6 ==> ContactProperties(c, photo)[j].name != ContactProperties(c, photo)[k].name
  {
    hide Escape, Split;
    assert |"N"| == 1 && |"FN"| == 2 && |KHID| == 13 && |PUBLIC_KEY| == 20 && |"NOTE"| == 4 && |PHOTO_NAME| == 25;
    var props := ContactProperties(c, photo);
    assert |props[0].name| == 1 && |props[1].name| == 2 && |props[2].name| == 13;
    assert |props[3].name| == 20 && |props[4].name| == 4 && |props[5].name| == 25;
  }

  // The constructor and convert(Contact*): the first card of the data, if there is one.  values.at
  // demands that the name have two components.
  function Import(data: string): Option<Contact>
  {
    var cards := ParseCardText(data);
    if cards == [] then None
    else
      var names := Find(cards[0], "N").values;
      if |names| < 2 then None
      else
        Some(Contact(names[1], names[0], Find(cards[0], KHID).Value(), Find(cards[0], PUBLIC_KEY).Value(),
                     Unescape(Find(cards[0], "NOTE").Value())))
  }

  method ImportContact(data: string) returns (c: Option<Contact>)
    ensures c == Import(data)
  {
    var cards := FromByteArray(data);
    if cards == [] {
      return None;
    }
    var card := new Card();
    card.properties := cards[0];
    var name := card.GetProperty("N", [], false);
    if |name.values| < 2 {
      return None;
    }
    var id := card.GetProperty(KHID, [], false);
    var key := card.GetProperty(PUBLIC_KEY, [], false);
    var note := card.GetProperty("NOTE", [], false);
    c := Some(Contact(name.values[1], name.values[0], id.Value(), key.Value(), Unescape(note.Value())));
  }

  // ----- What a value in a parsed card can hold -----

  predicate CleanValues(values: seq<string>)
  {
    forall k :: 0 <= k < |values| ==> Free(values[k], ':') && Free(values[k], ';') && Free(values[k], '\n')
  }

  predicate CleanCard(props: seq<Property>) { forall k :: 0 <= k < |props| ==> CleanValues(props[k].values) }

  predicate CleanCards(cards: seq<seq<Property>>) { forall k :: 0 <= k < |cards| ==> CleanCard(cards[k]) }

  lemma LineClean(line: string)
    requires Free(line, '\n')
    ensures CleanCard(ParseLine(line))
  {
    hide ParseParams;
    var tokens := Split(line, ':');
    if |tokens| >= 2 {
      SplitParts(line, ':', 1);
      var values := Split(tokens[1], ';');
      forall k | 0 <= k < |values|
        ensures Free(values[k], ':') && Free(values[k], ';') && Free(values[k], '\n')
      {
        SplitParts(tokens[1], ';', k);
      }
    }
  }

  lemma {:induction false} LinesClean(lines: seq<string>)
    requires forall k :: 0 <= k < |lines| ==> Free(lines[k], '\n')
    ensures CleanCard(ParseLines(lines))
  {
    hide ParseLine;
    if lines != [] {
      LineClean(lines[0]);
      LinesClean(lines[1..]);
    }
  }

  lemma PropertiesClean(data: string)
    ensures CleanCard(ParseProperties(data))
  {
    var lines := Split(data, '\n');
    forall k | 0 <= k < |lines|
      ensures Free(lines[k], '\n')
    {
      SplitParts(data, '\n', k);
    }
    LinesClean(lines);
  }

  lemma {:induction false} AddClean(props: seq<Property>, p: Property)
    requires CleanCard(props) && CleanValues(p.values)
    ensures CleanCard(Add(props, p))
  {
    if props != [] && !SameKey(props[0], p) {
      AddClean(props[1..], p);
    }
  }

  lemma {:induction false} AddAllClean(props: seq<Property>, more: seq<Property>)
    requires CleanCard(props) && CleanCard(more)
    ensures CleanCard(AddAll(props, more))
    decreases |more|
  {
    if more != [] {
      AddClean(props, more[0]);
      AddAllClean(Add(props, more[0]), more[1..]);
    }
  }

  // For any bytes whatever: no component of a parsed property holds a colon, a semicolon or a newline.
  lemma {:induction false} ParsedCardsClean(lines: seq<string>, started: bool, current: seq<Property>)
    requires CleanCard(current)
    ensures CleanCards(ParseCards(lines, started, current))
  {
    hide CleanCard, ParseProperties;
    if lines != [] {
      var line := Simplified(lines[0]);
      if line == BEGIN_TOKEN && !started {
        ParsedCardsClean(lines[1..], true, current);
        assert ParseCards(lines, started, current) == ParseCards(lines[1..], true, current);
      } else if line == END_TOKEN && started {
        ParsedCardsClean(lines[1..], false, current);
        var rest := ParseCards(lines[1..], false, current);
        assert forall k :: 0 < k < |[current] + rest| ==> ([current] + rest)[k] == rest[k - 1];
      } else if started {
        PropertiesClean(line);
        AddAllClean(current, ParseProperties(line));
        ParsedCardsClean(lines[1..], started, AddAll(current, ParseProperties(line)));
        assert ParseCards(lines, started, current)
            == ParseCards(lines[1..], started, AddAll(current, ParseProperties(line)));
      } else {
        ParsedCardsClean(lines[1..], started, current);
        assert ParseCards(lines, started, current) == ParseCards(lines[1..], started, current);
      }
    }
  }

  lemma {:induction false} FindClean(props: seq<Property>, name: string)
    requires CleanCard(props)
    ensures CleanValues(Find(props, name).values)
    ensures Free(Find(props, name).Value(), ':') && Free(Find(props, name).Value(), '\n')
  {
    if props == [] || props[0].name == name {
      var values := Find(props, name).values;
      assert CleanValues(values);
      JoinFree(values, ':', ';');
      JoinFree(values, '\n', ';');
    } else {
      assert forall k :: 0 <= k < |props[1..]| ==> props[1..][k] == props[k + 1];
      FindClean(props[1..], name);
    }
  }

  lemma {:induction false} UnescapeFree(s: string)
    requires Free(s, ':')
    ensures Free(Unescape(s), ':')
    decreases |s|
  {
    if s != "" {
      assert s[0] in s && forall x :: x in s[1..] ==> x in s;
      if |s| > 1 && s[0] == '\\' && s[1] == 'n' {
        assert forall x :: x in s[2..] ==> x in s;
        UnescapeFree(s[2..]);
      } else {
        UnescapeFree(s[1..]);
      }
    }
  }

  // So whatever is imported is free of what the format cannot carry.
  predicate Carriable(c: Contact)
  {
    && Free(c.first, ':') && Free(c.first, ';') && Free(c.first, '\n')
    && Free(c.last, ':') && Free(c.last, ';') && Free(c.last, '\n')
    && Free(c.id, ':') && Free(c.id, '\n') && Free(c.key, ':') && Free(c.key, '\n')
    && Free(c.notes, ':') && NoEscape(c.notes)
  }

  lemma ImportedIsCarriable(data: string)
    requires Import(data).Some?
    ensures Carriable(Import(data).value)
  {
    hide ParseCards, Find, Unescape, NoEscape;
    ParsedCardsClean(Split(data, '\n'), false, []);
    var card := ParseCardText(data)[0];
    assert CleanCard(card) by {
      assert ParseCards(Split(data, '\n'), false, []) == ParseCardText(data);
    }
    FindClean(card, "N");
    FindClean(card, KHID);
    FindClean(card, PUBLIC_KEY);
    FindClean(card, "NOTE");
    var note := Find(card, "NOTE").Value();
    UnescapeFree(note);
    UnescapedHasNone(note);
  }

  // ----- The round trip -----

  // What the printer and the parser leave of a contact that can be carried.
  predicate Faithful(c: Contact)
  {
    && Carriable(c)
    && Inner(c.first) == c.first && Inner(c.last) == c.last && Tail(c.id) == c.id && Tail(c.key) == c.key
    && Tail(Escape(c.notes)) == Escape(c.notes)
  }

  predicate Base64Char(x: char)
  {
    'a' <= x <= 'z' || 'A' <= x <= 'Z' || '0' <= x <= '9' || x == '+' || x == '/' || x == '='
  }

  predicate Base64Text(s: string) { forall k :: 0 <= k < |s| ==> Base64Char(s[k]) }

  const NO_PARAMS := [Param(Undefined, "")]

  lemma EmptyParams()
    ensures ParseParams("") == NO_PARAMS
  {
    assert Split(Simplified(""), ';') == [""];
    assert [""][1..] == [];
    assert ParseToken("") == NO_PARAMS;
    assert ParseTokens([""]) == ParseToken("") + ParseTokens([]);
  }

  predicate PlainName(name: string)
  {
    && Solid(name) && Free(name, ':') && Free(name, ';') && name != VERSION && name != "BEGIN" && name != "END"
  }

  // A line of a property without parameters, after simplified().
  lemma PlainLine(name: string, v: string)
    requires PlainName(name) && Free(v, ':')
    ensures Simplified(name + ":" + v) == name + ":" + Tail(v)
    ensures ParseProperties(name + ":" + Tail(v)) == [Property(name, Split(Tail(v), ';'), NO_PARAMS)]
    ensures name + ":" + Tail(v) != BEGIN_TOKEN && name + ":" + Tail(v) != END_TOKEN
  {
    TailAt(name, ':', v);
    SolidStays(name);
    assert name + ":" + v == name + [':'] + v;
    SimplifiedChars(v);
    hide Simplified, Tail, InnerSkip, Inner, ParseParams;
    var line := name + ":" + Tail(v);
    LineTokens(name, Tail(v));
    NotAToken(name, Tail(v));
    NewlineFree(name, Tail(v));
    SplitFree(line, '\n');
    NameTokens(name, "");
    EmptyParams();
    assert name + "" == name;
    assert ParseLine(line) == [Property(name, Split(Tail(v), ';'), NO_PARAMS)];
    assert ParseLines([line]) == ParseLine(line) + ParseLines([]);
  }

  lemma NewlineFree(name: string, v: string)
    requires Solid(name) && Free(v, '\n')
    ensures Free(name + ":" + v, '\n')
  {}

  lemma NotAToken(name: string, v: string)
    requires Free(name, ':') && Free(v, ':') && name != "BEGIN" && name != "END"
    ensures name + ":" + v != BEGIN_TOKEN && name + ":" + v != END_TOKEN
  {
    hide Split;
    LineTokens(name, v);
    assert "BEGIN" + ":" + "VCARD" == BEGIN_TOKEN && "END" + ":" + "VCARD" == END_TOKEN;
    LineTokens("BEGIN", "VCARD");
    LineTokens("END", "VCARD");
  }

  lemma StepOverPlain(name: string, v: string, rest: seq<string>, current: seq<Property>)
    requires PlainName(name) && Free(v, ':')
    ensures ParseCards([name + ":" + v] + rest, true, current)
            == ParseCards(rest, true, Add(current, Property(name, Split(Tail(v), ';'), NO_PARAMS)))
  {
    PlainLine(name, v);
    hide Simplified, Tail, ParseProperties, Split;
    var more := [Property(name, Split(Tail(v), ';'), NO_PARAMS)];
    assert more[1..] == [] && AddAll(current, more) == AddAll(Add(current, more[0]), []);
    assert ([name + ":" + v] + rest)[1..] == rest;
  }

  // The values of the five plain properties, before and after simplified().
  function NameBody(c: Contact): string { c.last + ";" + (c.first + ";" + ";;") }

  function FullName(c: Contact): string { c.first + " " + c.last }

  lemma NameValues(c: Contact)
    requires Free(c.last, ';') && Free(c.first, ';')
    ensures Join([c.last, c.first, "", "", ""], ';') == NameBody(c)
    ensures Split(Tail(NameBody(c)), ';') == [Inner(c.last), Inner(c.first), "", "", ""]
  {
    JoinName(c.last, c.first);
    SimplifiedChars(c.last);
    SimplifiedChars(c.first);
    SolidStays(";;");
    hide Split, Join, Tail, Inner;
    TailAt(c.last, ';', c.first + ";" + ";;");
    TailAt(c.first, ';', ";;");
    SplitName(Inner(c.last), Inner(c.first));
    assert NameBody(c) == c.last + [';'] + (c.first + ";" + ";;");
  }

  lemma JoinName(last: string, first: string)
    ensures Join([last, first, "", "", ""], ';') == last + ";" + (first + ";" + ";;")
  {
    assert Join([""], ';') == "" && Join(["", ""], ';') == ";" && Join(["", "", ""], ';') == ";;";
    var parts := [last, first, "", "", ""];
    assert parts[1..] == [first, "", "", ""] && parts[1..][1..] == ["", "", ""];
  }

  lemma SplitName(last: string, first: string)
    requires Free(last, ';') && Free(first, ';')
    ensures Split(last + [';'] + (first + [';'] + ";;"), ';') == [last, first, "", "", ""]
  {
    SemiColons();
    hide Split;
    SplitAt(last, ';', first + [';'] + ";;");
    SplitAt(first, ';', ";;");
  }

  lemma SemiColons()
    ensures Split(";;", ';') == ["", "", ""]
  {
    assert ";;"[1..] == ";" && ";"[1..] == "";
    assert Split(";", ';') == [""] + Split("", ';');
  }

  // What the parser makes of the six properties.
  function ImportedProperties(c: Contact, photo: string): seq<Property>
  {
    [Property("N", [Inner(c.last), Inner(c.first), "", "", ""], NO_PARAMS),
     Property("FN", Split(Tail(FullName(c)), ';'), NO_PARAMS),
     Property(KHID, Split(Tail(c.id), ';'), NO_PARAMS),
     Property(PUBLIC_KEY, Split(Tail(c.key), ';'), NO_PARAMS),
     Property("NOTE", Split(Tail(Escape(c.notes)), ';'), NO_PARAMS),
     ParsedPhoto(photo)]
  }

  function ContactLines(c: Contact, photo: string): seq<string>
  {
    ["N:" + NameBody(c), "FN:" + FullName(c), KHID + ":" + c.id, PUBLIC_KEY + ":" + c.key,
     "NOTE:" + Escape(c.notes), PHOTO_NAME + ":" + photo, END_TOKEN]
  }

  lemma {:induction false} EscapeFree(s: string)
    ensures Free(Escape(s), '\n')
    ensures Free(s, ':') ==> Free(Escape(s), ':')
  {
    if s != "" {
      EscapeFree(s[1..]);
      assert s[0] in s && forall x :: x in s[1..] ==> x in s;
    }
  }

  lemma PlainNames()
    ensures PlainName("N") && PlainName("FN") && PlainName(KHID) && PlainName(PUBLIC_KEY) && PlainName("NOTE")
  {}

  lemma PhotoText(photo: string)
    requires Base64Text(photo)
    ensures Solid(PHOTO_NAME + ":" + photo) && Free(PHOTO_NAME, ':')
    ensures Free(photo, ':') && Free(photo, ';') && Free(PHOTO_NAME + ":" + photo, '\n')
  {}

  // createAvatar's property has no parameters when printed, and two when parsed.
  function ParsedPhoto(photo: string): Property
  {
    Property("PHOTO", [photo], ParseParams("PNG;ENCODING=BASE64"))
  }

  lemma PhotoLine(photo: string)
    requires Base64Text(photo)
    ensures ParseProperties(PHOTO_NAME + ":" + photo) == [ParsedPhoto(photo)]
  {
    hide ParseParams, Split, Join;
    var line := PHOTO_NAME + ":" + photo;
    PhotoText(photo);
    SplitFree(photo, ';');
    SplitFree(line, '\n');
    LineTokens(PHOTO_NAME, photo);
    assert "PHOTO" + (";" + "PNG;ENCODING=BASE64") == PHOTO_NAME;
    NameTokens("PHOTO", "PNG;ENCODING=BASE64");
    assert ParseLine(line) == [ParsedPhoto(photo)];
    assert ParseLines([line]) == ParseLine(line) + ParseLines([]);
  }

  lemma StepOverPhoto(photo: string, rest: seq<string>, current: seq<Property>)
    requires Base64Text(photo)
    ensures ParseCards([PHOTO_NAME + ":" + photo] + rest, true, current)
            == ParseCards(rest, true, Add(current, ParsedPhoto(photo)))
  {
    hide Simplified, ParseProperties, ParsedPhoto;
    PhotoText(photo);
    SolidStays(PHOTO_NAME + ":" + photo);
    NotAToken(PHOTO_NAME, photo);
    PhotoLine(photo);
    var more := [ParsedPhoto(photo)];
    assert more[1..] == [] && AddAll(current, more) == AddAll(Add(current, more[0]), []);
    assert ([PHOTO_NAME + ":" + photo] + rest)[1..] == rest;
  }

  // Name and value of the plain property k.
  function Plain(c: Contact, k: nat): (string, string)
    requires k < 5
  {
    if k == 0 then ("N", NameBody(c))
    else if k == 1 then ("FN", FullName(c))
    else if k == 2 then (KHID, c.id)
    else if k == 3 then (PUBLIC_KEY, c.key)
    else ("NOTE", Escape(c.notes))
  }

  lemma PlainFree(c: Contact, k: nat)
    requires Carriable(c) && k < 5
    ensures PlainName(Plain(c, k).0) && Free(Plain(c, k).1, ':') && Free(Plain(c, k).1, '\n')
  {
    PlainNames();
    EscapeFree(c.notes);
    hide PlainName, Escape;
    if k == 0 {
      assert forall x :: x in NameBody(c) ==> x in c.last || x in c.first || x == ';';
    } else if k == 1 {
      assert forall x :: x in FullName(c) ==> x in c.first || x in c.last || x == ' ';
    }
  }

  lemma ImportedAt(c: Contact, photo: string, k: nat)
    requires Carriable(c) && k < 5
    ensures ImportedProperties(c, photo)[k] == Property(Plain(c, k).0, Split(Tail(Plain(c, k).1), ';'), NO_PARAMS)
    ensures ContactLines(c, photo)[k] == Plain(c, k).0 + ":" + Plain(c, k).1
  {
    hide Split, Tail, Inner, Escape, NameBody, FullName;
    if k == 0 { NameValues(c); }
  }

  lemma ImportedNames(c: Contact, photo: string)
    ensures forall j, k :: 0 <= j < k < 6 ==>
              ImportedProperties(c, photo)[j].name != ImportedProperties(c, photo)[k].name
  {
    hide Split, Tail, Inner, Escape, ParseParams;
    assert |"N"| == 1 && |"FN"| == 2 && |KHID| == 13 && |PUBLIC_KEY| == 20 && |"NOTE"| == 4 && |"PHOTO"| == 5;
    var props := ImportedProperties(c, photo);
    assert |props[0].name| == 1 && |props[1].name| == 2 && |props[2].name| == 13;
    assert |props[3].name| == 20 && |props[4].name| == 4 && |props[5].name| == 5;
  }

  // One line of the card is read.
  lemma ImportStep(c: Contact, photo: string, k: nat)
    requires Carriable(c) && Base64Text(photo) && k < 6
    ensures var lines, props := ContactLines(c, photo), ImportedProperties(c, photo);
            ParseCards(lines[k..], true, props[..k]) == ParseCards(lines[k + 1..], true, props[..k + 1])
  {
    var lines, props := ContactLines(c, photo), ImportedProperties(c, photo);
    LineAndProperty(c, photo, k);
    ImportedNames(c, photo);
    hide ContactLines, ImportedProperties, Base64Text, Carriable, ParsedPhoto, PlainName, Plain, Split, Tail, Add;
    AppendNext(props, k);
    StepOver(c, photo, k, lines[k + 1..], props[..k]);
    assert lines[k..] == [lines[k]] + lines[k + 1..];
  }

  function LineOf(c: Contact, photo: string, k: nat): string
    requires k < 6
  {
    if k < 5 then Plain(c, k).0 + ":" + Plain(c, k).1 else PHOTO_NAME + ":" + photo
  }

  function PropertyOf(c: Contact, photo: string, k: nat): Property
    requires k < 6
  {
    if k < 5 then Property(Plain(c, k).0, Split(Tail(Plain(c, k).1), ';'), NO_PARAMS) else ParsedPhoto(photo)
  }

  lemma LineAndProperty(c: Contact, photo: string, k: nat)
    requires Carriable(c) && k < 6
    ensures ContactLines(c, photo)[k] == LineOf(c, photo, k)
    ensures ImportedProperties(c, photo)[k] == PropertyOf(c, photo, k)
  {
    hide Split, Tail, Plain, ParsedPhoto, NameBody, FullName, Inner, Escape;
    if k < 5 { ImportedAt(c, photo, k); }
  }

  lemma StepOver(c: Contact, photo: string, k: nat, rest: seq<string>, current: seq<Property>)
    requires Carriable(c) && Base64Text(photo) && k < 6
    ensures ParseCards([LineOf(c, photo, k)] + rest, true, current)
            == ParseCards(rest, true, Add(current, PropertyOf(c, photo, k)))
  {
    hide ParseCards, Add, Split, Tail, Plain, ParsedPhoto, PlainName;
    if k < 5 {
      PlainFree(c, k);
      StepOverPlain(Plain(c, k).0, Plain(c, k).1, rest, current);
    } else {
      StepOverPhoto(photo, rest, current);
    }
  }

  lemma AppendNext(props: seq<Property>, k: nat)
    requires k < |props| && forall i, j :: 0 <= i < j < |props| ==> props[i].name != props[j].name
    ensures Add(props[..k], props[k]) == props[..k + 1]
  {
    AddAt(props[..k], k, props[k]);
    assert props[..k] + [props[k]] == props[..k + 1];
  }

  lemma {:induction false} ImportLines(c: Contact, photo: string, k: nat)
    requires Carriable(c) && Base64Text(photo) && k <= 6
    ensures ParseCards(ContactLines(c, photo)[k..], true, ImportedProperties(c, photo)[..k])
            == [ImportedProperties(c, photo)]
    decreases 6 - k
  {
    var lines, props := ContactLines(c, photo), ImportedProperties(c, photo);
    hide ParseCards, Carriable, Base64Text;
    if k == 6 {
      assert lines[6..] == [END_TOKEN] && props[..6] == props;
      assert [END_TOKEN] == [END_TOKEN] + [];
      ParseEnd(props, []);
      NoMoreLines(props);
    } else {
      ImportStep(c, photo, k);
      ImportLines(c, photo, k + 1);
    }
  }

  lemma PlainText(name: string, values: seq<string>)
    ensures PropertyText(Property(name, values, [])) == name + ":" + Join(values, ';')
  {
    assert ParamsText([]) == "";
    assert name + "" + ":" + Join(values, ';') == name + ":" + Join(values, ';');
  }

  lemma ExportedLines(c: Contact, photo: string)
    requires Carriable(c) && Base64Text(photo)
    ensures CardLines(ContactProperties(c, photo)) == [BEGIN_TOKEN, VERSION_LINE] + ContactLines(c, photo)
  {
    ExportedTexts(c, photo);
    VersionText();
    hide PropertyText, PropertyTexts, ContactProperties, NameBody, FullName, Escape;
    assert ContactLines(c, photo) == ContactLines(c, photo)[..6] + [END_TOKEN];
  }

  lemma ExportedFree(c: Contact, photo: string)
    requires Carriable(c) && Base64Text(photo)
    ensures var lines := [BEGIN_TOKEN, VERSION_LINE] + ContactLines(c, photo);
            forall k :: 0 <= k < |lines| ==> Free(lines[k], '\n')
  {
    var lines := ContactLines(c, photo);
    assert |lines| == 7;
    hide ContactLines, Carriable, Base64Text, Free;
    TokensFree();
    forall k | 0 <= k < 7
      ensures Free(lines[k], '\n')
    {
      LineFree(c, photo, k);
    }
    FreeAfter(BEGIN_TOKEN, VERSION_LINE, lines);
  }

  lemma TokensFree()
    ensures Free(BEGIN_TOKEN, '\n') && Free(END_TOKEN, '\n') && Free(VERSION_LINE, '\n')
  {
    HeaderLines();
    hide Simplified;
    NoNewline(BEGIN_TOKEN);
    NoNewline(END_TOKEN);
    NoNewline(VERSION_LINE);
  }

  lemma FreeAfter(first: string, second: string, lines: seq<string>)
    requires Free(first, '\n') && Free(second, '\n') && forall k :: 0 <= k < |lines| ==> Free(lines[k], '\n')
    ensures forall k :: 0 <= k < |[first, second] + lines| ==> Free(([first, second] + lines)[k], '\n')
  {
    hide Free;
  }

  lemma LineFree(c: Contact, photo: string, k: nat)
    requires Carriable(c) && Base64Text(photo) && k < 7
    ensures Free(ContactLines(c, photo)[k], '\n')
  {
    if k == 6 {
      TokensFree();
      return;
    }
    LineAndProperty(c, photo, k);
    hide ContactLines, Carriable, Plain, Base64Text;
    if k < 5 {
      PlainFree(c, k);
      NewlineFree(Plain(c, k).0, Plain(c, k).1);
    } else {
      PhotoText(photo);
    }
  }

  // A property's text is its name, ':' and its values: the six of a contact.
  lemma ExportedText(c: Contact, photo: string, k: nat)
    requires Carriable(c) && Base64Text(photo) && k < 6
    ensures PropertyText(ContactProperties(c, photo)[k]) == ContactLines(c, photo)[k]
  {
    hide PropertyText, Split, Escape, Inner, Tail, Base64Text;
    var p := ContactProperties(c, photo)[k];
    PlainText(p.name, p.values);
    if k == 0 {
      NameText(c);
    } else if k == 5 {
      PhotoText(photo);
      SplitFree(photo, ';');
      assert p == Property(PHOTO_NAME, [photo], []);
      assert Join([photo], ';') == photo;
    } else {
      assert |p.values| == 1 && Join(p.values, ';') == p.values[0];
    }
  }

  lemma NameText(c: Contact)
    requires Carriable(c)
    ensures Join([c.last, c.first, "", "", ""], ';') == NameBody(c)
  {
    hide Tail, Inner, NameBody, Join, Split;
    NameValues(c);
  }

  lemma ExportedTexts(c: Contact, photo: string)
    requires Carriable(c) && Base64Text(photo)
    ensures PropertyTexts(ContactProperties(c, photo)) == ContactLines(c, photo)[..6]
  {
    var props := ContactProperties(c, photo);
    assert |props| == 6 && |ContactLines(c, photo)| == 7;
    hide ContactProperties, ContactLines, Carriable, Base64Text, PropertyText;
    forall k | 0 <= k < 6
      ensures PropertyTexts(props)[k] == ContactLines(c, photo)[k]
    {
      TextsAt(props, k);
      ExportedText(c, photo, k);
    }
  }

  lemma {:induction false} FindAt(props: seq<Property>, k: nat)
    requires k < |props| && forall j :: 0 <= j < k ==> props[j].name != props[k].name
    ensures Find(props, props[k].name) == props[k]
  {
    if k > 0 {
      assert forall j :: 0 <= j < |props[1..]| ==> props[1..][j] == props[j + 1];
      FindAt(props[1..], k - 1);
    }
  }

  // What comes back of a contact the format can carry: every run of blanks has become one, and
  // those at the end of a line are gone.
  function Settled(c: Contact): Contact
  {
    Contact(Inner(c.first), Inner(c.last), Tail(c.id), Tail(c.key), Unescape(Tail(Escape(c.notes))))
  }

  lemma ParsedExport(c: Contact, photo: string)
    requires Carriable(c) && Base64Text(photo)
    ensures ParseCardText(CardText(ContactProperties(c, photo))) == [ImportedProperties(c, photo)]
  {
    ExportedLines(c, photo);
    ExportedFree(c, photo);
    hide ContactLines, ImportedProperties, ContactProperties, ParseCards, Join, Split, Carriable, Base64Text, CardLines;
    SplitOfJoin([BEGIN_TOKEN, VERSION_LINE] + ContactLines(c, photo), '\n');
    ParseHeader(ContactLines(c, photo), []);
    assert ContactLines(c, photo)[0..] == ContactLines(c, photo) && ImportedProperties(c, photo)[..0] == [];
    ImportLines(c, photo, 0);
  }

  lemma ImportOfExport(c: Contact, photo: string)
    requires Carriable(c) && Base64Text(photo)
    ensures Import(CardText(ContactProperties(c, photo))) == Some(Settled(c))
  {
    ParsedExport(c, photo);
    ImportedNames(c, photo);
    var props := ImportedProperties(c, photo);
    FindAt(props, 0);
    FindAt(props, 2);
    FindAt(props, 3);
    FindAt(props, 4);
    JoinOfSplit(Tail(c.id), ';');
    JoinOfSplit(Tail(c.key), ';');
    JoinOfSplit(Tail(Escape(c.notes)), ';');
    hide ContactProperties, CardText, ParseCardText, Split, Join, Tail, Inner, Escape, Unescape, Find;
  }

  // A contact comes back from its vCard exactly when it is faithful.  (The formatted name FN is
  // printed too but never read, so it sets no condition: an empty last name is fine.)
  lemma RoundTrip(c: Contact, photo: string)
    requires Base64Text(photo)
    ensures Import(CardText(ContactProperties(c, photo))) == Some(c) <==> Faithful(c)
  {
    var data := CardText(ContactProperties(c, photo));
    hide Import, CardText, ContactProperties, Base64Text, Tail, Inner, Escape, Unescape, Carriable;
    if Import(data) == Some(c) {
      ImportedIsCarriable(data);
    }
    if Carriable(c) {
      ImportOfExport(c, photo);
      SettledNotes(c);
    }
  }

  lemma SettledNotes(c: Contact)
    requires Carriable(c)
    ensures Settled(c).notes == c.notes <==> Tail(Escape(c.notes)) == Escape(c.notes)
  {
    EscapeFree(c.notes);
    SimplifiedChars(Escape(c.notes));
    EscapeOfUnescape(Tail(Escape(c.notes)));
    NotesRoundTrip(c.notes);
  }
}
