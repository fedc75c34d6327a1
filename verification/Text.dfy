/** The string operations of Qt that the vCard code uses, on ASCII text. */
module Text {

  predicate Free(s: string, c: char) { c !in s }

  // ----- split and join -----

  function Split(s: string, c: char): (parts: seq<string>)
    ensures |parts| > 0
  {
    if s == "" then [""]
    else
      var rest := Split(s[1..], c);
      if s[0] == c then [""] + rest else [[s[0]] + rest[0]] + rest[1..]
  }

  function Join(parts: seq<string>, c: char): string
  {
    if |parts| == 0 then ""
    else if |parts| == 1 then parts[0]
    else parts[0] + [c] + Join(parts[1..], c)
  }

  lemma {:induction false} JoinOfSplit(s: string, c: char)
    ensures Join(Split(s, c), c) == s
  {
    if s != "" {
      JoinOfSplit(s[1..], c);
      var rest := Split(s[1..], c);
      if s[0] == c {
        assert ([""] + rest)[1..] == rest;
      } else {
        assert ([[s[0]] + rest[0]] + rest[1..])[1..] == rest[1..];
      }
    }
  }

  // Each part is free of the separator and has only characters of the whole.
  lemma {:induction false} SplitParts(s: string, c: char, k: nat)
    requires k < |Split(s, c)|
    ensures Free(Split(s, c)[k], c)
    ensures forall x :: x in Split(s, c)[k] ==> x in s
  {
    if s != "" {
      var rest := Split(s[1..], c);
      if s[0] == c {
        if k > 0 { SplitParts(s[1..], c, k - 1); }
      } else {
        SplitParts(s[1..], c, k);
      }
    }
  }

  lemma {:induction false} SplitFree(s: string, c: char)
    requires Free(s, c)
    ensures Split(s, c) == [s]
  {
    if s != "" {
      assert s[0] in s && forall x :: x in s[1..] ==> x in s;
      SplitFree(s[1..], c);
      assert [s[0]] + s[1..] == s;
    }
  }

  lemma {:induction false} SplitAt(a: string, c: char, b: string)
    requires Free(a, c)
    ensures Split(a + [c] + b, c) == [a] + Split(b, c)
  {
    if a == "" {
      assert a + [c] + b == [c] + b;
      assert ([c] + b)[1..] == b;
    } else {
      assert a[0] in a && forall x :: x in a[1..] ==> x in a;
      SplitAt(a[1..], c, b);
      assert (a + [c] + b)[1..] == a[1..] + [c] + b;
      assert [a[0]] + a[1..] == a;
      assert [a] + Split(b, c) == [[a[0]] + a[1..]] + Split(b, c);
    }
  }

  lemma {:induction false} SplitOfJoin(parts: seq<string>, c: char)
    requires |parts| > 0
    requires forall k :: 0 <= k < |parts| ==> Free(parts[k], c)
    ensures Split(Join(parts, c), c) == parts
  {
    if |parts| == 1 {
      SplitFree(parts[0], c);
    } else {
      SplitOfJoin(parts[1..], c);
      SplitAt(parts[0], c, Join(parts[1..], c));
      assert [parts[0]] + parts[1..] == parts;
    }
  }

  // ----- simplified() -----

  predicate IsSpace(c: char)
  {
    c == ' ' || c == '\t' || c == '\n' || c == '\r' || c == '\U{b}' || c == '\U{c}'
  }

  // White space goes from both ends, and each run of it inside becomes one blank.
  function Simplified(s: string): string
    decreases |s|
  {
    if s == "" then ""
    else if IsSpace(s[0]) then Simplified(s[1..])
    else [s[0]] + Tail(s[1..])
  }

  // The same for the text after a character that is not white space.
  function Tail(s: string): string
    decreases |s|
  {
    if s == "" then ""
    else if !IsSpace(s[0]) then [s[0]] + Tail(s[1..])
    else
      var rest := Simplified(s[1..]);
      if rest == "" then "" else [' '] + rest
  }

  // The same for text with a character that is not white space on both sides of it.
  function Inner(s: string): string
    decreases |s|
  {
    if s == "" then ""
    else if !IsSpace(s[0]) then [s[0]] + Inner(s[1..])
    else [' '] + InnerSkip(s[1..])
  }

  function InnerSkip(s: string): string
    decreases |s|
  {
    if s == "" then ""
    else if IsSpace(s[0]) then InnerSkip(s[1..])
    else [s[0]] + Inner(s[1..])
  }

  lemma {:induction false} TailAt(a: string, c: char, b: string)
    requires !IsSpace(c)
    ensures Tail(a + [c] + b) == Inner(a) + [c] + Tail(b)
    ensures Simplified(a + [c] + b) == InnerSkip(a) + [c] + Tail(b)
    decreases |a|
  {
    var s := a + [c] + b;
    if a == "" {
      assert s == [c] + b && s[1..] == b;
    } else {
      assert s[0] == a[0] && s[1..] == a[1..] + [c] + b;
      TailAt(a[1..], c, b);
      assert [a[0]] + Inner(a[1..]) + [c] + Tail(b) == [a[0]] + (Inner(a[1..]) + [c] + Tail(b));
      assert [' '] + InnerSkip(a[1..]) + [c] + Tail(b) == [' '] + (InnerSkip(a[1..]) + [c] + Tail(b));
    }
  }

  // Text without white space is not touched.
  predicate Solid(s: string) { forall k :: 0 <= k < |s| ==> !IsSpace(s[k]) }

  lemma {:induction false} SolidStays(s: string)
    requires Solid(s)
    ensures Simplified(s) == s && Tail(s) == s && Inner(s) == s && InnerSkip(s) == s
  {
    if s != "" {
      SolidStays(s[1..]);
    }
  }

  // What simplified() returns contains no white space but blanks, and no character it was not given.
  lemma {:induction false} SimplifiedChars(s: string)
    ensures forall x :: x in Simplified(s) ==> (x == ' ' || !IsSpace(x)) && (x in s || x == ' ')
    ensures forall x :: x in Tail(s) ==> (x == ' ' || !IsSpace(x)) && (x in s || x == ' ')
    ensures forall x :: x in Inner(s) ==> (x == ' ' || !IsSpace(x)) && (x in s || x == ' ')
    ensures forall x :: x in InnerSkip(s) ==> (x == ' ' || !IsSpace(x)) && (x in s || x == ' ')
    decreases |s|
  {
    if s != "" {
      SimplifiedChars(s[1..]);
      assert forall x :: x in s[1..] ==> x in s;
      assert s[0] in s;
    }
  }

  // ----- other operations -----

  function UpperChar(c: char): char
  {
    if 'a' <= c <= 'z' then (c as int - 32) as char else c
  }

  function ToUpper(s: string): (u: string)
    ensures |u| == |s|
    ensures forall k :: 0 <= k < |s| ==> u[k] == UpperChar(s[k])
  {
    seq(|s|, k requires 0 <= k < |s| => UpperChar(s[k]))
  }

  predicate StartsWith(s: string, p: string) { p <= s }

  // QString::right: the last n characters, or all of them when n is negative or too large.
  function Right(s: string, n: int): string
  {
    if n < 0 || n >= |s| then s else s[|s| - n..]
  }
}
