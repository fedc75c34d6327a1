/** miner/base64.hpp, with the table of section 4 of RFC 4648. */
module Base64 {
  import opened Basics

  // base64_chars()[n]
  function CharAt(n: Byte): char
    requires n < 64
  {
    var v := n as int;
    if v < 26 then ('A' as int + v) as char
    else if v < 52 then ('a' as int + v - 26) as char
    else if v < 62 then ('0' as int + v - 52) as char
    else if v == 62 then '+'
    else '/'
  }

  // base64_chars().find(c), cut to a byte: npos becomes 255.
  function Find(c: char): Byte
  {
    if 'A' <= c <= 'Z' then (c as int - 'A' as int) as bv8
    else if 'a' <= c <= 'z' then (c as int - 'a' as int + 26) as bv8
    else if '0' <= c <= '9' then (c as int - '0' as int + 52) as bv8
    else if c == '+' then 62
    else if c == '/' then 63
    else 255
  }

  // is_base64: '_' and '-' in place of the two last characters of the table
  predicate IsBase64(c: char)
  {
    'A' <= c <= 'Z' || 'a' <= c <= 'z' || '0' <= c <= '9' || c == '_' || c == '-'
  }

  lemma FindOfChar(n: Byte)
    requires n < 64
    ensures Find(CharAt(n)) == n
    ensures CharAt(n) != '=' && (IsBase64(CharAt(n)) <==> n < 62)
  {
    var v := n as int;
    assert v < 62 <==> n < 62;
    assert v < 26 ==> Find(CharAt(n)) == v as bv8;
    assert 26 <= v < 52 ==> Find(CharAt(n)) == v as bv8;
    assert 52 <= v < 62 ==> Find(CharAt(n)) == v as bv8;
    assert v == 62 || v == 63 ==> Find(CharAt(n)) == v as bv8;
    assert v as bv8 == n;
  }

  // ----- Encoding -----

  // char_array_4 from char_array_3
  function Sextets(a: Byte, b: Byte, c: Byte): (s: seq<Byte>)
    ensures |s| == 4 && s[0] < 64 && s[1] < 64 && s[2] < 64 && s[3] < 64
  {
    [(a & 0xfc) >> 2, ((a & 0x03) << 4) + ((b & 0xf0) >> 4), ((b & 0x0f) << 2) + ((c & 0xc0) >> 6), c & 0x3f]
  }

  // All the sextets of a byte string.
  function AllSextets(bytes: seq<Byte>): (s: seq<Byte>)
    ensures forall k :: 0 <= k < |s| ==> s[k] < 64
  {
    if |bytes| == 0 then []
    else if |bytes| == 1 then Sextets(bytes[0], 0, 0)[..2]
    else if |bytes| == 2 then Sextets(bytes[0], bytes[1], 0)[..3]
    else Sextets(bytes[0], bytes[1], bytes[2]) + AllSextets(bytes[3..])
  }

  function SextetCount(n: nat): nat { 4 * (n / 3) + if n % 3 == 0 then 0 else n % 3 + 1 }

  lemma {:induction false} CountSextets(bytes: seq<Byte>)
    ensures |AllSextets(bytes)| == SextetCount(|bytes|)
  {
    hide Sextets;
    if |bytes| > 2 {
      CountSextets(bytes[3..]);
    }
  }

  function Chars(s: seq<Byte>): (t: string)
    requires forall k :: 0 <= k < |s| ==> s[k] < 64
    ensures |t| == |s| && forall k :: 0 <= k < |s| ==> t[k] == CharAt(s[k])
  {
    seq(|s|, k requires 0 <= k < |s| => CharAt(s[k]))
  }

  function Padding(n: nat): string { if n % 3 == 0 then "" else if n % 3 == 1 then "==" else "=" }

  // The characters for a byte string and for one group, before any padding.
  function Text(bytes: seq<Byte>): string { Chars(AllSextets(bytes)) }

  function Quad(a: Byte, b: Byte, c: Byte): string { Chars(Sextets(a, b, c)) }

  function Encoded(bytes: seq<Byte>): string { Text(bytes) + Padding(|bytes|) }

  lemma Behind<T>(x: seq<T>, y: seq<T>, n: nat)
    requires n <= |x|
    ensures (x + y)[n..] == x[n..] + y
  {}

  lemma {:induction false} SextetsAppend(x: seq<Byte>, y: seq<Byte>)
    requires |x| % 3 == 0
    ensures AllSextets(x + y) == AllSextets(x) + AllSextets(y)
  {
    hide Sextets;
    if x == [] {
      assert x + y == y;
    } else {
      SextetsAppend(x[3..], y);
      Behind(x, y, 3);
      assert AllSextets(x) == Sextets(x[0], x[1], x[2]) + AllSextets(x[3..]);
      assert AllSextets(x + y) == Sextets(x[0], x[1], x[2]) + (AllSextets(x[3..]) + AllSextets(y));
    }
  }

  lemma CharsAppend(x: seq<Byte>, y: seq<Byte>)
    requires forall k :: 0 <= k < |x + y| ==> (x + y)[k] < 64
    ensures (forall k :: 0 <= k < |x| ==> x[k] < 64) && (forall k :: 0 <= k < |y| ==> y[k] < 64)
    ensures Chars(x + y) == Chars(x) + Chars(y)
  {
    assert forall k :: 0 <= k < |x| ==> x[k] == (x + y)[k];
    assert forall k :: 0 <= k < |y| ==> y[k] == (x + y)[|x| + k];
    hide CharAt, Chars;
    var joined := Chars(x) + Chars(y);
    forall k | 0 <= k < |x + y|
      ensures Chars(x + y)[k] == joined[k]
    {
      if k < |x| {
        assert joined[k] == Chars(x)[k];
      } else {
        assert joined[k] == Chars(y)[k - |x|] && (x + y)[k] == y[k - |x|];
      }
    }
  }

  // The third byte of a group completes four characters.
  lemma EncodeGroup(done: seq<Byte>, a: Byte, b: Byte, c: Byte)
    requires Threes(done)
    ensures Threes(done + [a, b, c])
    ensures Text(done + [a, b, c]) == Text(done) + Quad(a, b, c)
  {
    assert |done + [a, b, c]| == |done| + 3;
    var group := [a, b, c];
    SextetsAppend(done, group);
    hide Sextets, Chars, CharAt;
    assert group[3..] == [] && AllSextets(group) == Sextets(a, b, c) + AllSextets([]);
    CharsAppend(AllSextets(done), AllSextets(group));
  }

  // One or two bytes left over, filled up with zero bytes.
  lemma EncodeTail(done: seq<Byte>, tail: seq<Byte>)
    requires |done| % 3 == 0 && 0 < |tail| < 3
    ensures var s := Sextets(tail[0], if |tail| == 1 then 0 else tail[1], 0)[..|tail| + 1];
            Text(done + tail) == Text(done) + Chars(s)
  {
    SextetsAppend(done, tail);
    hide Sextets, Chars, CharAt;
    CharsAppend(AllSextets(done), AllSextets(tail));
  }

  // What is done and the part of a group that waits are the first n elements of the input.
  ghost predicate Buffered<T>(done: seq<T>, part: seq<T>, input: seq<T>, n: nat)
    requires n <= |input|
  {
    done + part == input[..n]
  }

  lemma Extend<T>(done: seq<T>, part: seq<T>, input: seq<T>, n: nat)
    requires n < |input| && Buffered(done, part, input, n)
    ensures Buffered(done, part + [input[n]], input, n + 1) && Buffered(done + (part + [input[n]]), [], input, n + 1)
  {
    assert done + (part + [input[n]]) == (done + part) + [input[n]];
  }

  lemma AllBuffered<T>(done: seq<T>, part: seq<T>, input: seq<T>, n: nat)
    requires n <= |input| && Buffered(done, part, input, n)
    ensures done + part == input[..n] && (part == [] ==> done == input[..n]) && input[..|input|] == input
  {}

  ghost predicate Threes(bytes: seq<Byte>) { |bytes| % 3 == 0 }

  // base64_encode
  method Encode(bytes: seq<Byte>) returns (ret: string)
    ensures ret == Encoded(bytes)
  {
    assert Text([]) == "" && Threes([]) && Buffered([], [], bytes, 0);
    hide Text, Quad, Encoded, Buffered, Threes;
    var a3 := new Byte[3];
    var i := 0;
    ghost var done := [];
    ret := "";
    assert a3[..0] == [];
    for n := 0 to |bytes|
      invariant 0 <= i < 3 && Threes(done)
      invariant Buffered(done, a3[..i], bytes, n)
      invariant ret == Text(done)
    {
      Extend(done, a3[..i], bytes, n);
      ghost var part := a3[..i] + [bytes[n]];
      a3[i] := bytes[n];
      i := i + 1;
      assert a3[..i] == part;
      if i == 3 {
        assert part == [a3[0], a3[1], a3[2]];
        EncodeGroup(done, a3[0], a3[1], a3[2]);
        ret := ret + Quad(a3[0], a3[1], a3[2]);
        done, i := done + part, 0;
        assert a3[..0] == [];
      }
    }
    AllBuffered(done, a3[..i], bytes, |bytes|);
    if i != 0 {
      ret := FinishEncoding(done, ret, i, a3);
    } else {
      assert a3[..0] == [];
      WholeGroups(done);
    }
  }

  lemma WholeGroups(bytes: seq<Byte>)
    requires Threes(bytes)
    ensures Encoded(bytes) == Text(bytes)
  {
    hide Text;
  }

  method FinishEncoding(ghost done: seq<Byte>, sofar: string, left: nat, a3: array<Byte>) returns (ret: string)
    requires 0 < left < 3 && Threes(done) && a3.Length == 3
    requires sofar == Text(done)
    ensures ret == Encoded(done + a3[..left])
  {
    hide Sextets, CharAt, Text, Chars;
    var i := left;
    var b1 := if i == 1 then 0 else a3[1];
    EncodeTail(done, a3[..i]);
    ret := sofar + Chars(Sextets(a3[0], b1, 0)[..i + 1]);
    while i < 3
      invariant left <= i <= 3
      invariant ret + (if i == 1 then "==" else if i == 2 then "=" else "") == Encoded(done + a3[..left])
    {
      ret := ret + "=";
      i := i + 1;
    }
  }

  // ----- Decoding -----

  // char_array_3 from char_array_4
  function Bytes3(s0: Byte, s1: Byte, s2: Byte, s3: Byte): (b: seq<Byte>)
    ensures |b| == 3
  {
    [(s0 << 2) + ((s1 & 0x30) >> 4), ((s1 & 0xf) << 4) + ((s2 & 0x3c) >> 2), ((s2 & 0x3) << 6) + s3]
  }

  function Unquad(g: string): (b: seq<Byte>)
    requires |g| == 4
  {
    Bytes3(Find(g[0]), Find(g[1]), Find(g[2]), Find(g[3]))
  }

  // The characters up to the first that is '=' or not in is_base64.
  function Accepted(s: string): (t: string)
    ensures t <= s
    ensures |t| < |s| ==> s[|t|] == '=' || !IsBase64(s[|t|])
    ensures forall k :: 0 <= k < |t| ==> t[k] != '=' && IsBase64(t[k])
  {
    if s == "" || s[0] == '=' || !IsBase64(s[0]) then "" else [s[0]] + Accepted(s[1..])
  }

  // Whole groups of four, and from a shorter last group one byte less than its characters; find
  // gives 255 for the characters it lacks.
  function DecodedChars(g: string): seq<Byte>
  {
    if |g| == 0 then []
    else if |g| == 1 then []
    else if |g| == 2 then Bytes3(Find(g[0]), Find(g[1]), 255, 255)[..1]
    else if |g| == 3 then Bytes3(Find(g[0]), Find(g[1]), Find(g[2]), 255)[..2]
    else Bytes3(Find(g[0]), Find(g[1]), Find(g[2]), Find(g[3])) + DecodedChars(g[4..])
  }

  function Decoded(s: string): seq<Byte> { DecodedChars(Accepted(s)) }

  lemma {:induction false} DecodedAppend(x: string, y: string)
    requires |x| % 4 == 0
    ensures DecodedChars(x + y) == DecodedChars(x) + DecodedChars(y)
  {
    hide Bytes3, Find;
    if x == "" {
      assert x + y == y;
    } else {
      DecodedAppend(x[4..], y);
      Behind(x, y, 4);
    }
  }

  lemma FoursGrow(done: string, g: string)
    requires Fours(done) && |g| == 4
    ensures Fours(done + g)
  {
    assert |done + g| == |done| + 4;
  }

  lemma OneGroup(g: string)
    requires |g| == 4
    ensures DecodedChars(g) == Unquad(g)
  {
    hide Bytes3, Find;
    assert g[4..] == "";
  }

  ghost predicate Fours(chars: string) { |chars| % 4 == 0 }

  lemma DecodeGroup(done: string, g: string)
    requires Fours(done) && |g| == 4
    ensures Fours(done + g)
    ensures DecodedChars(done + g) == DecodedChars(done) + Unquad(g)
  {
    OneGroup(g);
    DecodedAppend(done, g);
    FoursGrow(done, g);
    hide Unquad, DecodedChars, Fours;
  }

  lemma DecodeTail(done: string, g: string)
    requires |done| % 4 == 0 && 0 < |g| < 4
    ensures var f1, f2 := if |g| > 1 then Find(g[1]) else 255, if |g| > 2 then Find(g[2]) else 255;
            DecodedChars(done + g) == DecodedChars(done) + Bytes3(Find(g[0]), f1, f2, 255)[..|g| - 1]
  {
    hide Bytes3, Find;
    DecodedAppend(done, g);
  }

  predicate Ends(s: string, n: nat)
    requires n <= |s|
  {
    n == |s| || s[n] == '=' || !IsBase64(s[n])
  }

  predicate AllBase64(s: string) { forall c :: c in s ==> c != '=' && IsBase64(c) }

  lemma {:induction false} DecodedUpTo(s: string, n: nat)
    requires n <= |s| && AllBase64(s[..n]) && Ends(s, n)
    ensures Decoded(s) == DecodedChars(s[..n])
  {
    hide IsBase64, DecodedChars;
    AcceptedUpTo(s, n);
  }

  lemma {:induction false} AcceptedUpTo(s: string, n: nat)
    requires n <= |s| && AllBase64(s[..n]) && Ends(s, n)
    ensures Accepted(s) == s[..n]
  {
    hide IsBase64;
    if n > 0 {
      assert s[..n][0] == s[0] && s[0] in s[..n];
      assert s[..n] == [s[0]] + s[1..][..n - 1];
      assert forall c :: c in s[1..][..n - 1] ==> c in s[..n];
      assert n < |s| ==> s[1..][n - 1] == s[n];
      AcceptedUpTo(s[1..], n - 1);
      assert Accepted(s) == [s[0]] + Accepted(s[1..]);
    }
  }

  lemma OneMore(s: string, n: nat)
    requires n < |s| && AllBase64(s[..n]) && s[n] != '=' && IsBase64(s[n])
    ensures AllBase64(s[..n + 1])
  {
    hide IsBase64;
    assert s[..n + 1] == s[..n] + [s[n]];
  }

  // base64_decode
  method Decode(s: string) returns (ret: seq<Byte>)
    ensures ret == Decoded(s)
  {
    assert DecodedChars("") == [] && AllBase64(s[..0]) && Fours("") && Buffered("", "", s, 0);
    hide IsBase64, AllBase64, DecodedChars, Decoded, Unquad, Buffered, Fours;
    var a4 := new char[4];
    var i, n := 0, 0;
    ghost var done := "";
    ret := [];
    assert a4[..0] == "";
    while n < |s| && s[n] != '=' && IsBase64(s[n])
      invariant 0 <= n <= |s| && 0 <= i < 4 && Fours(done)
      invariant Buffered(done, a4[..i], s, n)
      invariant AllBase64(s[..n])
      invariant ret == DecodedChars(done)
    {
      OneMore(s, n);
      Extend(done, a4[..i], s, n);
      ghost var part := a4[..i] + [s[n]];
      a4[i] := s[n];
      i := i + 1;
      n := n + 1;
      assert a4[..i] == part;
      if i == 4 {
        assert a4[..] == part;
        DecodeGroup(done, part);
        done := done + part;
        ret := ret + Unquad(a4[..]);
        i := 0;
        assert a4[..0] == "";
      }
    }
    DecodedUpTo(s, n);
    AllBuffered(done, a4[..i], s, n);
    if i != 0 {
      ret := FinishDecoding(done, ret, i, a4);
    } else {
      assert a4[..0] == "";
    }
  }

  // find on the zero bytes put in place of the missing characters gives npos.
  method FinishDecoding(ghost done: string, sofar: seq<Byte>, i: nat, a4: array<char>) returns (ret: seq<Byte>)
    requires 0 < i < 4 && Fours(done) && a4.Length == 4
    requires sofar == DecodedChars(done)
    ensures ret == DecodedChars(done + a4[..i])
  {
    hide Bytes3, Find, DecodedChars;
    var f1 := if i > 1 then Find(a4[1]) else 255;
    var f2 := if i > 2 then Find(a4[2]) else 255;
    DecodeTail(done, a4[..i]);
    ret := sofar + Bytes3(Find(a4[0]), f1, f2, 255)[..i - 1];
  }

  // ----- The round trip -----

  // Four sextets give back the three bytes, and fewer of them the bytes they cover, whatever is read
  // for those that are missing.
  lemma GroupRoundTrip(a: Byte, b: Byte, c: Byte, x: Byte, y: Byte)
    ensures var s := Sextets(a, b, c);
            && Bytes3(s[0], s[1], s[2], s[3]) == [a, b, c]
            && Bytes3(s[0], s[1], s[2], y)[..2] == [a, b]
            && Bytes3(s[0], s[1], x, y)[..1] == [a]
  {}

  // Bytes that p characters decode to.
  function ByteCount(p: nat): nat { 3 * (p / 4) + if p % 4 == 0 then 0 else p % 4 - 1 }

  lemma {:induction false} DecodePrefix(bytes: seq<Byte>, p: nat)
    requires p <= |AllSextets(bytes)|
    ensures ByteCount(p) <= |bytes|
    ensures DecodedChars(Text(bytes)[..p]) == bytes[..ByteCount(p)]
    decreases |bytes|
  {
    if p < 4 {
      DecodeShort(bytes, p);
    } else {
      assert |bytes| > 2 ==> |AllSextets(bytes)| == 4 + |AllSextets(bytes[3..])|;
      hide DecodedChars, AllSextets, Text, ByteCount;
      CountSextets(bytes);
      if |bytes| > 2 {
        DecodePrefix(bytes[3..], p - 4);
        DecodeLong(bytes, p);
      }
    }
  }

  lemma DecodeLong(bytes: seq<Byte>, p: nat)
    requires |bytes| > 2 && 4 <= p <= |Text(bytes)|
    requires p - 4 <= |Text(bytes[3..])|
    requires ByteCount(p - 4) <= |bytes| - 3
    requires DecodedChars(Text(bytes[3..])[..p - 4]) == bytes[3..][..ByteCount(p - 4)]
    ensures ByteCount(p) <= |bytes|
    ensures DecodedChars(Text(bytes)[..p]) == bytes[..ByteCount(p)]
  {
    hide DecodedChars, Text, Quad, ByteCount;
    var quad := Quad(bytes[0], bytes[1], bytes[2]);
    TextStep(bytes);
    Across(quad, Text(bytes[3..]), p);
    DecodeFirst(bytes[0], bytes[1], bytes[2], Text(bytes[3..])[..p - 4]);
    CountStep(p);
    assert bytes == [bytes[0], bytes[1], bytes[2]] + bytes[3..];
    Across([bytes[0], bytes[1], bytes[2]], bytes[3..], ByteCount(p));
  }

  lemma TextStep(bytes: seq<Byte>)
    requires |bytes| > 2
    ensures |Quad(bytes[0], bytes[1], bytes[2])| == 4
    ensures Text(bytes) == Quad(bytes[0], bytes[1], bytes[2]) + Text(bytes[3..])
  {
    var q := Sextets(bytes[0], bytes[1], bytes[2]);
    assert AllSextets(bytes) == q + AllSextets(bytes[3..]);
    hide CharAt, Sextets, AllSextets, Chars;
    CharsAppend(q, AllSextets(bytes[3..]));
  }

  lemma Across<T>(x: seq<T>, y: seq<T>, p: nat)
    requires |x| <= p <= |x + y|
    ensures (x + y)[..p] == x + y[..p - |x|]
  {}

  lemma DecodeShort(bytes: seq<Byte>, p: nat)
    requires p < 4 && p <= |AllSextets(bytes)|
    ensures ByteCount(p) <= |bytes|
    ensures DecodedChars(Text(bytes)[..p]) == bytes[..ByteCount(p)]
  {
    if p > 0 {
      var b, c := if |bytes| > 1 then bytes[1] else 0, if |bytes| > 2 then bytes[2] else 0;
      var q := Sextets(bytes[0], b, c);
      assert AllSextets(bytes)[..p] == q[..p] && ByteCount(p) <= |bytes|;
      hide Bytes3, Find, CharAt, Sextets, AllSextets, DecodedChars, Chars, ByteCount;
      FirstChars(AllSextets(bytes), p);
      DecodePart(bytes[0], b, c, p);
      assert ByteCount(p) <= 3 && bytes[..ByteCount(p)] == [bytes[0], b, c][..ByteCount(p)];
    }
  }

  lemma FirstChars(s: seq<Byte>, p: nat)
    requires p <= |s| && forall k :: 0 <= k < |s| ==> s[k] < 64
    ensures Chars(s[..p]) == Chars(s)[..p]
  {
    hide CharAt;
  }

  lemma CountStep(p: nat)
    requires p >= 4
    ensures ByteCount(p) == 3 + ByteCount(p - 4)
  {}

  lemma DecodeFirst(a: Byte, b: Byte, c: Byte, rest: string)
    ensures DecodedChars(Quad(a, b, c) + rest) == [a, b, c] + DecodedChars(rest)
  {
    hide Bytes3, Find, CharAt, Sextets;
    var s := Sextets(a, b, c);
    FindOfChar(s[0]);
    FindOfChar(s[1]);
    FindOfChar(s[2]);
    FindOfChar(s[3]);
    GroupRoundTrip(a, b, c, 255, 255);
    assert (Chars(s) + rest)[4..] == rest;
  }

  lemma DecodePart(a: Byte, b: Byte, c: Byte, p: nat)
    requires p < 4
    ensures DecodedChars(Chars(Sextets(a, b, c)[..p])) == [a, b, c][..ByteCount(p)]
  {
    hide Bytes3, Find, CharAt, Sextets;
    var s := Sextets(a, b, c);
    FindOfChar(s[0]);
    FindOfChar(s[1]);
    FindOfChar(s[2]);
    GroupRoundTrip(a, b, c, 255, 255);
    assert [a, b, c][..2] == [a, b] && [a, b, c][..1] == [a] && [a, b, c][..0] == [];
  }

  // Decoding what was encoded gives a prefix of it, and all of it exactly when the encoding has
  // neither of the two characters that is_base64 does not know.
  lemma RoundTrip(bytes: seq<Byte>)
    ensures Decoded(Encoded(bytes)) <= bytes
    ensures Decoded(Encoded(bytes)) == bytes <==> '+' !in Encoded(bytes) && '/' !in Encoded(bytes)
  {
    var s, e := AllSextets(bytes), Encoded(bytes);
    var p := |Accepted(e)|;
    hide Sextets, AllSextets, DecodedChars, Chars, Accepted;
    AcceptedChars(s, Padding(|bytes|));
    CountSextets(bytes);
    DecodePrefix(bytes, p);
    assert ByteCount(p) == |bytes| <==> p == |s|;
  }

  // The characters of sextets are accepted up to the first '+' or '/', and no padding is.
  lemma AcceptedChars(s: seq<Byte>, padding: string)
    requires forall k :: 0 <= k < |s| ==> s[k] < 64
    requires forall k :: 0 <= k < |padding| ==> padding[k] == '='
    ensures var t, e := Chars(s), Chars(s) + padding; var p := |Accepted(e)|;
            && p <= |s| && Accepted(e) == t[..p]
            && (p == |s| <==> '+' !in e && '/' !in e)
  {
    hide CharAt;
    var t := Chars(s);
    forall k | 0 <= k < |s|
      ensures t[k] != '=' && (IsBase64(t[k]) <==> t[k] != '+' && t[k] != '/')
    {
      TableChars(s[k]);
    }
    hide IsBase64, Chars;
    var e := t + padding;
    var p := |Accepted(e)|;
    assert |s| < |e| ==> e[|s|] == '=';
    assert Accepted(e) == t[..p];
    if p < |s| {
      assert t[p] == e[p] && e[p] in e;
    } else {
      assert forall k :: 0 <= k < |s| ==> t[k] == t[..p][k];
      assert forall x :: x in e ==> x in t || x == '=';
    }
  }

  lemma TableChars(n: Byte)
    requires n < 64
    ensures CharAt(n) != '=' && (IsBase64(CharAt(n)) <==> CharAt(n) != '+' && CharAt(n) != '/')
  {
    FindOfChar(n);
  }
}
