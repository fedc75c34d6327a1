/** Block-wise hashing for any compression function (FIPS 180-2, sections 5.1, 5.2 and 6). */
module MerkleDamgard {
  import opened Basics

  // The two block formats of SHA-2: `wide` is the 1024-bit block of SHA-384/512.
  datatype Format = Format(wide: bool)
  {
    function BlockSize(): nat { if wide then 128 else 64 }

    // The number of bytes in n blocks.
    function Span(n: nat): nat { if wide then 128 * n else 64 * n }

    // The bytes of n beyond its whole blocks.
    function Rest(n: nat): nat { if wide then n % 128 else n % 64 }

    // The bytes section 5.1 reserves for the message length: 128 bits or 64 bits.
    function LengthBytes(): nat { if wide then 16 else 8 }
  }

  // The chaining value after the first n blocks of `data`.
  function Fold<H>(f: (H, seq<Byte>) -> H, fmt: Format, h: H, data: seq<Byte>, n: nat): H
    requires fmt.Span(n) <= |data|
  {
    if n == 0 then h
    else f(Fold(f, fmt, h, data, n - 1), data[fmt.Span(n - 1)..fmt.Span(n)])
  }

  // Folding depends only on the bytes it covers.
  lemma {:induction false} FoldPrefix<H>(
    f: (H, seq<Byte>) -> H, fmt: Format, h: H, data: seq<Byte>, more: seq<Byte>, n: nat)
    requires fmt.Span(n) <= |data|
    ensures Fold(f, fmt, h, data + more, n) == Fold(f, fmt, h, data, n)
  {
    if n > 0 {
      FoldPrefix(f, fmt, h, data, more, n - 1);
      assert (data + more)[fmt.Span(n - 1)..fmt.Span(n)] == data[fmt.Span(n - 1)..fmt.Span(n)];
    }
  }

  lemma SliceBehind<T>(a: seq<T>, b: seq<T>, from: nat, to: nat)
    requires from <= to <= |b|
    ensures (a + b)[|a| + from..|a| + to] == b[from..to]
  {}

  // Hashing two runs of blocks one after the other is hashing their concatenation.
  lemma {:induction false} FoldAppend<H>(
    f: (H, seq<Byte>) -> H, fmt: Format, h: H, a: seq<Byte>, na: nat, b: seq<Byte>, nb: nat)
    requires |a| == fmt.Span(na) && fmt.Span(nb) <= |b|
    ensures Fold(f, fmt, h, a + b, na + nb) == Fold(f, fmt, Fold(f, fmt, h, a, na), b, nb)
  {
    if nb == 0 {
      FoldPrefix(f, fmt, h, a, b, na);
    } else {
      FoldAppend(f, fmt, h, a, na, b, nb - 1);
      SliceBehind(a, b, fmt.Span(nb - 1), fmt.Span(nb));
      assert fmt.Span(na + nb - 1) == |a| + fmt.Span(nb - 1) && fmt.Span(na + nb) == |a| + fmt.Span(nb);
    }
  }

  // ----- Section 5.1: padding -----

  // The cast to an unsigned char.
  function ByteOf(n: nat): Byte { (n % 256) as bv8 }

  // n in big-endian order, in the given number of bytes.
  function BigEndian(n: nat, bytes: nat): (s: seq<Byte>)
    ensures |s| == bytes
  {
    if bytes == 0 then [] else BigEndian(n / 256, bytes - 1) + [ByteOf(n)]
  }

  function Zeros(n: nat): (s: seq<Byte>)
    ensures |s| == n
    ensures forall i :: 0 <= i < n ==> s[i] == 0
  {
    seq(n, i => 0 as Byte)
  }

  // The standard's k: the least number of zero bytes that completes a block.
  function ZeroCount(fmt: Format, n: nat): (k: nat)
  {
    var used := fmt.Rest(n + 1 + fmt.LengthBytes());
    if used == 0 then 0 else fmt.BlockSize() - used
  }

  function PaddedLength(fmt: Format, n: nat): nat { n + 1 + ZeroCount(fmt, n) + fmt.LengthBytes() }

  // The padded message of section 5.1, for a message of fewer than 2^61 bytes (2^125 when wide).
  function FipsPad(fmt: Format, m: seq<Byte>): (p: seq<Byte>)
    ensures |p| == PaddedLength(fmt, |m|)
  {
    m + [0x80] + Zeros(ZeroCount(fmt, |m|)) + BigEndian(8 * |m|, fmt.LengthBytes())
  }

  const TWO32: nat := 0x1_0000_0000

  // The four bytes UNPACK32 writes for a 32-bit value.
  function Unpack32(x: nat): (s: seq<Byte>)
    requires x < TWO32
    ensures |s| == 4
  {
    [ByteOf(x / 0x100_0000), ByteOf(x / 0x1_0000), ByteOf(x / 0x100), ByteOf(x)]
  }

  // The number of blocks `final` appends to when `len` bytes are buffered.
  function TailBlocks(fmt: Format, len: nat): nat
  {
    1 + if fmt.BlockSize() - fmt.LengthBytes() - 1 < fmt.Rest(len) then 1 else 0
  }

  // The whole blocks among n bytes.
  function WholeBlocks(fmt: Format, n: nat): nat { if fmt.wide then n / 128 else n / 64 }

  // What the program hashes in all for message m: m, the 0x80 byte, zeros up to the last four bytes
  // of the last block, and the bit length reduced to 32 bits in those four.
  function ProgramPad(fmt: Format, m: seq<Byte>): (p: seq<Byte>)
  {
    var tail := fmt.Span(TailBlocks(fmt, fmt.Rest(|m|)));
    m + [0x80] + Zeros(tail - fmt.Rest(|m|) - 5) + Unpack32(8 * |m| % TWO32)
  }

  function Power256(k: nat): (p: nat)
    ensures p > 0
  {
    if k == 0 then 1 else 256 * Power256(k - 1)
  }

  lemma {:induction false} BigEndianZero(n: nat, k: nat)
    requires n < Power256(k)
    ensures BigEndian(n, k) == Zeros(k) <==> n == 0
  {
    if k > 0 {
      BigEndianZero(n / 256, k - 1);
      var high, low := BigEndian(n / 256, k - 1), ByteOf(n);
      assert BigEndian(n, k) == high + [low];
      assert Zeros(k) == Zeros(k - 1) + [0];
      assert (high + [low])[..k - 1] == high && (Zeros(k - 1) + [0])[..k - 1] == Zeros(k - 1);
      assert (high + [low])[k - 1] == low;
    }
  }

  lemma SameByte(t: nat, r: nat)
    ensures ByteOf(256 * t + r) == ByteOf(r)
  {
    assert (256 * t + r) % 256 == r % 256;
  }

  // The bytes below bit 32 do not depend on the bits above.
  lemma LowBytes(q: nat, r: nat)
    ensures var n := TWO32 * q + r;
            && ByteOf(n) == ByteOf(r) && ByteOf(n / 0x100) == ByteOf(r / 0x100)
            && ByteOf(n / 0x1_0000) == ByteOf(r / 0x1_0000) && ByteOf(n / 0x100_0000) == ByteOf(r / 0x100_0000)
  {
    hide ByteOf;
    var n := TWO32 * q + r;
    SameByte(0x100_0000 * q, r);
    assert n / 0x100 == 256 * (0x1_0000 * q) + r / 0x100;
    SameByte(0x1_0000 * q, r / 0x100);
    assert n / 0x1_0000 == 256 * (0x100 * q) + r / 0x1_0000;
    SameByte(0x100 * q, r / 0x1_0000);
    assert n / 0x100_0000 == 256 * q + r / 0x100_0000;
    SameByte(q, r / 0x100_0000);
  }

  // A big-endian number splits into the bytes above bit 32 and the four UNPACK32 writes.
  lemma BigEndianSplit(n: nat, k: nat)
    ensures BigEndian(n, k + 4) == BigEndian(n / TWO32, k) + Unpack32(n % TWO32)
  {
    hide ByteOf;
    LowBytes(n / TWO32, n % TWO32);
    var n1, n2, n3, n4 := n / 0x100, n / 0x1_0000, n / 0x100_0000, n / TWO32;
    assert n2 == n1 / 256 && n3 == n2 / 256 && n4 == n3 / 256;
    assert BigEndian(n3, k + 1) == BigEndian(n4, k) + [ByteOf(n3)];
    assert BigEndian(n2, k + 2) == BigEndian(n3, k + 1) + [ByteOf(n2)];
    assert BigEndian(n1, k + 3) == BigEndian(n2, k + 2) + [ByteOf(n1)];
    assert BigEndian(n, k + 4) == BigEndian(n1, k + 3) + [ByteOf(n)];
  }

  // Section 5.1: padding fills whole blocks, with no fewer zero bytes than any other filling.
  lemma ShortestPadding(fmt: Format, m: seq<Byte>, k: nat)
    requires fmt.Rest(|m| + 1 + k + fmt.LengthBytes()) == 0
    ensures fmt.Rest(|FipsPad(fmt, m)|) == 0
    ensures |FipsPad(fmt, m)| <= |m| + 1 + k + fmt.LengthBytes()
  {
    var used := |m| + 1 + fmt.LengthBytes();
    assert |FipsPad(fmt, m)| == used + ZeroCount(fmt, |m|);
    if fmt.wide { FillBlock128(used, k); } else { FillBlock64(used, k); }
  }

  // Two instances, so that each is linear arithmetic.
  lemma FillBlock64(used: nat, k: nat)
    requires (used + k) % 64 == 0
    ensures var z := if used % 64 == 0 then 0 else 64 - used % 64; (used + z) % 64 == 0 && z <= k
  {
    var q, t := used / 64, (used + k) / 64;
    assert used == 64 * q + used % 64 && used + k == 64 * t;
    if used % 64 != 0 { assert used + (64 - used % 64) == 64 * (q + 1); }
  }

  lemma FillBlock128(used: nat, k: nat)
    requires (used + k) % 128 == 0
    ensures var z := if used % 128 == 0 then 0 else 128 - used % 128; (used + z) % 128 == 0 && z <= k
  {
    var q, t := used / 128, (used + k) / 128;
    assert used == 128 * q + used % 128 && used + k == 128 * t;
    if used % 128 != 0 { assert used + (128 - used % 128) == 128 * (q + 1); }
  }

  // The program's `final` always hashes whole blocks, and as many as the standard.
  lemma ProgramPadLength(fmt: Format, m: seq<Byte>)
    ensures |ProgramPad(fmt, m)| == fmt.Span(WholeBlocks(fmt, |m|) + TailBlocks(fmt, fmt.Rest(|m|)))
    ensures |ProgramPad(fmt, m)| == |FipsPad(fmt, m)|
  {
    var n, rest := |m|, fmt.Rest(|m|);
    assert |ProgramPad(fmt, m)| == n - rest + fmt.Span(TailBlocks(fmt, rest));
    assert |FipsPad(fmt, m)| == n + 1 + fmt.LengthBytes() + ZeroCount(fmt, n);
    hide ProgramPad, FipsPad;
    if fmt.wide { Lengths128(fmt, n); } else { Lengths64(fmt, n); }
    hide ZeroCount, TailBlocks, WholeBlocks;
  }

  lemma Lengths64(fmt: Format, n: nat)
    requires !fmt.wide
    ensures var rest := fmt.Rest(n); var tail := TailBlocks(fmt, rest);
            && n - rest + fmt.Span(tail) == fmt.Span(WholeBlocks(fmt, n) + tail)
            && n - rest + fmt.Span(tail) == n + 1 + fmt.LengthBytes() + ZeroCount(fmt, n)
  {
    var blocks, rest := n / 64, n % 64;
    assert n == 64 * blocks + rest && fmt.Rest(n) == rest;
    assert TailBlocks(fmt, rest) == if 55 < rest then 2 else 1;
    assert ZeroCount(fmt, n) == var used := (n + 9) % 64; if used == 0 then 0 else 64 - used;
    TailFills64(blocks, rest);
  }

  lemma Lengths128(fmt: Format, n: nat)
    requires fmt.wide
    ensures var rest := fmt.Rest(n); var tail := TailBlocks(fmt, rest);
            && n - rest + fmt.Span(tail) == fmt.Span(WholeBlocks(fmt, n) + tail)
            && n - rest + fmt.Span(tail) == n + 1 + fmt.LengthBytes() + ZeroCount(fmt, n)
  {
    var blocks, rest := n / 128, n % 128;
    assert n == 128 * blocks + rest && fmt.Rest(n) == rest;
    assert TailBlocks(fmt, rest) == if 111 < rest then 2 else 1;
    assert ZeroCount(fmt, n) == var used := (n + 17) % 128; if used == 0 then 0 else 128 - used;
    TailFills128(blocks, rest);
  }

  lemma TailFills64(blocks: nat, rest: nat)
    requires rest < 64
    ensures var used := 64 * blocks + rest + 9;
            used + (if used % 64 == 0 then 0 else 64 - used % 64) == 64 * (blocks + if 55 < rest then 2 else 1)
  {
    var used := 64 * blocks + rest + 9;
    if rest < 55 {
      assert used == 64 * blocks + (rest + 9);
    } else if rest == 55 {
      assert used == 64 * (blocks + 1);
    } else {
      assert used == 64 * (blocks + 1) + (rest - 55);
    }
  }

  lemma TailFills128(blocks: nat, rest: nat)
    requires rest < 128
    ensures var used := 128 * blocks + rest + 17;
            used + (if used % 128 == 0 then 0 else 128 - used % 128) == 128 * (blocks + if 111 < rest then 2 else 1)
  {
    var used := 128 * blocks + rest + 17;
    if rest < 111 {
      assert used == 128 * blocks + (rest + 17);
    } else if rest == 111 {
      assert used == 128 * (blocks + 1);
    } else {
      assert used == 128 * (blocks + 1) + (rest - 111);
    }
  }

  lemma SameMiddle<T>(head: seq<T>, x: seq<T>, y: seq<T>, tail: seq<T>)
    requires |x| == |y|
    ensures head + x + tail == head + y + tail <==> x == y
  {
    var s, t := head + x + tail, head + y + tail;
    assert s[|head|..|head| + |x|] == x && t[|head|..|head| + |y|] == y;
  }

  // The program pads as the standard does exactly for messages of fewer than 2^29 bytes: its bit
  // length has 32 bits only.  (The standard itself stops at 2^61 bytes, or 2^125 when wide.)
  lemma PadIsFips(fmt: Format, m: seq<Byte>)
    requires 8 * |m| < Power256(fmt.LengthBytes())
    ensures ProgramPad(fmt, m) == FipsPad(fmt, m) <==> |m| < 0x2000_0000
  {
    var zeros, bits, high := ZeroCount(fmt, |m|), 8 * |m|, (fmt.LengthBytes() - 4) as nat;
    var program, fips := ProgramPad(fmt, m), FipsPad(fmt, m);
    ProgramPadLength(fmt, m);
    BigEndianSplit(bits, high);
    assert fips == m + [0x80] + Zeros(zeros) + BigEndian(bits / TWO32, high) + Unpack32(bits % TWO32);
    assert program == m + [0x80] + Zeros(zeros) + Zeros(high) + Unpack32(bits % TWO32) by {
      assert Zeros(zeros) + Zeros(high) == Zeros(zeros + high);
    }
    hide ProgramPad, FipsPad, ZeroCount, BigEndian, Zeros, Unpack32;
    SameMiddle(m + [0x80] + Zeros(zeros), BigEndian(bits / TWO32, high), Zeros(high), Unpack32(bits % TWO32));
    PowerSplit(high);
    BigEndianZero(bits / TWO32, high);
  }

  lemma PowerSplit(k: nat)
    ensures Power256(k + 4) == TWO32 * Power256(k)
  {
    assert Power256(k + 4) == 256 * Power256(k + 3);
    assert Power256(k + 3) == 256 * Power256(k + 2);
    assert Power256(k + 2) == 256 * Power256(k + 1);
  }

  // The program's padding is injective, for messages of any length: the last 0x80 byte before
  // the length marks where the message ends.
  lemma PadInjective(fmt: Format, m1: seq<Byte>, m2: seq<Byte>)
    ensures ProgramPad(fmt, m1) == ProgramPad(fmt, m2) ==> m1 == m2
  {
    MarkerAt(fmt, m1);
    MarkerAt(fmt, m2);
    assert ProgramPad(fmt, m1)[..|m1|] == m1 && ProgramPad(fmt, m2)[..|m2|] == m2;
    hide ProgramPad;
    if ProgramPad(fmt, m1) == ProgramPad(fmt, m2) {
      assert |m1| == |m2|;
    }
  }

  // After the message come 0x80 and then only zeros, up to the four length bytes.
  lemma MarkerAt(fmt: Format, m: seq<Byte>)
    ensures |m| + 5 <= |ProgramPad(fmt, m)|
    ensures ProgramPad(fmt, m)[|m|] == 0x80
    ensures forall i :: |m| < i < |ProgramPad(fmt, m)| - 4 ==> ProgramPad(fmt, m)[i] == 0
  {
  }

  // ----- Streaming: what one call of `update` does to the chaining value -----

  // n bytes are q whole blocks and r more in one way only.
  lemma Divide(fmt: Format, n: nat)
    ensures n == fmt.Span(WholeBlocks(fmt, n)) + fmt.Rest(n) && fmt.Rest(n) < fmt.BlockSize()
  {}

  lemma DivideUnique(fmt: Format, q: nat, r: nat)
    requires r < fmt.BlockSize()
    ensures WholeBlocks(fmt, fmt.Span(q) + r) == q && fmt.Rest(fmt.Span(q) + r) == r
  {}

  // The buffered block is hashed, then the whole blocks that follow it in `rest`.
  lemma AbsorbBlocks<H>(f: (H, seq<Byte>) -> H, fmt: Format, iv: H, hashed: seq<Byte>, nb: nat,
                        full: seq<Byte>, rest: seq<Byte>, bn: nat)
    requires |hashed| == fmt.Span(nb) && |full| == fmt.Span(1) && fmt.Span(bn) <= |rest|
    ensures Fold(f, fmt, iv, hashed + (full + rest[..fmt.Span(bn)]), nb + (1 + bn))
            == Fold(f, fmt, Fold(f, fmt, Fold(f, fmt, iv, hashed, nb), full, 1), rest, bn)
  {
    var whole := rest[..fmt.Span(bn)];
    var h := Fold(f, fmt, iv, hashed, nb);
    FoldAppend(f, fmt, h, full, 1, whole, bn);
    FoldAppend(f, fmt, iv, hashed, nb, full + whole, 1 + bn);
    assert rest == whole + rest[fmt.Span(bn)..];
    FoldPrefix(f, fmt, Fold(f, fmt, h, full, 1), whole, rest[fmt.Span(bn)..], bn);
  }

  // The bytes `final` hashes when `buffer` is waiting and the message so far has n bytes.
  function Tail(fmt: Format, buffer: seq<Byte>, n: nat): (t: seq<Byte>)
    requires |buffer| < fmt.BlockSize()
    ensures |t| == fmt.Span(TailBlocks(fmt, |buffer|))
  {
    buffer + [0x80] + Zeros(fmt.Span(TailBlocks(fmt, |buffer|)) - |buffer| - 5) + Unpack32(8 * n % TWO32)
  }

  // The tail completes the blocks already hashed to the whole padded message.
  lemma PadTail<H>(f: (H, seq<Byte>) -> H, fmt: Format, iv: H, hashed: seq<Byte>, nb: nat, buffer: seq<Byte>)
    requires |hashed| == fmt.Span(nb) && |buffer| < fmt.BlockSize()
    ensures var m, tb := hashed + buffer, TailBlocks(fmt, |buffer|);
            var padded := ProgramPad(fmt, m);
            && padded == hashed + Tail(fmt, buffer, |m|)
            && WholeBlocks(fmt, |padded|) == nb + tb
            && Fold(f, fmt, iv, padded, WholeBlocks(fmt, |padded|))
               == Fold(f, fmt, Fold(f, fmt, iv, hashed, nb), Tail(fmt, buffer, |m|), tb)
  {
    hide WholeBlocks, Unpack32, Fold;
    var tb := TailBlocks(fmt, |buffer|);
    DivideUnique(fmt, nb, |buffer|);
    assert ProgramPad(fmt, hashed + buffer) == hashed + Tail(fmt, buffer, |hashed + buffer|);
    assert fmt.Span(nb + tb) == fmt.Span(nb) + fmt.Span(tb);
    DivideUnique(fmt, nb + tb, 0);
    FoldAppend(f, fmt, iv, hashed, nb, Tail(fmt, buffer, |hashed + buffer|), tb);
  }
}
