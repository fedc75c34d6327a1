/** The SHA-2 engine of miner/sha2.cpp against FIPS 180-2, sections 6.2 to 6.4.

    SHA-224/256 and SHA-384/512 are the same text in the program, twice over, with other words,
    constants and block sizes.  A `Family` holds what differs, and each routine is written once. */
module Sha2 {
  import opened Basics
  import opened MerkleDamgard

  datatype Family<!W(!new)> = Family(
    fmt: Format,
    k: seq<W>,                 // round constants
    add: (W, W) -> W,          // addition modulo the word size
    ch: (W, W, W) -> W,
    maj: (W, W, W) -> W,
    F1: W -> W,                // capital sigma 0
    F2: W -> W,                // capital sigma 1
    F3: W -> W,                // small sigma 0
    F4: W -> W,                // small sigma 1
    pack: seq<Byte> -> W,      // big-endian bytes to a word
    unpack: W -> seq<Byte>)    // a word to big-endian bytes
  {
    function Rounds(): nat { |k| }

    function WordBytes(): nat { if fmt.wide then 8 else 4 }

    ghost predicate Valid()
    {
      |k| == (if fmt.wide then 80 else 64) && forall x :: |unpack(x)| == WordBytes()
    }
  }

  // ----- The standard: one block (section 6.2.2) -----

  function Round<W(!new)>(fam: Family<W>, s: seq<W>, k: W, w: W): (r: seq<W>)
    requires |s| == 8
    ensures |r| == 8
  {
    var t1 := T1(fam, s[4], s[5], s[6], s[7], k, w);
    var t2 := T2(fam, s[0], s[1], s[2]);
    [fam.add(t1, t2), s[0], s[1], s[2], fam.add(s[3], t1), s[4], s[5], s[6]]
  }

  function RunRounds<W(!new)>(fam: Family<W>, s: seq<W>, w: seq<W>, n: nat): (r: seq<W>)
    requires |s| == 8 && n <= |w| && n <= |fam.k|
    ensures |r| == 8
  {
    if n == 0 then s else Round(fam, RunRounds(fam, s, w, n - 1), fam.k[n - 1], w[n - 1])
  }

  // The first n words of the message schedule of a block given as its 16 words.
  function Schedule<W(!new)>(fam: Family<W>, m: seq<W>, n: nat): (w: seq<W>)
    requires |m| == 16 && n >= 16
    ensures |w| == n
  {
    if n == 16 then m
    else
      var w, t := Schedule(fam, m, n - 1), n - 1;
      w + [fam.add(fam.add(fam.add(fam.F4(w[t - 2]), w[t - 7]), fam.F3(w[t - 15])), w[t - 16])]
  }

  // Word j of a block.
  function WordAt<W(!new)>(fam: Family<W>, block: seq<Byte>, j: nat): W
    requires |block| == fam.fmt.BlockSize() && j < 16
  {
    fam.pack(if fam.fmt.wide then block[8 * j..8 * j + 8] else block[4 * j..4 * j + 4])
  }

  function Words<W(!new)>(fam: Family<W>, block: seq<Byte>): (m: seq<W>)
    requires |block| == fam.fmt.BlockSize()
    ensures |m| == 16
  {
    seq(16, j requires 0 <= j < 16 => WordAt(fam, block, j))
  }

  function AddRegs<W(!new)>(fam: Family<W>, s: seq<W>, t: seq<W>): (r: seq<W>)
    requires |s| == 8 && |t| == 8
    ensures |r| == 8
  {
    seq(8, i requires 0 <= i < 8 => fam.add(s[i], t[i]))
  }

  function CompressBlock<W(!new)>(fam: Family<W>, h: seq<W>, block: seq<Byte>): (r: seq<W>)
    requires |h| == 8 && |block| == fam.fmt.BlockSize() && fam.Rounds() >= 16
    ensures |r| == 8
  {
    AddRegs(fam, h, RunRounds(fam, h, Schedule(fam, Words(fam, block), fam.Rounds()), fam.Rounds()))
  }

  // The compression function as a total function, for Fold.
  function Compress<W(!new)>(fam: Family<W>): (seq<W>, seq<Byte>) -> seq<W>
  {
    (h, block) =>
      if |h| == 8 && |block| == fam.fmt.BlockSize() && fam.Rounds() >= 16 then CompressBlock(fam, h, block) else h
  }

  // ----- Unrolled rounds -----

  // Where the unrolled code keeps register i (a is 0, h is 7) after r rounds.
  function At(i: nat, r: nat): (j: nat)
    requires i < 8 && r <= 8
    ensures j < 8
  {
    if i < r then i + 8 - r else i - r
  }

  // The registers a..h in order, read from where they are after r rounds.
  function View<W>(v: seq<W>, r: nat): (s: seq<W>)
    requires |v| == 8 && r <= 8
    ensures |s| == 8
  {
    [v[At(0, r)], v[At(1, r)], v[At(2, r)], v[At(3, r)], v[At(4, r)], v[At(5, r)], v[At(6, r)], v[At(7, r)]]
  }

  // T1 and T2 of the registers found at the given places.
  function T1<W(!new)>(fam: Family<W>, e: W, f: W, g: W, h: W, k: W, w: W): W
  {
    fam.add(fam.add(fam.add(fam.add(h, fam.F2(e)), fam.ch(e, f, g)), k), w)
  }

  function T2<W(!new)>(fam: Family<W>, a: W, b: W, c: W): W
  {
    fam.add(fam.F1(a), fam.maj(a, b, c))
  }

  // What SHA256_EXP/SHA512_EXP stores when its index list is rotated right by r.
  function Exp<W(!new)>(fam: Family<W>, v: seq<W>, r: nat, k: W, w: W): (v': seq<W>)
    requires |v| == 8 && r < 8
    ensures |v'| == 8
  {
    var t1 := T1(fam, v[At(4, r)], v[At(5, r)], v[At(6, r)], v[At(7, r)], k, w);
    var t2 := T2(fam, v[At(0, r)], v[At(1, r)], v[At(2, r)]);
    v[At(3, r) := fam.add(v[At(3, r)], t1)][At(7, r) := fam.add(t1, t2)]
  }

  // Writing two registers and rotating the names of all eight is one round of the standard.
  lemma ExpIsRound<W(!new)>(fam: Family<W>, v: seq<W>, r: nat, k: W, w: W)
    requires |v| == 8 && r < 8
    ensures View(Exp(fam, v, r, k, w), r + 1) == Round(fam, View(v, r), k, w)
  {
  }

  // SHA256_EXP/SHA512_EXP: the registers are renamed by the index list, not moved.
  method ExpMacro<W(!new)>(fam: Family<W>, wv: array<W>, a: nat, b: nat, c: nat, d: nat, e: nat, f: nat, g: nat, h: nat,
                           kj: W, wj: W, ghost r: nat)
    requires wv.Length == 8 && r < 8
    requires [a, b, c, d, e, f, g, h]
             == [At(0, r), At(1, r), At(2, r), At(3, r), At(4, r), At(5, r), At(6, r), At(7, r)]
    modifies wv
    ensures View(wv[..], r + 1) == Round(fam, View(old(wv[..]), r), kj, wj)
  {
    assert a == [a, b, c, d, e, f, g, h][0] && b == [a, b, c, d, e, f, g, h][1] && c == [a, b, c, d, e, f, g, h][2];
    assert d == [a, b, c, d, e, f, g, h][3] && e == [a, b, c, d, e, f, g, h][4] && f == [a, b, c, d, e, f, g, h][5];
    assert g == [a, b, c, d, e, f, g, h][6] && h == [a, b, c, d, e, f, g, h][7];
    var t1 := T1(fam, wv[e], wv[f], wv[g], wv[h], kj, wj);
    var t2 := T2(fam, wv[a], wv[b], wv[c]);
    wv[d] := fam.add(wv[d], t1);
    wv[h] := fam.add(t1, t2);
    assert wv[..] == Exp(fam, old(wv[..]), r, kj, wj);
    ExpIsRound(fam, old(wv[..]), r, kj, wj);
  }

  // The unrolled rounds (the branch that is compiled): eight macros in turn rename the registers
  // back to where they began.
  method UnrolledRounds<W(!new)>(fam: Family<W>, w: array<W>, wv: array<W>)
    requires fam.Valid() && w.Length == fam.Rounds() && wv.Length == 8 && w != wv
    modifies wv
    ensures wv[..] == RunRounds(fam, old(wv[..]), w[..], fam.Rounds())
  {
    hide Round;
    ghost var s, ws := wv[..], w[..];
    var j := 0;
    while j < fam.Rounds()
      invariant j <= fam.Rounds() && (fam.Rounds() - j) % 8 == 0
      invariant w[..] == ws
      invariant wv[..] == RunRounds(fam, s, ws, j)
    {
      EightRounds(fam, w, wv, s, ws, j);
      j := j + 8;
    }
  }

  method EightRounds<W(!new)>(fam: Family<W>, w: array<W>, wv: array<W>, ghost s: seq<W>, ghost ws: seq<W>, j: nat)
    requires wv.Length == 8 && w != wv && |s| == 8
    requires j + 8 <= |fam.k| == w.Length && w[..] == ws
    requires wv[..] == RunRounds(fam, s, ws, j)
    modifies wv
    ensures w[..] == ws && wv[..] == RunRounds(fam, s, ws, j + 8)
  {
    hide Round;
    assert View(wv[..], 0) == wv[..];
    ExpMacro(fam, wv, 0, 1, 2, 3, 4, 5, 6, 7, fam.k[j], w[j], 0);
    assert View(wv[..], 1) == RunRounds(fam, s, ws, j + 1);
    ExpMacro(fam, wv, 7, 0, 1, 2, 3, 4, 5, 6, fam.k[j + 1], w[j + 1], 1);
    assert View(wv[..], 2) == RunRounds(fam, s, ws, j + 2);
    ExpMacro(fam, wv, 6, 7, 0, 1, 2, 3, 4, 5, fam.k[j + 2], w[j + 2], 2);
    assert View(wv[..], 3) == RunRounds(fam, s, ws, j + 3);
    ExpMacro(fam, wv, 5, 6, 7, 0, 1, 2, 3, 4, fam.k[j + 3], w[j + 3], 3);
    assert View(wv[..], 4) == RunRounds(fam, s, ws, j + 4);
    ExpMacro(fam, wv, 4, 5, 6, 7, 0, 1, 2, 3, fam.k[j + 4], w[j + 4], 4);
    assert View(wv[..], 5) == RunRounds(fam, s, ws, j + 5);
    ExpMacro(fam, wv, 3, 4, 5, 6, 7, 0, 1, 2, fam.k[j + 5], w[j + 5], 5);
    assert View(wv[..], 6) == RunRounds(fam, s, ws, j + 6);
    ExpMacro(fam, wv, 2, 3, 4, 5, 6, 7, 0, 1, fam.k[j + 6], w[j + 6], 6);
    assert View(wv[..], 7) == RunRounds(fam, s, ws, j + 7);
    ExpMacro(fam, wv, 1, 2, 3, 4, 5, 6, 7, 0, fam.k[j + 7], w[j + 7], 7);
    assert View(wv[..], 8) == RunRounds(fam, s, ws, j + 8);
    assert View(wv[..], 8) == wv[..];
  }

  lemma OneMoreRound<W(!new)>(fam: Family<W>, s: seq<W>, ws: seq<W>, j: nat)
    requires |s| == 8 && j < |ws| == |fam.k|
    ensures RunRounds(fam, s, ws, j + 1) == Round(fam, RunRounds(fam, s, ws, j), fam.k[j], ws[j])
  {
    hide Round;
  }

  // The other branch of the source moves the registers instead.
  method RolledRound<W(!new)>(fam: Family<W>, k: W, word: W, wv: array<W>)
    requires wv.Length == 8
    modifies wv
    ensures wv[..] == Round(fam, old(wv[..]), k, word)
  {
    ghost var before := wv[..];
    var t1 := T1(fam, wv[4], wv[5], wv[6], wv[7], k, word);
    var t2 := T2(fam, wv[0], wv[1], wv[2]);
    assert Round(fam, before, k, word)
           == [fam.add(t1, t2), wv[0], wv[1], wv[2], fam.add(wv[3], t1), wv[4], wv[5], wv[6]];
    hide T1, T2, Round;
    wv[7] := wv[6];
    wv[6] := wv[5];
    wv[5] := wv[4];
    wv[4] := fam.add(wv[3], t1);
    wv[3] := wv[2];
    wv[2] := wv[1];
    wv[1] := wv[0];
    wv[0] := fam.add(t1, t2);
    assert wv[4] == fam.add(before[3], t1) && wv[5] == before[4] && wv[6] == before[5] && wv[7] == before[6];
    assert wv[1] == before[0] && wv[2] == before[1] && wv[3] == before[2];
  }

  method RolledRounds<W(!new)>(fam: Family<W>, w: array<W>, wv: array<W>)
    requires fam.Valid() && w.Length == fam.Rounds() && wv.Length == 8 && w != wv
    modifies wv
    ensures wv[..] == RunRounds(fam, old(wv[..]), w[..], fam.Rounds())
  {
    ghost var s, ws := wv[..], w[..];
    assert RunRounds(fam, s, ws, 0) == s;
    hide Round, RunRounds;
    for j := 0 to fam.Rounds()
      invariant w[..] == ws
      invariant wv[..] == RunRounds(fam, s, ws, j)
    {
      assert w[j] == ws[j];
      OneMoreRound(fam, s, ws, j);
      RolledRound(fam, fam.k[j], w[j], wv);
    }
  }

  lemma ScheduleGrows<W(!new)>(fam: Family<W>, m: seq<W>, j: nat)
    requires |m| == 16 && j >= 16
    ensures var w := Schedule(fam, m, j);
            Schedule(fam, m, j + 1) ==
            w + [fam.add(fam.add(fam.add(fam.F4(w[j - 2]), w[j - 7]), fam.F3(w[j - 15])), w[j - 16])]
  {}

  // PACK32/PACK64 for the first sixteen words, then SHA256_SCR/SHA512_SCR for the rest.
  method LoadSchedule<W(!new)>(fam: Family<W>, w: array<W>, subBlock: seq<Byte>)
    requires fam.Valid() && w.Length == fam.Rounds() && |subBlock| == fam.fmt.BlockSize()
    modifies w
    ensures w[..] == Schedule(fam, Words(fam, subBlock), fam.Rounds())
  {
    ghost var m := Words(fam, subBlock);
    for j := 0 to 16
      invariant forall i :: 0 <= i < j ==> w[i] == m[i]
    {
      w[j] := WordAt(fam, subBlock, j);
    }
    assert w[..16] == m == Schedule(fam, m, 16);
    hide Schedule, Words, WordAt;
    for j := 16 to fam.Rounds()
      invariant w[..j] == Schedule(fam, m, j)
    {
      ghost var prev := w[..j];
      assert w[j - 2] == prev[j - 2] && w[j - 7] == prev[j - 7];
      assert w[j - 15] == prev[j - 15] && w[j - 16] == prev[j - 16];
      w[j] := fam.add(fam.add(fam.add(fam.F4(w[j - 2]), w[j - 7]), fam.F3(w[j - 15])), w[j - 16]);
      ScheduleGrows(fam, m, j);
      assert w[..j + 1] == prev + [w[j]];
    }
    assert w[..] == w[..fam.Rounds()];
  }

  // ----- Digests -----

  function Bytes<W(!new)>(fam: Family<W>, ws: seq<W>): seq<Byte>
  {
    if ws == [] then [] else fam.unpack(ws[0]) + Bytes(fam, ws[1..])
  }

  // A padded message hashed from the initial value iv and cut to the first `words` words.
  function Digest<W(!new)>(fam: Family<W>, iv: seq<W>, padded: seq<Byte>, words: nat): seq<Byte>
  {
    var h := Fold(Compress(fam), fam.fmt, iv, padded, WholeBlocks(fam.fmt, |padded|));
    Bytes(fam, if words <= |h| then h[..words] else h)
  }

  // Sections 6.2 to 6.4.
  function FipsDigest<W(!new)>(fam: Family<W>, iv: seq<W>, m: seq<Byte>, words: nat): seq<Byte>
  {
    Digest(fam, iv, FipsPad(fam.fmt, m), words)
  }

  // What the program returns for a message of any length.
  function ProgramDigest<W(!new)>(fam: Family<W>, iv: seq<W>, m: seq<Byte>, words: nat): seq<Byte>
  {
    Digest(fam, iv, ProgramPad(fam.fmt, m), words)
  }

  lemma AddModulo(t: nat, n: nat, more: nat)
    requires t == n % TWO32
    ensures (t + more) % TWO32 == (n + more) % TWO32
  {}

  lemma Regroup(hashed: seq<Byte>, full: seq<Byte>, whole: seq<Byte>, rest: seq<Byte>, shifted: seq<Byte>)
    requires shifted == whole + rest
    ensures hashed + (full + whole) + rest == hashed + full + shifted
  {}

  // The bit length the program stores, although its byte count has already been cut to 32 bits.
  lemma BitLength(totLen: nat, hashed: nat, len: nat)
    requires totLen == hashed % TWO32
    ensures (totLen + len) % TWO32 * 8 % TWO32 == 8 * (hashed + len) % TWO32
  {
    AddModulo(totLen, hashed, len);
    var n := hashed + len;
    assert n == TWO32 * (n / TWO32) + n % TWO32;
    assert 8 * n == TWO32 * (8 * (n / TWO32)) + 8 * (n % TWO32);
  }

  lemma {:induction false} BytesAppend<W(!new)>(fam: Family<W>, ws: seq<W>, w: W)
    ensures Bytes(fam, ws + [w]) == Bytes(fam, ws) + fam.unpack(w)
  {
    if ws == [] {
      assert fam.unpack(w) + Bytes(fam, []) == fam.unpack(w);
    } else {
      BytesAppend(fam, ws[1..], w);
      assert (ws + [w])[1..] == ws[1..] + [w];
    }
  }

  lemma Joined(hashed: seq<Byte>, buffer: seq<Byte>, message: seq<Byte>, n: nat)
    requires n <= |message|
    ensures hashed + (buffer + message[..n]) + message[n..] == hashed + buffer + message
    ensures n == |message| ==> hashed + (buffer + message[..n]) == hashed + buffer + message
  {
    assert message == message[..n] + message[n..];
  }

  // memcpy
  method CopyBytes(dst: array<Byte>, at: nat, src: seq<Byte>)
    requires at + |src| <= dst.Length
    modifies dst
    ensures dst[..] == old(dst[..at]) + src + old(dst[at + |src|..])
  {
    forall i | 0 <= i < |src| {
      dst[at + i] := src[i];
    }
  }

  /** sha256_ctx and sha512_ctx.  Since `Init`, the bytes passed to `Update` are `hashed`, which is
      `blocks` whole blocks, and after them the bytes waiting in `block`. */
  class Context<W(!new, 0)> {
    const fam: Family<W>
    var totLen: nat             // unsigned int: the bytes already hashed, modulo 2^32
    var len: nat                // unsigned int: the bytes waiting in block
    const block: array<Byte>    // two blocks
    const h: array<W>           // the chaining value
    ghost var iv: seq<W>        // the initial chaining value
    ghost var hashed: seq<Byte>
    ghost var blocks: nat

    ghost predicate Shape()
    {
      && fam.Valid() && block.Length == 2 * fam.fmt.BlockSize() && h.Length == 8 && block as object != h
    }

    ghost predicate Valid()
      reads this, block, h
    {
      && Shape() && |iv| == 8
      && |hashed| == fam.fmt.Span(blocks)
      && totLen == |hashed| % TWO32
      && len < fam.fmt.BlockSize()
      && h[..] == Fold(Compress(fam), fam.fmt, iv, hashed, blocks)
    }

    // Every byte passed to `Update` since `Init`.
    ghost function Fed(): seq<Byte>
      requires Valid()
      reads this, block, h
    {
      hashed + block[..len]
    }

    constructor (fam: Family<W>)
      requires fam.Valid()
      ensures this.fam == fam && Shape() && fresh(block) && fresh(h)
    {
      this.fam := fam;
      block := new Byte[2 * fam.fmt.BlockSize()];
      h := new W[8];
    }

    // sha224_init, sha256_init, sha384_init, sha512_init
    method Init(iv: seq<W>)
      requires Shape() && |iv| == 8
      modifies this, h
      ensures Valid() && this.iv == iv && Fed() == []
    {
      forall i | 0 <= i < 8 {
        h[i] := iv[i];
      }
      len, totLen := 0, 0;
      this.iv, hashed, blocks := iv, [], 0;
      assert h[..] == iv;
    }

    // sha256_transf, sha512_transf
    method Transf(message: seq<Byte>, blockNb: nat)
      requires Shape() && fam.fmt.Span(blockNb) <= |message|
      modifies h
      ensures h[..] == Fold(Compress(fam), fam.fmt, old(h[..]), message, blockNb)
    {
      hide CompressBlock;
      ghost var start := h[..];
      for i := 0 to blockNb
        invariant h[..] == Fold(Compress(fam), fam.fmt, start, message, i)
      {
        TransfBlock(message[fam.fmt.Span(i)..fam.fmt.Span(i + 1)]);
      }
    }

    // sha224_update, sha256_update, sha384_update, sha512_update.  From 2^31 bytes on, `i << 6` in
    // the loop over blocks overflows an int, which C leaves undefined.
    method Update(message: seq<Byte>)
      requires Valid() && |message| < 0x8000_0000
      modifies this, block, h
      ensures Valid() && iv == old(iv) && Fed() == old(Fed()) + message
    {
      hide Fold, Compress;
      var size := fam.fmt.BlockSize();
      var tmpLen := size - len;
      var remLen := if |message| < tmpLen then |message| else tmpLen;
      ghost var buffer := block[..len];
      Joined(hashed, buffer, message, remLen);
      CopyBytes(block, len, message[..remLen]);
      assert block[..len + remLen] == buffer + message[..remLen];
      if (len + |message|) % TWO32 < size {
        len := len + |message|;
        return;
      }
      UpdateBlocks(message[remLen..]);
    }

    // The rest of update once the buffered block is complete.
    method UpdateBlocks(shifted: seq<Byte>)
      requires Shape() && |iv| == 8
      requires |hashed| == fam.fmt.Span(blocks) && totLen == |hashed| % TWO32
      requires h[..] == Fold(Compress(fam), fam.fmt, iv, hashed, blocks)
      modifies this, block, h
      ensures Valid() && iv == old(iv) && Fed() == old(hashed + block[..fam.fmt.BlockSize()]) + shifted
    {
      hide Fold, Compress, WholeBlocks;
      var newLen := |shifted|;
      var blockNb := WholeBlocks(fam.fmt, newLen);
      Divide(fam.fmt, newLen);
      ghost var full, whole := block[..fam.fmt.BlockSize()], shifted[..fam.fmt.Span(blockNb)];
      ghost var before := hashed;
      Transf(block[..fam.fmt.BlockSize()], 1);
      Transf(shifted, blockNb);
      AbsorbBlocks(Compress(fam), fam.fmt, iv, hashed, blocks, full, shifted, blockNb);
      ghost var h' := h[..];
      var rest := shifted[fam.fmt.Span(blockNb)..];
      CopyBytes(block, 0, rest);
      assert h[..] == h' && block[..|rest|] == rest;
      len := fam.fmt.Rest(newLen);
      AddModulo(totLen, |hashed|, fam.fmt.Span(blockNb + 1));
      totLen := (totLen + fam.fmt.Span(blockNb + 1)) % TWO32;
      hashed, blocks := hashed + (full + whole), blocks + (1 + blockNb);
      Regroup(before, full, whole, rest, shifted);
    }

    // sha224_final, sha256_final, sha384_final, sha512_final, with 7, 8, 6 and 8 words.  The context
    // must be initialised again before it is used again.
    method Final(words: nat) returns (digest: seq<Byte>)
      requires Valid() && words <= 8
      modifies this, block, h
      ensures digest == ProgramDigest(fam, iv, old(Fed()), words) && iv == old(iv)
    {
      hide Fold, Compress, TailBlocks, WholeBlocks, ProgramPad, Tail, Bytes;
      ghost var buffer := block[..len];
      var blockNb := TailBlocks(fam.fmt, len);
      PadBuffer();
      Transf(block[..fam.fmt.Span(blockNb)], blockNb);
      PadTail(Compress(fam), fam.fmt, iv, hashed, blocks, buffer);
      digest := UnpackWords(words);
      assert h[..][..words] == h[..words];
    }

    // memset, the 0x80 byte, and UNPACK32 of the bit length.
    method PadBuffer()
      requires Valid()
      modifies block
      ensures fam.fmt.Span(TailBlocks(fam.fmt, len)) <= block.Length
      ensures block[..fam.fmt.Span(TailBlocks(fam.fmt, len))] == Tail(fam.fmt, old(block[..len]), |hashed| + len)
    {
      hide Fold, Compress, ByteOf;
      var pmLen := fam.fmt.Span(TailBlocks(fam.fmt, len));
      var lenB := (totLen + len) % TWO32 * 8 % TWO32;
      forall i | len <= i < pmLen {
        block[i] := 0;
      }
      block[len] := 0x80;
      CopyBytes(block, pmLen - 4, Unpack32(lenB));
      BitLength(totLen, |hashed|, len);
    }

    method UnpackWords(words: nat) returns (digest: seq<Byte>)
      requires words <= h.Length
      ensures digest == Bytes(fam, h[..words])
    {
      digest := [];
      for i := 0 to words
        invariant digest == Bytes(fam, h[..i])
      {
        digest := digest + fam.unpack(h[i]);
        BytesAppend(fam, h[..i], h[i]);
        assert h[..i + 1] == h[..i] + [h[i]];
      }
    }

    // sha512_update_final: the message is copied behind the buffered bytes with no check that they
    // still fit one block.
    method UpdateFinal(message: seq<Byte>) returns (digest: seq<Byte>)
      requires Valid() && len + |message| < fam.fmt.BlockSize()
      modifies this, block, h
      ensures digest == ProgramDigest(fam, iv, old(Fed()) + message, 8)
    {
      hide Fold, Compress, ProgramDigest;
      ghost var buffer := block[..len];
      CopyBytes(block, len, message);
      len := len + |message|;
      assert block[..len] == buffer + message;
      assert Fed() == old(Fed()) + message;
      digest := Final(8);
    }

    // The body of the loop over blocks.
    method TransfBlock(subBlock: seq<Byte>)
      requires Shape() && |subBlock| == fam.fmt.BlockSize()
      modifies h
      ensures h[..] == CompressBlock(fam, old(h[..]), subBlock)
    {
      hide RunRounds, Schedule;
      var w := new W[fam.Rounds()];
      var wv := new W[8];
      LoadSchedule(fam, w, subBlock);
      ghost var ws, start := w[..], h[..];
      forall j | 0 <= j < 8 {
        wv[j] := h[j];
      }
      assert wv[..] == start && w[..] == ws;
      UnrolledRounds(fam, w, wv);
      forall j | 0 <= j < 8 {
        h[j] := fam.add(h[j], wv[j]);
      }
      assert h[..] == AddRegs(fam, start, wv[..]);
    }
  }

  lemma {:induction false} FoldKeepsLength<W(!new)>(fam: Family<W>, iv: seq<W>, data: seq<Byte>, n: nat)
    requires |iv| == 8 && fam.fmt.Span(n) <= |data|
    ensures |Fold(Compress(fam), fam.fmt, iv, data, n)| == 8
  {
    hide CompressBlock;
    if n > 0 {
      FoldKeepsLength(fam, iv, data, n - 1);
    }
  }

  lemma {:induction false} BytesLength<W(!new)>(fam: Family<W>, ws: seq<W>)
    requires fam.Valid()
    ensures |Bytes(fam, ws)| == if fam.fmt.wide then 8 * |ws| else 4 * |ws|
  {
    if ws != [] {
      BytesLength(fam, ws[1..]);
    }
  }

  lemma DigestLength<W(!new)>(fam: Family<W>, iv: seq<W>, padded: seq<Byte>, words: nat)
    requires fam.Valid() && |iv| == 8 && words <= 8
    ensures |Digest(fam, iv, padded, words)| == if fam.fmt.wide then 8 * words else 4 * words
  {
    hide Fold, Bytes;
    var n := WholeBlocks(fam.fmt, |padded|);
    FoldKeepsLength(fam, iv, padded, n);
    BytesLength(fam, Fold(Compress(fam), fam.fmt, iv, padded, n)[..words]);
  }

  // Below 2^29 bytes the program computes the digest of the standard.
  lemma DigestIsFips<W(!new)>(fam: Family<W>, iv: seq<W>, m: seq<Byte>, words: nat)
    requires |m| < 0x2000_0000
    ensures ProgramDigest(fam, iv, m, words) == FipsDigest(fam, iv, m, words)
  {
    assert 8 * |m| < Power256(fam.fmt.LengthBytes()) by {
      PowerSplit(0);
      PowerSplit(4);
      PowerSplit(8);
      PowerSplit(12);
    }
    PadIsFips(fam.fmt, m);
  }

  // With n bytes in a two-block buffer, `update_final` hashes as many blocks as the standard pads
  // them to exactly when they fit one block.
  lemma UpdateFinalLimit(fmt: Format, n: nat)
    requires n <= 2 * fmt.BlockSize()
    ensures fmt.Span(TailBlocks(fmt, n)) == PaddedLength(fmt, n) <==> n < fmt.BlockSize()
  {
    if fmt.wide { Limit128(n); } else { Limit64(n); }
  }

  lemma Limit128(n: nat)
    requires n <= 256
    ensures var fmt := Format(true); fmt.Span(TailBlocks(fmt, n)) == PaddedLength(fmt, n) <==> n < 128
  {}

  lemma Limit64(n: nat)
    requires n <= 128
    ensures var fmt := Format(false); fmt.Span(TailBlocks(fmt, n)) == PaddedLength(fmt, n) <==> n < 64
  {}

  function Join(chunks: seq<seq<Byte>>): seq<Byte>
  {
    if chunks == [] then [] else Join(chunks[..|chunks| - 1]) + chunks[|chunks| - 1]
  }

  // Init, one update for each chunk, final: however a message is cut up, the digest is that of the
  // whole message, and below 2^29 bytes it is the one the standard defines.
  method HashChunks<W(!new, 0)>(fam: Family<W>, iv: seq<W>, chunks: seq<seq<Byte>>, words: nat)
      returns (digest: seq<Byte>)
    requires fam.Valid() && |iv| == 8 && words <= 8
    requires forall i :: 0 <= i < |chunks| ==> |chunks[i]| < 0x8000_0000
    ensures digest == ProgramDigest(fam, iv, Join(chunks), words)
    ensures |Join(chunks)| < 0x2000_0000 ==> digest == FipsDigest(fam, iv, Join(chunks), words)
  {
    hide Fold, Compress, ProgramDigest, FipsDigest;
    var ctx := new Context(fam);
    ctx.Init(iv);
    for i := 0 to |chunks|
      invariant ctx.fam == fam && ctx.Valid() && ctx.iv == iv && fresh(ctx) && fresh(ctx.block) && fresh(ctx.h)
      invariant ctx.Fed() == Join(chunks[..i])
    {
      assert chunks[..i + 1][..i] == chunks[..i];
      ctx.Update(chunks[i]);
    }
    assert chunks[..|chunks|] == chunks;
    digest := ctx.Final(words);
    if |Join(chunks)| < 0x2000_0000 {
      DigestIsFips(fam, iv, Join(chunks), words);
    }
  }
}
