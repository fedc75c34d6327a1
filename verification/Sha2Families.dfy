/** The two families of miner/sha2.cpp: words, logical functions and tables. */
module Sha2Families {
  import opened Basics
  import opened MerkleDamgard
  import opened Sha2

  // ----- 32-bit words -----

  function Rotr32(x: bv32, n: bv6): bv32
    requires 0 < n < 32
  {
    (x >> n) | (x << (32 - n))
  }

  function Ch32(x: bv32, y: bv32, z: bv32): bv32 { (x & y) ^ (!x & z) }

  function Maj32(x: bv32, y: bv32, z: bv32): bv32 { (x & y) ^ (x & z) ^ (y & z) }

  function F1Of32(x: bv32): bv32 { Rotr32(x, 2) ^ Rotr32(x, 13) ^ Rotr32(x, 22) }

  function F2Of32(x: bv32): bv32 { Rotr32(x, 6) ^ Rotr32(x, 11) ^ Rotr32(x, 25) }

  function F3Of32(x: bv32): bv32 { Rotr32(x, 7) ^ Rotr32(x, 18) ^ (x >> 3) }

  function F4Of32(x: bv32): bv32 { Rotr32(x, 17) ^ Rotr32(x, 19) ^ (x >> 10) }

  // Section 4.1.2 writes these with rotations; the program builds each rotation from two shifts.
  lemma Rotations32(x: bv32)
    ensures Rotr32(x, 2) == x.RotateRight(2) && Rotr32(x, 13) == x.RotateRight(13) && Rotr32(x, 22) == x.RotateRight(22)
    ensures Rotr32(x, 6) == x.RotateRight(6) && Rotr32(x, 11) == x.RotateRight(11) && Rotr32(x, 25) == x.RotateRight(25)
    ensures Rotr32(x, 7) == x.RotateRight(7) && Rotr32(x, 18) == x.RotateRight(18)
    ensures Rotr32(x, 17) == x.RotateRight(17) && Rotr32(x, 19) == x.RotateRight(19)
  {}

  // PACK32
  function Pack32(s: seq<Byte>): bv32
  {
    if |s| != 4 then 0
    else (s[3] as bv32) | (s[2] as bv32 << 8) | (s[1] as bv32 << 16) | (s[0] as bv32 << 24)
  }

  // UNPACK32
  function UnpackWord32(x: bv32): (s: seq<Byte>)
    ensures |s| == 4
  {
    [((x >> 24) & 0xff) as bv8, ((x >> 16) & 0xff) as bv8, ((x >> 8) & 0xff) as bv8, (x & 0xff) as bv8]
  }

  lemma PackUnpack32(x: bv32, s: seq<Byte>)
    requires |s| == 4
    ensures Pack32(UnpackWord32(x)) == x && UnpackWord32(Pack32(s)) == s
  {}

  // ----- 64-bit words -----

  function Rotr64(x: bv64, n: bv7): bv64
    requires 0 < n < 64
  {
    (x >> n) | (x << (64 - n))
  }

  function Ch64(x: bv64, y: bv64, z: bv64): bv64 { (x & y) ^ (!x & z) }

  function Maj64(x: bv64, y: bv64, z: bv64): bv64 { (x & y) ^ (x & z) ^ (y & z) }

  function F1Of64(x: bv64): bv64 { Rotr64(x, 28) ^ Rotr64(x, 34) ^ Rotr64(x, 39) }

  function F2Of64(x: bv64): bv64 { Rotr64(x, 14) ^ Rotr64(x, 18) ^ Rotr64(x, 41) }

  function F3Of64(x: bv64): bv64 { Rotr64(x, 1) ^ Rotr64(x, 8) ^ (x >> 7) }

  function F4Of64(x: bv64): bv64 { Rotr64(x, 19) ^ Rotr64(x, 61) ^ (x >> 6) }

  // Section 4.1.3.
  lemma Rotations64(x: bv64)
    ensures Rotr64(x, 28) == x.RotateRight(28) && Rotr64(x, 34) == x.RotateRight(34)
    ensures Rotr64(x, 39) == x.RotateRight(39) && Rotr64(x, 41) == x.RotateRight(41)
    ensures Rotr64(x, 14) == x.RotateRight(14) && Rotr64(x, 18) == x.RotateRight(18)
    ensures Rotr64(x, 1) == x.RotateRight(1) && Rotr64(x, 8) == x.RotateRight(8)
    ensures Rotr64(x, 19) == x.RotateRight(19) && Rotr64(x, 61) == x.RotateRight(61)
  {}

  // PACK64
  function Pack64(s: seq<Byte>): bv64
  {
    if |s| != 8 then 0
    else (s[7] as bv64) | (s[6] as bv64 << 8) | (s[5] as bv64 << 16) | (s[4] as bv64 << 24) |
         (s[3] as bv64 << 32) | (s[2] as bv64 << 40) | (s[1] as bv64 << 48) | (s[0] as bv64 << 56)
  }

  // UNPACK64
  function UnpackWord64(x: bv64): (s: seq<Byte>)
    ensures |s| == 8
  {
    [((x >> 56) & 0xff) as bv8, ((x >> 48) & 0xff) as bv8, ((x >> 40) & 0xff) as bv8, ((x >> 32) & 0xff) as bv8,
     ((x >> 24) & 0xff) as bv8, ((x >> 16) & 0xff) as bv8, ((x >> 8) & 0xff) as bv8, (x & 0xff) as bv8]
  }

  lemma PackUnpack64(x: bv64, s: seq<Byte>)
    requires |s| == 8
    ensures Pack64(UnpackWord64(x)) == x && UnpackWord64(Pack64(s)) == s
  {}

  // ----- Tables -----

  const SHA224_H0: seq<bv32> := [
    0xc1059ed8, 0x367cd507, 0x3070dd17, 0xf70e5939,
    0xffc00b31, 0x68581511, 0x64f98fa7, 0xbefa4fa4]

  const SHA256_H0: seq<bv32> := [
    0x6a09e667, 0xbb67ae85, 0x3c6ef372, 0xa54ff53a,
    0x510e527f, 0x9b05688c, 0x1f83d9ab, 0x5be0cd19]

  const SHA384_H0: seq<bv64> := [
    0xcbbb9d5dc1059ed8, 0x629a292a367cd507, 0x9159015a3070dd17, 0x152fecd8f70e5939,
    0x67332667ffc00b31, 0x8eb44a8768581511, 0xdb0c2e0d64f98fa7, 0x47b5481dbefa4fa4]

  const SHA512_H0: seq<bv64> := [
    0x6a09e667f3bcc908, 0xbb67ae8584caa73b, 0x3c6ef372fe94f82b, 0xa54ff53a5f1d36f1,
    0x510e527fade682d1, 0x9b05688c2b3e6c1f, 0x1f83d9abfb41bd6b, 0x5be0cd19137e2179]

  const SHA256_K: seq<bv32> := [
    0x428a2f98, 0x71374491, 0xb5c0fbcf, 0xe9b5dba5, 0x3956c25b, 0x59f111f1, 0x923f82a4, 0xab1c5ed5,
    0xd807aa98, 0x12835b01, 0x243185be, 0x550c7dc3, 0x72be5d74, 0x80deb1fe, 0x9bdc06a7, 0xc19bf174,
    0xe49b69c1, 0xefbe4786, 0x0fc19dc6, 0x240ca1cc, 0x2de92c6f, 0x4a7484aa, 0x5cb0a9dc, 0x76f988da,
    0x983e5152, 0xa831c66d, 0xb00327c8, 0xbf597fc7, 0xc6e00bf3, 0xd5a79147, 0x06ca6351, 0x14292967,
    0x27b70a85, 0x2e1b2138, 0x4d2c6dfc, 0x53380d13, 0x650a7354, 0x766a0abb, 0x81c2c92e, 0x92722c85,
    0xa2bfe8a1, 0xa81a664b, 0xc24b8b70, 0xc76c51a3, 0xd192e819, 0xd6990624, 0xf40e3585, 0x106aa070,
    0x19a4c116, 0x1e376c08, 0x2748774c, 0x34b0bcb5, 0x391c0cb3, 0x4ed8aa4a, 0x5b9cca4f, 0x682e6ff3,
    0x748f82ee, 0x78a5636f, 0x84c87814, 0x8cc70208, 0x90befffa, 0xa4506ceb, 0xbef9a3f7, 0xc67178f2]

  const SHA512_K: seq<bv64> := [
    0x428a2f98d728ae22, 0x7137449123ef65cd, 0xb5c0fbcfec4d3b2f, 0xe9b5dba58189dbbc,
    0x3956c25bf348b538, 0x59f111f1b605d019, 0x923f82a4af194f9b, 0xab1c5ed5da6d8118,
    0xd807aa98a3030242, 0x12835b0145706fbe, 0x243185be4ee4b28c, 0x550c7dc3d5ffb4e2,
    0x72be5d74f27b896f, 0x80deb1fe3b1696b1, 0x9bdc06a725c71235, 0xc19bf174cf692694,
    0xe49b69c19ef14ad2, 0xefbe4786384f25e3, 0x0fc19dc68b8cd5b5, 0x240ca1cc77ac9c65,
    0x2de92c6f592b0275, 0x4a7484aa6ea6e483, 0x5cb0a9dcbd41fbd4, 0x76f988da831153b5,
    0x983e5152ee66dfab, 0xa831c66d2db43210, 0xb00327c898fb213f, 0xbf597fc7beef0ee4,
    0xc6e00bf33da88fc2, 0xd5a79147930aa725, 0x06ca6351e003826f, 0x142929670a0e6e70,
    0x27b70a8546d22ffc, 0x2e1b21385c26c926, 0x4d2c6dfc5ac42aed, 0x53380d139d95b3df,
    0x650a73548baf63de, 0x766a0abb3c77b2a8, 0x81c2c92e47edaee6, 0x92722c851482353b,
    0xa2bfe8a14cf10364, 0xa81a664bbc423001, 0xc24b8b70d0f89791, 0xc76c51a30654be30,
    0xd192e819d6ef5218, 0xd69906245565a910, 0xf40e35855771202a, 0x106aa07032bbd1b8,
    0x19a4c116b8d2d0c8, 0x1e376c085141ab53, 0x2748774cdf8eeb99, 0x34b0bcb5e19b48a8,
    0x391c0cb3c5c95a63, 0x4ed8aa4ae3418acb, 0x5b9cca4f7763e373, 0x682e6ff3d6b2b8a3,
    0x748f82ee5defb2fc, 0x78a5636f43172f60, 0x84c87814a1f0ab72, 0x8cc702081a6439ec,
    0x90befffa23631e28, 0xa4506cebde82bde9, 0xbef9a3f7b2c67915, 0xc67178f2e372532b,
    0xca273eceea26619c, 0xd186b8c721c0c207, 0xeada7dd6cde0eb1e, 0xf57d4f7fee6ed178,
    0x06f067aa72176fba, 0x0a637dc5a2c898a6, 0x113f9804bef90dae, 0x1b710b35131c471b,
    0x28db77f523047d84, 0x32caab7b40c72493, 0x3c9ebe0a15c9bebc, 0x431d67c49c100d4c,
    0x4cc5d4becb3e42b6, 0x597f299cfc657e2a, 0x5fcb6fab3ad6faec, 0x6c44198c4a475817]

  // SHA-224 and SHA-256.
  function Family256(): (fam: Family<bv32>)
    ensures fam.Valid() && !fam.fmt.wide
  {
    Family(Format(false), SHA256_K, (x, y) => x + y, Ch32, Maj32, F1Of32, F2Of32, F3Of32, F4Of32, Pack32, UnpackWord32)
  }

  // SHA-384 and SHA-512.
  function Family512(): (fam: Family<bv64>)
    ensures fam.Valid() && fam.fmt.wide
  {
    Family(Format(true), SHA512_K, (x, y) => x + y, Ch64, Maj64, F1Of64, F2Of64, F3Of64, F4Of64, Pack64, UnpackWord64)
  }

  method Sha224(message: seq<Byte>) returns (digest: seq<Byte>)
    requires |message| < 0x8000_0000
    ensures |digest| == 28
    ensures digest == ProgramDigest(Family256(), SHA224_H0, message, 7)
    ensures |message| < 0x2000_0000 ==> digest == FipsDigest(Family256(), SHA224_H0, message, 7)
  {
    digest := HashOne(Family256(), SHA224_H0, message, 7);
  }

  method Sha256(message: seq<Byte>) returns (digest: seq<Byte>)
    requires |message| < 0x8000_0000
    ensures |digest| == 32
    ensures digest == ProgramDigest(Family256(), SHA256_H0, message, 8)
    ensures |message| < 0x2000_0000 ==> digest == FipsDigest(Family256(), SHA256_H0, message, 8)
  {
    digest := HashOne(Family256(), SHA256_H0, message, 8);
  }

  method Sha384(message: seq<Byte>) returns (digest: seq<Byte>)
    requires |message| < 0x8000_0000
    ensures |digest| == 48
    ensures digest == ProgramDigest(Family512(), SHA384_H0, message, 6)
    ensures |message| < 0x2000_0000 ==> digest == FipsDigest(Family512(), SHA384_H0, message, 6)
  {
    digest := HashOne(Family512(), SHA384_H0, message, 6);
  }

  method Sha512(message: seq<Byte>) returns (digest: seq<Byte>)
    requires |message| < 0x8000_0000
    ensures |digest| == 64
    ensures digest == ProgramDigest(Family512(), SHA512_H0, message, 8)
    ensures |message| < 0x2000_0000 ==> digest == FipsDigest(Family512(), SHA512_H0, message, 8)
  {
    digest := HashOne(Family512(), SHA512_H0, message, 8);
  }

  // The one-shot functions: init, a single update, final.
  method HashOne<W(!new, 0)>(fam: Family<W>, iv: seq<W>, message: seq<Byte>, words: nat) returns (digest: seq<Byte>)
    requires fam.Valid() && |iv| == 8 && words <= 8 && |message| < 0x8000_0000
    ensures |digest| == if fam.fmt.wide then 8 * words else 4 * words
    ensures digest == ProgramDigest(fam, iv, message, words)
    ensures |message| < 0x2000_0000 ==> digest == FipsDigest(fam, iv, message, words)
  {
    hide Fold, Digest, FipsDigest;
    assert Join([message]) == message by {
      assert [message][..0] == [];
    }
    digest := HashChunks(fam, iv, [message], words);
    DigestLength(fam, iv, ProgramPad(fam.fmt, message), words);
  }
}
