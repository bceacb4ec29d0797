/** SHA-1 as FIPS 180-4 defines it, on sequences of bytes. */
module Sha1Spec {

  type Word = bv32

  datatype Hash = Hash(h0: Word, h1: Word, h2: Word, h3: Word, h4: Word)

  // Section 5.3.1
  const INITIAL := Hash(0x67452301, 0xefcdab89, 0x98badcfe, 0x10325476, 0xc3d2e1f0)

  // Section 2.2.2
  function Rotl(x: Word, n: bv6): Word
    requires n <= 32
  {
    (x << n) | (x >> (32 - n))
  }

  // Section 4.1.1
  function Ch(x: Word, y: Word, z: Word): Word { (x & y) ^ (!x & z) }

  function Parity(x: Word, y: Word, z: Word): Word { x ^ y ^ z }

  function Maj(x: Word, y: Word, z: Word): Word { (x & y) ^ (x & z) ^ (y & z) }

  function F(t: nat, x: Word, y: Word, z: Word): Word
    requires t < 80
  {
    if t < 20 then Ch(x, y, z) else if t < 40 then Parity(x, y, z) else if t < 60 then Maj(x, y, z) else Parity(x, y, z)
  }

  // Section 4.2.1
  function K(t: nat): Word
    requires t < 80
  {
    if t < 20 then 0x5a827999 else if t < 40 then 0x6ed9eba1 else if t < 60 then 0x8f1bbcdc else 0xca62c1d6
  }

  /** The most significant byte comes first (section 3.1). */
  function BigEndian(b0: bv8, b1: bv8, b2: bv8, b3: bv8): Word {
    (b0 as bv32 << 24) | (b1 as bv32 << 16) | (b2 as bv32 << 8) | b3 as bv32
  }

  function Mix(x3: Word, x8: Word, x14: Word, x16: Word): Word { Rotl(x3 ^ x8 ^ x14 ^ x16, 1) }

  /** The message schedule of section 6.1.2, step 1, for the 64-byte block. */
  function W(block: seq<bv8>, t: nat): Word
    requires |block| == 64 && t < 80
  {
    if t < 16 then
      BigEndian(block[4 * t], block[4 * t + 1], block[4 * t + 2], block[4 * t + 3])
    else
      Mix(W(block, t - 3), W(block, t - 8), W(block, t - 14), W(block, t - 16))
  }

  /** One round on the working variables a..e (section 6.1.2, step 3). */
  function Round(v: Hash, f: Word, k: Word, w: Word): Hash {
    Hash(Rotl(v.h0, 5) + f + v.h4 + k + w, v.h0, Rotl(v.h1, 30), v.h2, v.h3)
  }

  /** The working variables after the first t rounds. */
  function Rounds(h: Hash, block: seq<bv8>, t: nat): Hash
    requires |block| == 64 && t <= 80
  {
    if t == 0 then h
    else
      var v := Rounds(h, block, t - 1);
      Round(v, F(t - 1, v.h1, v.h2, v.h3), K(t - 1), W(block, t - 1))
  }

  function Sum(h: Hash, v: Hash): Hash {
    Hash(h.h0 + v.h0, h.h1 + v.h1, h.h2 + v.h2, h.h3 + v.h3, h.h4 + v.h4)
  }

  /** The intermediate hash value that follows h (section 6.1.2, step 4). */
  function Compress(h: Hash, block: seq<bv8>): Hash
    requires |block| == 64
  {
    Sum(h, Rounds(h, block, 80))
  }

  /** The hash value after all blocks of m (section 6.1.2). */
  function Absorb(m: seq<bv8>): Hash
    requires |m| % 64 == 0
  {
    if m == [] then INITIAL else Compress(Absorb(m[..|m| - 64]), m[|m| - 64..])
  }

  /** Do length bytes, the 0x80 byte and k zero bytes leave exactly the last 8 bytes of a block? */
  predicate LeavesRoom(length: nat, k: nat) { (length + 1 + k) % 64 == 56 }

  /** The smallest number of zero bytes that leaves room for the length (section 5.1.1). */
  function ZeroBytes(length: nat): (k: nat)
    ensures LeavesRoom(length, k)
    ensures forall j: nat :: j < k ==> !LeavesRoom(length, j)
  {
    (119 - length % 64) % 64
  }

  function Zeros(k: nat): (z: seq<bv8>)
    ensures |z| == k
  {
    seq(k, _ => 0)
  }

  lemma EightMore(n: nat)
    requires n % 64 == 56
    ensures (n + 8) % 64 == 0
  {
  }

  /** A 64-bit number, most significant byte first. */
  function BigEndian64(x: bv64): (b: seq<bv8>)
    ensures |b| == 8
  {
    [(x >> 56) as bv8, ((x >> 48) & 0xff) as bv8, ((x >> 40) & 0xff) as bv8, ((x >> 32) & 0xff) as bv8,
     ((x >> 24) & 0xff) as bv8, ((x >> 16) & 0xff) as bv8, ((x >> 8) & 0xff) as bv8, (x & 0xff) as bv8]
  }

  /** Whole blocks: the message, a one bit, the zero bits and then eight bytes that give its length. */
  function PadWith(m: seq<bv8>, length: seq<bv8>): (p: seq<bv8>)
    requires |length| == 8
    ensures |p| % 64 == 0
  {
    var k := ZeroBytes(|m|);
    var p := m + [0x80] + Zeros(k) + length;
    EightMore(|m| + 1 + k);
    p
  }

  /** The padded message of section 5.1.1, for messages of fewer than 2^64 bits. */
  function Pad(m: seq<bv8>): seq<bv8>
    requires |m| < 0x2000_0000_0000_0000
  {
    PadWith(m, BigEndian64((8 * |m|) as bv64))
  }

  /** The 20 bytes of a hash value. */
  function Bytes(x: Word): seq<bv8> {
    [(x >> 24) as bv8, ((x >> 16) & 0xff) as bv8, ((x >> 8) & 0xff) as bv8, (x & 0xff) as bv8]
  }

  function HashBytes(h: Hash): seq<bv8> {
    Bytes(h.h0) + Bytes(h.h1) + Bytes(h.h2) + Bytes(h.h3) + Bytes(h.h4)
  }

  /** The message digest of m. */
  function Digest(m: seq<bv8>): seq<bv8>
    requires |m| < 0x2000_0000_0000_0000
  {
    HashBytes(Absorb(Pad(m)))
  }
}
