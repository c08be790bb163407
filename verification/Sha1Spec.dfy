/** The Secure Hash Algorithm SHA-1 as FIPS 180-4 defines it, one message at a time. */
module Sha1Spec {
  import opened Bytes

  type word = bv32

  /** The five working variables, and equally the five words of a hash value. */
  datatype Regs = Regs(a: word, b: word, c: word, d: word, e: word)

  /** Section 3.2: rotation to the left by n. */
  function Rotl(n: nat, x: word): word
    requires 0 < n < 32
  {
    (x << n) | (x >> (32 - n))
  }

  /** Section 2.2.2: addition modulo 2^32. */
  function Add(x: word, y: word): word {
    x + y
  }

  /** Section 4.1.1: Ch, Parity, Maj, Parity. */
  function F(t: nat, x: word, y: word, z: word): word
    requires t < 80
  {
    if t < 20 then (x & y) ^ (!x & z)
    else if t < 40 then x ^ y ^ z
    else if t < 60 then (x & y) ^ (x & z) ^ (y & z)
    else x ^ y ^ z
  }

  /** Section 4.2.1. */
  function K(t: nat): word
    requires t < 80
  {
    if t < 20 then 0x5a827999 else if t < 40 then 0x6ed9eba1 else if t < 60 then 0x8f1bbcdc else 0xca62c1d6
  }

  /** Section 3.1: four octets as a word, the first the most significant. */
  function BigEndian(b0: byte, b1: byte, b2: byte, b3: byte): word {
    (b0 as word << 24) | (b1 as word << 16) | (b2 as word << 8) | b3 as word
  }

  /** Section 5.2.1: word t of a 512-bit block. */
  function M(block: seq<byte>, t: nat): word
    requires |block| == 64 && t < 16
  {
    BigEndian(block[t * 4], block[t * 4 + 1], block[t * 4 + 2], block[t * 4 + 3])
  }

  function Expand(x3: word, x8: word, x14: word, x16: word): word {
    Rotl(1, x3 ^ x8 ^ x14 ^ x16)
  }

  /** Section 6.1.2 step 1: the message schedule. */
  function W(block: seq<byte>, t: nat): word
    requires |block| == 64 && t < 80
  {
    if t < 16 then M(block, t)
    else Expand(W(block, t - 3), W(block, t - 8), W(block, t - 14), W(block, t - 16))
  }

  /** Section 6.1.2 step 3: one round. */
  function Round(r: Regs, t: nat, w: word): Regs
    requires t < 80
  {
    Regs(Add(Add(Add(Add(Rotl(5, r.a), F(t, r.b, r.c, r.d)), r.e), K(t)), w), r.a, Rotl(30, r.b), r.c, r.d)
  }

  /** The working variables after the first n rounds on a block. */
  function Rounds(h: Regs, block: seq<byte>, n: nat): Regs
    requires |block| == 64 && n <= 80
  {
    if n == 0 then h else Round(Rounds(h, block, n - 1), n - 1, W(block, n - 1))
  }

  /** Section 6.1.2 step 4. */
  function Compress(h: Regs, block: seq<byte>): Regs
    requires |block| == 64
  {
    var r := Rounds(h, block, 80);
    Regs(Add(h.a, r.a), Add(h.b, r.b), Add(h.c, r.c), Add(h.d, r.d), Add(h.e, r.e))
  }

  /** Section 5.3.1. */
  const H0 := Regs(0x67452301, 0xefcdab89, 0x98badcfe, 0x10325476, 0xc3d2e1f0)

  /** H(N) after the N blocks of a padded message. */
  function Hash(s: seq<byte>): Regs
    requires |s| % 64 == 0
  {
    if |s| == 0 then H0 else Compress(Hash(s[..|s| - 64]), s[|s| - 64..])
  }

  /** The number of zero octets of section 5.1.1; ZerosLeast shows it is the smallest that fits. */
  function ZeroCount(n: nat): nat
  {
    (119 - n % 64) % 64
  }

  /** Section 5.1.1 on octets: the bit 1, the zero bits, the 64-bit length in bits. */
  function Pad(msg: seq<byte>): seq<byte>
  {
    msg + [0x80] + seq(ZeroCount(|msg|), _ => 0) + ToBe(8 * |msg|, 8)
  }

  lemma ZerosLeast(n: nat, k: nat)
    ensures ZeroCount(n) < 64
    ensures (8 * n + 1 + (7 + 8 * ZeroCount(n))) % 512 == 448
    ensures (8 * n + 1 + k) % 512 == 448 ==> 7 + 8 * ZeroCount(n) <= k
  {
    ZeroCountByRest(n);
    hide ZeroCount;
    var q, r := n / 64, n % 64;
    var blocks := if r <= 55 then q else q + 1;
    assert 8 * n + 1 + (7 + 8 * ZeroCount(n)) == 512 * blocks + 448;
    RestOf512(blocks, 448);
    if (8 * n + 1 + k) % 512 == 448 {
      var p := (8 * n + 1 + k) / 512;
      assert 8 * n + 1 + k == 512 * p + 448;
      NoFewerBlocks(q, r, k, p);
    }
  }

  lemma ZeroCountByRest(n: nat)
    ensures var r := n % 64; n == 64 * (n / 64) + r && ZeroCount(n) == if r <= 55 then 55 - r else 119 - r
  {
  }

  lemma RestOf512(q: nat, r: nat)
    requires r < 512
    ensures (512 * q + r) % 512 == r
  {
  }

  lemma NoFewerBlocks(q: nat, r: nat, k: nat, p: nat)
    requires r < 64 && 8 * (64 * q + r) + 1 + k == 512 * p + 448
    ensures p >= if r <= 55 then q else q + 1
  {
  }

  lemma PadIsWhole(msg: seq<byte>)
    ensures |Pad(msg)| % 64 == 0
  {
    hide ToBe;
    var n := |msg|;
    var q, r := n / 64, n % 64;
    assert |Pad(msg)| == n + 9 + ZeroCount(n);
    assert n == 64 * q + r;
    assert ZeroCount(n) == if r <= 55 then 55 - r else 119 - r;
  }

  lemma Pow256Of8()
    ensures Pow256(8) == 0x1_0000_0000_0000_0000
  {
    assert Pow256(2) == 0x1_0000;
    assert Pow256(4) == 0x1_0000 * Pow256(2);
    assert Pow256(6) == 0x1_0000 * Pow256(4);
  }

  /** The low octet of w >> shift. */
  function Octet(w: word, shift: nat): byte
    requires shift < 32
  {
    ((w >> shift) & 0xff) as byte
  }

  /** Four octets per word, most significant first. */
  function WordBytes(w: word): (b: seq<byte>)
    ensures |b| == 4
  {
    [Octet(w, 24), Octet(w, 16), Octet(w, 8), Octet(w, 0)]
  }

  function RegsBytes(h: Regs): (b: seq<byte>)
    ensures |b| == 20
  {
    WordBytes(h.a) + WordBytes(h.b) + WordBytes(h.c) + WordBytes(h.d) + WordBytes(h.e)
  }

  /** The 160-bit message digest. FIPS 180-4 defines it below 2^64 bits. */
  function Sha1(msg: seq<byte>): (digest: seq<byte>)
    requires |msg| < 0x2000_0000_0000_0000
    ensures |digest| == 20
  {
    PadIsWhole(msg);
    RegsBytes(Hash(Pad(msg)))
  }
}
