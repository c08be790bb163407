/** Octets, ASCII text and big-endian integers, shared by every protocol of the firmware. */
module Bytes {

  newtype byte = x: int | 0 <= x < 256

  datatype Option<+T> = None | Some(value: T)

  /** The octets of an ASCII string literal. */
  function Ascii(s: string): (b: seq<byte>)
    ensures |b| == |s|
  {
    seq(|s|, i requires 0 <= i < |s| => (s[i] as nat % 256) as byte)
  }

  /** The codes of the characters that header names, keys and paths are made of. */
  lemma AsciiCodes()
    ensures Ascii("09AZaz") == [48, 57, 65, 90, 97, 122]
    ensures Ascii("\r\n :-/") == [13, 10, 32, 58, 45, 47]
  {
  }

  /** Big-endian 16-bit field, as sys_put_be16 writes it. */
  function Be16(n: nat): (b: seq<byte>)
    requires n < 0x1_0000
    ensures |b| == 2
  {
    [(n / 256) as byte, (n % 256) as byte]
  }

  function FromBe16(hi: byte, lo: byte): (n: nat)
    ensures n < 0x1_0000
  {
    hi as nat * 256 + lo as nat
  }

  /** The k-octet big-endian representation of n, the least significant octet last. */
  function ToBe(n: nat, k: nat): (b: seq<byte>)
    ensures |b| == k
  {
    if k == 0 then [] else ToBe(n / 256, k - 1) + [(n % 256) as byte]
  }

  function FromBe(b: seq<byte>): nat
  {
    if |b| == 0 then 0 else FromBe(b[..|b| - 1]) * 256 + b[|b| - 1] as nat
  }

  function Pow256(k: nat): (p: nat)
    ensures p > 0
  {
    if k == 0 then 1 else 256 * Pow256(k - 1)
  }

  lemma BeSnoc(high: seq<byte>, low: byte)
    ensures FromBe(high + [low]) == FromBe(high) * 256 + low as nat
  {
    assert (high + [low])[..|high|] == high;
  }

  lemma {:induction false} BeRoundTrip(n: nat, k: nat)
    requires n < Pow256(k)
    ensures FromBe(ToBe(n, k)) == n
  {
    if k > 0 {
      var q, r := n / 256, n % 256;
      assert q < Pow256(k - 1);
      BeRoundTrip(q, k - 1);
      BeSnoc(ToBe(q, k - 1), r as byte);
    }
  }

  /** n >> (8 * i). */
  function ShiftOctets(n: nat, i: nat): nat
  {
    if i == 0 then n else ShiftOctets(n / 256, i - 1)
  }

  /** Octet i from the right is what shifting by 8 * i bits and truncating gives. */
  lemma {:induction false} ToBeAt(n: nat, k: nat, i: nat)
    requires i < k
    ensures ToBe(n, k)[k - 1 - i] == (ShiftOctets(n, i) % 256) as byte
  {
    if i > 0 {
      ToBeAt(n / 256, k - 1, i - 1);
    }
  }

  function Min(a: nat, b: nat): nat
  {
    if a < b then a else b
  }

  /** Flattening a list of chunks: the byte stream they carry. */
  function Concat(chunks: seq<seq<byte>>): seq<byte>
  {
    if |chunks| == 0 then [] else Concat(chunks[..|chunks| - 1]) + chunks[|chunks| - 1]
  }

  lemma TakeMore<T>(s: seq<T>, i: nat, j: nat, k: nat)
    requires i + k <= j <= |s|
    ensures s[..i] + s[i..j][..k] == s[..i + k]
  {
  }

  lemma DropMore<T>(s: seq<T>, i: nat, k: nat)
    requires i + k <= |s|
    ensures s[i..][k..] == s[i + k..] && s[i..][..k] == s[i..i + k] && s[..i] + s[i..][..k] == s[..i + k]
  {
  }

  function AddMod2(a: nat, b: nat): (c: nat)
    requires a < 2 && b < 2
    ensures c < 2
  {
    if a == b then 0 else 1
  }

  /** Bitwise exclusive or of the k low bits. */
  function XorBits(a: nat, b: nat, k: nat): nat
  {
    if k == 0 then 0 else AddMod2(a % 2, b % 2) + 2 * XorBits(a / 2, b / 2, k - 1)
  }

  function Pow2(k: nat): nat
  {
    if k == 0 then 1 else 2 * Pow2(k - 1)
  }

  lemma {:induction false} XorBitsInverse(a: nat, b: nat, k: nat)
    requires a < Pow2(k)
    ensures XorBits(a, b, k) < Pow2(k)
    ensures XorBits(XorBits(a, b, k), b, k) == a
  {
    if k > 0 {
      XorBitsInverse(a / 2, b / 2, k - 1);
      var high := XorBits(a / 2, b / 2, k - 1);
      var low := AddMod2(a % 2, b % 2);
      assert XorBits(a, b, k) == low + 2 * high;
      assert (low + 2 * high) / 2 == high && (low + 2 * high) % 2 == low;
      assert XorBits(low + 2 * high, b, k) == AddMod2(low, b % 2) + 2 * XorBits(high, b / 2, k - 1);
      assert a == a % 2 + 2 * (a / 2);
    }
  }

  function Xor(x: byte, m: byte): byte
  {
    XorBitsInverse(x as nat, m as nat, 8);
    XorBits(x as nat, m as nat, 8) as byte
  }

  /** Bit i of a number, bit 0 the lowest. */
  predicate Bit(n: nat, i: nat)
  {
    if i == 0 then n % 2 == 1 else Bit(n / 2, i - 1)
  }

  lemma {:induction false} XorBitsBit(a: nat, b: nat, k: nat, i: nat)
    requires i < k
    ensures Bit(XorBits(a, b, k), i) <==> Bit(a, i) != Bit(b, i)
  {
    var high, low := XorBits(a / 2, b / 2, k - 1), AddMod2(a % 2, b % 2);
    assert (low + 2 * high) / 2 == high && (low + 2 * high) % 2 == low;
    if i > 0 {
      XorBitsBit(a / 2, b / 2, k - 1, i - 1);
    }
  }

  /** The operator ^ of C: a bit is set exactly if it is set in one of the two octets. */
  lemma XorBit(x: byte, m: byte, i: nat)
    requires i < 8
    ensures Bit(Xor(x, m) as nat, i) <==> Bit(x as nat, i) != Bit(m as nat, i)
  {
    XorBitsInverse(x as nat, m as nat, 8);
    XorBitsBit(x as nat, m as nat, 8, i);
  }

  /** Masking twice with the same octet restores the original. */
  lemma XorInverse(x: byte, m: byte)
    ensures Xor(Xor(x, m), m) == x
  {
    XorBitsInverse(x as nat, m as nat, 8);
  }
}
