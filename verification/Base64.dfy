/** The Base64 encoder of the HTTP server and the Base64 of section 4 of RFC 4648. */
module Base64 {
  import opened Bytes

  const ENOMEM := -12

  /** The encoder's alphabet string, indexed by a sextet. */
  function Alphabet(v: nat): char
    requires v < 64
  {
    ("ABCDEFGHIJKLMNOPQRSTUVWXYZ" + "abcdefghijklmnopqrstuvwxyz" + "0123456789+/")[v]
  }

  /** Table 1 of RFC 4648. */
  function Table(v: nat): char
    requires v < 64
  {
    if v < 26 then ('A' as nat + v) as char
    else if v < 52 then ('a' as nat + v - 26) as char
    else if v < 62 then ('0' as nat + v - 52) as char
    else if v == 62 then '+' else '/'
  }

  /** Table 1 read backwards. */
  function Sextet(c: char): Option<nat>
  {
    if 'A' <= c <= 'Z' then Some(c as nat - 'A' as nat)
    else if 'a' <= c <= 'z' then Some(c as nat - 'a' as nat + 26)
    else if '0' <= c <= '9' then Some(c as nat - '0' as nat + 52)
    else if c == '+' then Some(62)
    else if c == '/' then Some(63)
    else None
  }

  lemma TableInverse(v: nat)
    requires v < 64
    ensures Sextet(Table(v)) == Some(v) && Table(v) != '='
  {
  }

  lemma AlphabetIsTable(v: nat)
    requires v < 64
    ensures Alphabet(v) == Table(v)
  {
  }

  /** The 24-bit input group of up to three octets, zero bits added on the right. */
  function GroupValue(g: seq<byte>): (v: nat)
    requires 1 <= |g| <= 3
    ensures v < 0x100_0000
  {
    g[0] as nat * 65536 + (if |g| > 1 then g[1] as nat * 256 else 0) + (if |g| > 2 then g[2] as nat else 0)
  }

  /** The six bits of v above bit shift, for the four shifts in use. */
  function Bits(v: nat, shift: nat): (b: nat)
    ensures b < 64
  {
    if shift == 18 then v / 262144 % 64
    else if shift == 12 then v / 4096 % 64
    else if shift == 6 then v / 64 % 64
    else v % 64
  }

  /** Four characters per group; the cases (1), (2) and (3) of section 4. */
  function EncodeGroup(g: seq<byte>): (t: string)
    requires 1 <= |g| <= 3
    ensures |t| == 4
  {
    var v := GroupValue(g);
    [Table(Bits(v, 18)), Table(Bits(v, 12)),
     if |g| > 1 then Table(Bits(v, 6)) else '=',
     if |g| > 2 then Table(Bits(v, 0)) else '=']
  }

  function Encode(s: seq<byte>): (t: string)
    ensures |t| == 4 * ((|s| + 2) / 3)
  {
    if |s| == 0 then "" else if |s| <= 3 then EncodeGroup(s) else EncodeGroup(s[..3]) + Encode(s[3..])
  }

  /** The octets of one group of four characters; pad bits must be zero (section 3.5). */
  function DecodeGroup(t: string): Option<seq<byte>>
    requires |t| == 4
  {
    var a, b, c, d := Sextet(t[0]), Sextet(t[1]), Sextet(t[2]), Sextet(t[3]);
    if a.None? || b.None? then None
    else if t[2] == '=' && t[3] == '=' then
      if b.value % 16 == 0 then Some([Top(a.value, b.value)]) else None
    else if c.None? then None
    else if t[3] == '=' then
      if c.value % 4 == 0 then Some([Top(a.value, b.value), Middle(b.value, c.value)]) else None
    else if d.None? then None
    else Some([Top(a.value, b.value), Middle(b.value, c.value), Bottom(c.value, d.value)])
  }

  function Top(a: nat, b: nat): byte { (a % 64 * 4 + b / 16 % 4) as byte }
  function Middle(b: nat, c: nat): byte { (b % 16 * 16 + c / 4 % 16) as byte }
  function Bottom(c: nat, d: nat): byte { (c % 4 * 64 + d % 64) as byte }

  /** Only the last group may be padded. */
  function Decode(t: string): Option<seq<byte>>
  {
    if |t| == 0 then Some([])
    else if |t| < 4 then None
    else if |t| == 4 then DecodeGroup(t)
    else
      var head, tail := DecodeGroup(t[..4]), Decode(t[4..]);
      if head.Some? && |head.value| == 3 && tail.Some? then Some(head.value + tail.value) else None
  }

  /** The first three sextets of a group, octet by octet; the fourth is z % 64. */
  function S0(x: byte): (v: nat) ensures v < 64 { (x / 4) as nat }
  function S1(x: byte, y: byte): (v: nat) ensures v < 64 { (x % 4) as nat * 16 + (y / 16) as nat }
  function S2(y: byte, z: byte): (v: nat) ensures v < 64 { (y % 16) as nat * 4 + (z / 64) as nat }
  function S3(z: byte): (v: nat) ensures v < 64 { (z % 64) as nat }

  function At(g: seq<byte>, i: nat): byte { if i < |g| then g[i] else 0 }

  lemma Sextets(v: nat, x: byte, y: byte, z: byte)
    requires v == x as nat * 65536 + y as nat * 256 + z as nat
    ensures Bits(v, 18) == S0(x) && Bits(v, 12) == S1(x, y) && Bits(v, 6) == S2(y, z) && Bits(v, 0) == S3(z)
  {
    var a, b, c, d := S0(x), S1(x, y), S2(y, z), S3(z);
    assert x as nat == 4 * a + (x % 4) as nat;
    assert y as nat == 16 * (y / 16) as nat + (y % 16) as nat;
    assert z as nat == 64 * (z / 64) as nat + d;
    BitsOf(a, b, c, d);
    assert v == 262144 * a + 4096 * b + 64 * c + d;
  }

  lemma BitsOf(a: nat, b: nat, c: nat, d: nat)
    requires a < 64 && b < 64 && c < 64 && d < 64
    ensures var v := 262144 * a + 4096 * b + 64 * c + d;
      Bits(v, 18) == a && Bits(v, 12) == b && Bits(v, 6) == c && Bits(v, 0) == d
  {
    var v := 262144 * a + 4096 * b + 64 * c + d;
    assert v / 64 == 4096 * a + 64 * b + c;
    assert v / 4096 == 64 * a + b;
    assert v / 262144 == a;
  }

  lemma EncodeGroupIs(g: seq<byte>)
    requires 1 <= |g| <= 3
    ensures var x, y, z := At(g, 0), At(g, 1), At(g, 2);
      EncodeGroup(g) == [Table(S0(x)), Table(S1(x, y)), if |g| > 1 then Table(S2(y, z)) else '=',
                         if |g| > 2 then Table(S3(z)) else '=']
  {
    Sextets(GroupValue(g), At(g, 0), At(g, 1), At(g, 2));
    hide Table, Bits, S0, S1, S2, S3;
  }

  lemma Octets(x: byte, y: byte, z: byte)
    ensures Top(S0(x), S1(x, y)) == x
    ensures Middle(S1(x, y), S2(y, z)) == y
    ensures Bottom(S2(y, z), S3(z)) == z
    ensures S1(x, 0) % 16 == 0 && S2(y, 0) % 4 == 0
  {
    PairParts((x % 4) as nat, (y / 16) as nat, 16);
    PairParts((y % 16) as nat, (z / 64) as nat, 4);
    assert Top(S0(x), S1(x, y)) == x / 4 * 4 + x % 4;
    assert Middle(S1(x, y), S2(y, z)) == y / 16 * 16 + y % 16;
    assert Bottom(S2(y, z), S3(z)) == z / 64 * 64 + z % 64;
  }

  lemma PairParts(hi: nat, lo: nat, m: nat)
    requires (m == 16 || m == 4) && lo < m
    ensures (hi * m + lo) / m == hi && (hi * m + lo) % m == lo
  {
  }

  lemma DecodeTables(a: nat, b: nat, c: nat, d: nat)
    requires a < 64 && b < 64 && c < 64 && d < 64
    ensures DecodeGroup([Table(a), Table(b), Table(c), Table(d)]) ==
            Some([Top(a, b), Middle(b, c), Bottom(c, d)])
    ensures c % 4 == 0 ==>
            DecodeGroup([Table(a), Table(b), Table(c), '=']) == Some([Top(a, b), Middle(b, c)])
    ensures b % 16 == 0 ==> DecodeGroup([Table(a), Table(b), '=', '=']) == Some([Top(a, b)])
  {
    hide Table, Sextet, Top, Middle, Bottom;
    TableInverse(a);
    TableInverse(b);
    TableInverse(c);
    TableInverse(d);
  }

  lemma GroupRoundTrip(g: seq<byte>)
    requires 1 <= |g| <= 3
    ensures DecodeGroup(EncodeGroup(g)) == Some(g)
  {
    hide Table, DecodeGroup, EncodeGroup, Top, Middle, Bottom, S0, S1, S2, S3;
    var x, y, z := At(g, 0), At(g, 1), At(g, 2);
    EncodeGroupIs(g);
    Octets(x, y, z);
    DecodeTables(S0(x), S1(x, y), S2(y, z), S3(z));
    if |g| == 1 {
      assert g == [x];
    } else if |g| == 2 {
      assert g == [x, y];
    } else {
      assert g == [x, y, z];
    }
  }

  /** Decoding inverts encoding, for every input. */
  lemma {:induction false} DecodeEncode(s: seq<byte>)
    ensures Decode(Encode(s)) == Some(s)
  {
    if |s| > 3 {
      GroupRoundTrip(s[..3]);
      DecodeEncode(s[3..]);
      assert Encode(s)[..4] == EncodeGroup(s[..3]) && Encode(s)[4..] == Encode(s[3..]);
      assert s[..3] + s[3..] == s;
    } else if |s| > 0 {
      GroupRoundTrip(s);
    }
  }

  /** Letters, digits, two signs and the padding: nothing that a header field would trim or end at. */
  predicate Visible(c: char)
  {
    '+' <= c <= 'z'
  }

  lemma {:induction false} EncodeVisible(s: seq<byte>)
    ensures forall i :: 0 <= i < |Encode(s)| ==> Visible(Encode(s)[i])
  {
    hide Bits, GroupValue;
    if |s| > 3 {
      EncodeVisible(s[3..]);
    }
  }

  /** What is still to be encoded when the loop of base64_encode_small is at i. */
  function Rest(src: seq<byte>, i: nat): seq<byte>
  {
    if i < |src| then src[i..] else []
  }

  lemma EncodeStep(src: seq<byte>, i: nat)
    requires i < |src|
    ensures var g := src[i..Min(i + 3, |src|)];
      Encode(Rest(src, i)) == EncodeGroup(g) + Encode(Rest(src, i + 3))
  {
    var r := Rest(src, i);
    if |r| > 3 {
      assert r[..3] == src[i..i + 3] && r[3..] == src[i + 3..];
    } else {
      assert r == src[i..|src|];
      assert EncodeGroup(r) + "" == EncodeGroup(r);
    }
  }

  /** base64_encode_small. With an empty destination it would store the terminator out of
      bounds for an empty source, the one call its signature allows and its code does not. */
  method EncodeSmall(src: seq<byte>, dst: array<char>) returns (ret: int)
    requires dst.Length > 0 || |src| > 0
    modifies dst
    ensures ret == 0 || ret == ENOMEM
    ensures ret == 0 <==> |Encode(src)| < dst.Length
    ensures ret == 0 ==> dst[..|Encode(src)|] == Encode(src) && dst[|Encode(src)|] == '\0'
  {
    hide Encode, EncodeGroup, Table, Alphabet;
    var out := 0;
    var i := 0;
    assert dst[..0] + Encode(Rest(src, 0)) == Encode(src);
    while i < |src|
      invariant 0 <= out <= dst.Length && (i > 0 ==> out < dst.Length)
      invariant dst[..out] + Encode(Rest(src, i)) == Encode(src)
      decreases |src| - i
    {
      EncodeStep(src, i);
      ghost var before, g := dst[..out], src[i..Min(i + 3, |src|)];
      ghost var tail := Encode(Rest(src, i + 3));
      assert |Encode(src)| == out + 4 + |tail|;
      if out + 4 >= dst.Length {
        return ENOMEM;
      }
      ghost var t := PutGroup(src, i, dst, out);
      out := out + 4;
      assert dst[..out] == before + t;
      assert before + (t + tail) == before + t + tail;
      i := i + 3;
    }
    EncodeEmpty();
    assert dst[..out] + "" == dst[..out];
    dst[out] := '\0';
    return 0;
  }

  lemma EncodeEmpty()
    ensures Encode([]) == ""
  {
  }

  /** The body of the loop: one group read and four characters stored. */
  method PutGroup(src: seq<byte>, i: nat, dst: array<char>, out: nat) returns (ghost t: string)
    requires i < |src| && out + 4 < dst.Length
    modifies dst
    ensures t == EncodeGroup(src[i..Min(i + 3, |src|)])
    ensures dst[..out] == old(dst[..out]) && dst[out..out + 4] == t
  {
    var value := src[i] as nat * 65536;
    var remain := |src| - i;
    if remain > 1 {
      value := value + src[i + 1] as nat * 256;
    }
    if remain > 2 {
      value := value + src[i + 2] as nat;
    }
    ghost var g := src[i..Min(i + 3, |src|)];
    assert value == GroupValue(g);
    AlphabetIsTable(Bits(value, 18));
    AlphabetIsTable(Bits(value, 12));
    AlphabetIsTable(Bits(value, 6));
    AlphabetIsTable(Bits(value, 0));
    hide Alphabet, Table, GroupValue, Bits;
    dst[out] := Alphabet(Bits(value, 18));
    dst[out + 1] := Alphabet(Bits(value, 12));
    dst[out + 2] := if remain > 1 then Alphabet(Bits(value, 6)) else '=';
    dst[out + 3] := if remain > 2 then Alphabet(Bits(value, 0)) else '=';
    t := EncodeGroup(g);
  }
}
