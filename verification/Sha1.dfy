/** The streaming SHA-1 of the HTTP server, proved to compute the digest of Sha1Spec. */
module Sha1 {
  import opened Bytes
  import opened Sha1Spec

  /** The selection the code makes: Ch and Maj in their OR forms. */
  function OrF(i: nat, b: word, c: word, d: word): word
    requires i < 80
  {
    if i < 20 then (b & c) | (!b & d)
    else if i < 40 then b ^ c ^ d
    else if i < 60 then (b & c) | (b & d) | (c & d)
    else b ^ c ^ d
  }

  lemma OrFormsAreFips(i: nat, b: word, c: word, d: word)
    requires i < 80
    ensures OrF(i, b, c, d) == F(i, b, c, d)
  {
    if i < 20 {
      assert (b & c) | (!b & d) == (b & c) ^ (!b & d);
    } else if 40 <= i < 60 {
      assert (b & c) | (b & d) | (c & d) == (b & c) ^ (b & d) ^ (c & d);
    }
  }

  /** sha1_rol. */
  function Rol(value: word, bits: nat): (r: word)
    requires 0 < bits < 32
    ensures r == Rotl(bits, value)
  {
    (value << bits) | (value >> (32 - bits))
  }

  /** One step of the schedule, and four octets read as a word, as sha1_transform writes them out. */
  function NextOf(x3: word, x8: word, x14: word, x16: word): (w: word)
    ensures w == Expand(x3, x8, x14, x16)
  {
    Rol(x3 ^ x8 ^ x14 ^ x16, 1)
  }

  function LoadWord(b0: byte, b1: byte, b2: byte, b3: byte): (w: word)
    ensures w == BigEndian(b0, b1, b2, b3)
  {
    (b0 as word << 24) | (b1 as word << 16) | (b2 as word << 8) | b3 as word
  }

  /** The 64-bit counter after n octets. */
  function CountOf(n: nat): nat
  {
    (8 * n) % 0x1_0000_0000_0000_0000
  }

  /** bit_count += len * 8U: a 32-bit product, a 64-bit sum. */
  function NextCount(count: nat, len: nat): nat
  {
    (count + (len * 8) % 0x1_0000_0000) % 0x1_0000_0000_0000_0000
  }

  /** (bit_count / 8U) % 64. */
  function IndexOf(count: nat): (i: nat)
    ensures i < 64
  {
    count / 8 % 64
  }

  /** Only the residue of the octet count matters for the buffer index. */
  lemma IndexOfCount(n: nat)
    ensures IndexOf(CountOf(n)) == n % 64
  {
    var q, r := n / 0x2000_0000_0000_0000, n % 0x2000_0000_0000_0000;
    assert n == 0x2000_0000_0000_0000 * q + r;
    assert CountOf(n) == 8 * r;
    assert n == 64 * (0x80_0000_0000_0000 * q) + r;
  }

  /** Nothing is lost of the length while a chunk is below 2^29 octets. */
  lemma CountStep(n: nat, len: nat)
    requires len < 0x2000_0000
    ensures NextCount(CountOf(n), len) == CountOf(n + len)
  {
    var q, r := 8 * n / 0x1_0000_0000_0000_0000, CountOf(n);
    assert 8 * n == q * 0x1_0000_0000_0000_0000 + r;
    assert 8 * (n + len) == q * 0x1_0000_0000_0000_0000 + (r + 8 * len);
    if r + 8 * len < 0x1_0000_0000_0000_0000 {
      assert CountOf(n + len) == r + 8 * len;
    } else {
      assert CountOf(n + len) == r + 8 * len - 0x1_0000_0000_0000_0000;
    }
  }

  lemma IndexIsResidue(n: nat, index: nat)
    requires index < 64 && index <= n && (n - index) % 64 == 0
    ensures index == n % 64
  {
  }

  lemma HashSnoc(s: seq<byte>, block: seq<byte>)
    requires |s| % 64 == 0 && |block| == 64
    ensures Hash(s + block) == Compress(Hash(s), block)
  {
    var t := s + block;
    assert t[..|t| - 64] == s && t[|t| - 64..] == block;
  }

  class Sha1Ctx {
    const state: array<word>
    var bitCount: nat
    const buffer: array<byte>
    /** Everything hashed so far. */
    ghost var msg: seq<byte>

    ghost function Words(): Regs
      requires state.Length == 5
      reads state
    {
      Regs(state[0], state[1], state[2], state[3], state[4])
    }

    /** State and the first index octets of the buffer stand for m. */
    ghost predicate Represents(m: seq<byte>, index: nat)
      reads state, buffer
    {
      && state.Length == 5 && buffer.Length == 64
      && index <= 64 && index <= |m| && (|m| - index) % 64 == 0
      && Words() == Hash(m[..|m| - index])
      && buffer[..index] == m[|m| - index..]
    }

    ghost predicate Valid()
      reads this, state, buffer
    {
      && Represents(msg, |msg| % 64)
      && bitCount == CountOf(|msg|)
    }

    /** sha1_init. */
    constructor ()
      ensures Valid() && fresh(state) && fresh(buffer) && msg == []
    {
      state := new word[] [0x67452301, 0xefcdab89, 0x98badcfe, 0x10325476, 0xc3d2e1f0];
      bitCount := 0;
      buffer := new byte[64](_ => 0);
      msg := [];
      new;
      assert Words() == H0 && msg[..|msg| - 0] == [];
    }

    /** sha1_transform: the schedule, the rounds, and the sums into the state. */
    method Transform(block: array<byte>)
      requires state.Length == 5 && block.Length == 64
      modifies state
      ensures Words() == Compress(old(Words()), block[..])
    {
      hide Rounds, Add;
      var w := Schedule(block[..]);
      var a, b, c, d, e := RunRounds(block[..], w, state[0], state[1], state[2], state[3], state[4]);
      state[0] := Add(state[0], a);
      state[1] := Add(state[1], b);
      state[2] := Add(state[2], c);
      state[3] := Add(state[3], d);
      state[4] := Add(state[4], e);
    }

    static method Schedule(block: seq<byte>) returns (w: array<word>)
      requires |block| == 64
      ensures fresh(w) && w.Length == 80
      ensures forall j :: 0 <= j < 80 ==> w[j] == W(block, j)
    {
      hide BigEndian, Expand, LoadWord, NextOf;
      w := new word[80];
      for i := 0 to 16
        invariant forall j :: 0 <= j < i ==> w[j] == W(block, j)
      {
        w[i] := LoadWord(block[i * 4], block[i * 4 + 1], block[i * 4 + 2], block[i * 4 + 3]);
      }
      for i := 16 to 80
        invariant forall j :: 0 <= j < i ==> w[j] == W(block, j)
      {
        w[i] := NextOf(w[i - 3], w[i - 8], w[i - 14], w[i - 16]);
      }
    }

    static lemma KIs(i: nat, k: word)
      requires i < 80
      requires k ==
        if i < 20 then 0x5a827999 else if i < 40 then 0x6ed9eba1 else if i < 60 then 0x8f1bbcdc else 0xca62c1d6
      ensures K(i) == k
    {
    }

    static method RunRounds(ghost block: seq<byte>, w: array<word>, a0: word, b0: word, c0: word, d0: word, e0: word)
      returns (a: word, b: word, c: word, d: word, e: word)
      requires |block| == 64 && w.Length == 80
      requires forall j :: 0 <= j < 80 ==> w[j] == W(block, j)
      ensures Regs(a, b, c, d, e) == Rounds(Regs(a0, b0, c0, d0, e0), block, 80)
    {
      hide W, F, OrF, K, Rotl, Rol, Add;
      a, b, c, d, e := a0, b0, c0, d0, e0;
      for i := 0 to 80
        invariant Regs(a, b, c, d, e) == Rounds(Regs(a0, b0, c0, d0, e0), block, i)
      {
        OrFormsAreFips(i, b, c, d);
        var f := OrF(i, b, c, d);
        var k :=
          if i < 20 then 0x5a827999 else if i < 40 then 0x6ed9eba1 else if i < 60 then 0x8f1bbcdc else 0xca62c1d6;
        KIs(i, k);
        var temp := Add(Add(Add(Add(Rol(a, 5), f), e), k), w[i]);
        e := d;
        d := c;
        c := Rol(b, 30);
        b := a;
        a := temp;
      }
    }

    /** sha1_update. */
    method Update(data: seq<byte>)
      requires Valid() && |data| < 0x2000_0000
      modifies this`bitCount, this`msg, state, buffer
      ensures Valid() && msg == old(msg) + data
    {
      hide Hash, CountOf, NextCount, IndexOf;
      IndexOfCount(|msg|);
      CountStep(|msg|, |data|);
      var index := IndexOf(bitCount);
      bitCount := NextCount(bitCount, |data|);
      Absorb(data, index, msg);
      msg := msg + data;
    }

    /** The loop of sha1_update. */
    method Absorb(data: seq<byte>, start: nat, ghost m: seq<byte>)
      requires start < 64 && Represents(m, start)
      modifies state, buffer
      ensures Represents(m + data, |m + data| % 64)
    {
      hide Represents;
      var index := start;
      var off := 0;
      assert m + data[..0] == m;
      while off < |data|
        invariant 0 <= off <= |data| && 0 <= index < 64
        invariant Represents(m + data[..off], index)
      {
        var space := 64 - index;
        var chunk := Min(|data| - off, space);
        CopyChunk(data, off, chunk, index, m + data[..off]);
        assert m + data[..off] + data[off..off + chunk] == m + data[..off + chunk];
        index := index + chunk;
        off := off + chunk;
        if index == 64 {
          Flush(m + data[..off]);
          index := 0;
        }
      }
      assert data[..off] == data;
      RepresentsResidue(m + data, index);
    }

    lemma RepresentsResidue(m: seq<byte>, index: nat)
      requires Represents(m, index) && index < 64
      ensures index == |m| % 64
    {
      hide Hash;
      IndexIsResidue(|m|, index);
    }

    /** The memcpy of sha1_update. */
    method CopyChunk(data: seq<byte>, off: nat, chunk: nat, index: nat, ghost m: seq<byte>)
      requires Represents(m, index) && index + chunk <= 64 && off + chunk <= |data|
      modifies buffer
      ensures Represents(m + data[off..off + chunk], index + chunk)
    {
      hide Hash;
      ghost var before := buffer[..index];
      forall k | 0 <= k < chunk {
        buffer[index + k] := data[off + k];
      }
      ghost var m' := m + data[off..off + chunk];
      assert m'[..|m'| - (index + chunk)] == m[..|m| - index];
      assert buffer[..index] == before;
      assert buffer[index..index + chunk] == data[off..off + chunk];
      assert buffer[..index + chunk] == buffer[..index] + buffer[index..index + chunk];
      assert m'[|m'| - (index + chunk)..] == m[|m| - index..] + data[off..off + chunk];
    }

    /** The block step of sha1_update, when the buffer is full. */
    method Flush(ghost m: seq<byte>)
      requires Represents(m, 64)
      modifies state
      ensures Represents(m, 0)
    {
      Transform(buffer);
      assert buffer[..] == buffer[..64] == m[|m| - 64..];
      HashSnoc(m[..|m| - 64], m[|m| - 64..]);
      assert m[..|m| - 64] + m[|m| - 64..] == m;
      assert m[..|m| - 0] == m;
    }

    /** sha1_final: one 0x80, zeros one at a time, the length, and the digest. */
    method Final(digest: array<byte>)
      requires Valid() && |msg| < 0x2000_0000_0000_0000
      requires digest.Length == 20 && digest != buffer
      modifies this`bitCount, this`msg, state, buffer, digest
      ensures digest[..] == Sha1(old(msg))
    {
      hide Hash, ToBe, RegsBytes, ZeroCount;
      var bits := bitCount;
      ghost var m := msg;
      PadWithZeros();
      assert bits == 8 * |m|;
      var lenBuf := LengthBytes(bits);
      Update(lenBuf);
      PadIsWhole(m);
      assert msg[..|msg|] == msg;
      assert msg == Pad(m);
      WriteDigest(digest);
    }

    /** The first two updates of sha1_final: the loop stops after exactly ZeroCount zeros. */
    method PadWithZeros()
      requires Valid()
      modifies this`bitCount, this`msg, state, buffer
      ensures Valid() && msg == old(msg) + [0x80] + seq(ZeroCount(|old(msg)|), _ => 0)
    {
      hide Represents, CountOf, IndexOf, ZeroCount;
      ghost var m := msg;
      ghost var z := 0;
      Update([0x80]);
      IndexOfCount(|msg|);
      ZeroStep(|m|, z);
      while IndexOf(bitCount) != 56
        invariant Valid() && 0 <= z <= ZeroCount(|m|)
        invariant msg == m + [0x80] + seq(z, _ => 0)
        invariant IndexOf(bitCount) == 56 <==> z == ZeroCount(|m|)
        decreases ZeroCount(|m|) - z
      {
        Update([0]);
        z := z + 1;
        assert msg == m + [0x80] + seq(z, _ => 0);
        IndexOfCount(|msg|);
        ZeroStep(|m|, z);
      }
    }

    static method LengthBytes(bits: nat) returns (lenBuf: seq<byte>)
      requires bits < 0x1_0000_0000_0000_0000
      ensures lenBuf == ToBe(bits, 8) && FromBe(lenBuf) == bits
    {
      hide ToBe, FromBe, ShiftOctets, Pow256;
      var buf := new byte[8];
      for i := 0 to 8
        invariant forall j :: 8 - i <= j < 8 ==> buf[j] == ToBe(bits, 8)[j]
      {
        ToBeAt(bits, 8, i);
        buf[7 - i] := (ShiftOctets(bits, i) % 256) as byte;
      }
      lenBuf := buf[..];
      Pow256Of8();
      BeRoundTrip(bits, 8);
    }

    method WriteDigest(digest: array<byte>)
      requires state.Length == 5 && digest.Length == 20
      modifies digest
      ensures digest[..] == RegsBytes(Words())
    {
      hide Octet;
      for i := 0 to 5
        invariant forall j :: 0 <= j < i ==> digest[4 * j..4 * j + 4] == WordBytes(state[j])
      {
        digest[i * 4] := Octet(state[i], 24);
        digest[i * 4 + 1] := Octet(state[i], 16);
        digest[i * 4 + 2] := Octet(state[i], 8);
        digest[i * 4 + 3] := Octet(state[i], 0);
      }
      assert digest[..] == digest[0..4] + digest[4..8] + digest[8..12] + digest[12..16] + digest[16..20];
      assert forall j :: 0 <= j < 5 ==> digest[4 * j..4 * j + 4] == WordBytes(state[j]);
    }
  }

  lemma ZeroStep(n: nat, z: nat)
    requires z <= ZeroCount(n)
    ensures (n + 1 + z) % 64 == 56 <==> z == ZeroCount(n)
  {
    var q, r := n / 64, n % 64;
    assert n + 1 + z == 64 * q + (r + 1 + z);
  }

  /** The digest of a message does not depend on how it is cut into updates. */
  method DigestChunks(chunks: seq<seq<byte>>) returns (digest: seq<byte>)
    requires forall c :: c in chunks ==> |c| < 0x2000_0000
    requires |Concat(chunks)| < 0x2000_0000_0000_0000
    ensures digest == Sha1(Concat(chunks))
  {
    var ctx := new Sha1Ctx();
    for i := 0 to |chunks|
      invariant ctx.Valid() && fresh(ctx) && fresh(ctx.state) && fresh(ctx.buffer)
      invariant ctx.msg == Concat(chunks[..i])
    {
      ctx.Update(chunks[i]);
      assert chunks[..i + 1][..i] == chunks[..i];
    }
    assert chunks[..|chunks|] == chunks;
    var out := new byte[20];
    ctx.Final(out);
    digest := out[..];
  }
}
