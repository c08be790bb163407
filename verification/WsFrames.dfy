/** Frames of RFC 6455 section 5.2: what the server writes, and what a client may send. */
module WsFrames {
  import opened Bytes

  const CONTINUATION: nat := 0x0
  const TEXT: nat := 0x1
  const CLOSE: nat := 0x8
  const PING: nat := 0x9
  const PONG: nat := 0xa

  /** A final, unmasked frame. */
  datatype AnyFrame = Frame(opcode: nat, payload: seq<byte>)

  /** The frames send_websocket_frame does not refuse. */
  type Frame = f: AnyFrame | f.opcode < 16 && |f.payload| < 0x1_0000 witness Frame(0, [])

  /** FIN, no RSV, no MASK, and the shortest payload length form. */
  function Header(opcode: nat, len: nat): (h: seq<byte>)
    requires opcode < 16 && len < 0x1_0000
    ensures 2 <= |h| <= 4
  {
    [(0x80 + opcode) as byte] + if len <= 125 then [len as byte] else [126] + Be16(len)
  }

  function Encode(f: Frame): (b: seq<byte>)
    ensures |b| >= 2
  {
    Header(f.opcode, |f.payload|) + f.payload
  }

  function EncodeAll(fs: seq<Frame>): seq<byte>
  {
    if |fs| == 0 then [] else EncodeAll(fs[..|fs| - 1]) + Encode(fs[|fs| - 1])
  }

  /** The first frame of a stream and what follows it, if the stream starts with a final,
      unmasked frame of minimal length encoding with all reserved bits clear. */
  function DecodeFirst(b: seq<byte>): Option<(Frame, seq<byte>)>
  {
    if |b| < 2 || b[0] / 16 != 8 || b[1] >= 127 then None
    else
      var opcode := (b[0] % 16) as nat;
      if b[1] <= 125 then
        var n := b[1] as nat;
        if |b| < 2 + n then None else Some((Frame(opcode, b[2..2 + n]), b[2 + n..]))
      else if |b| < 4 then None
      else
        var n := FromBe16(b[2], b[3]);
        if n <= 125 || |b| < 4 + n then None else Some((Frame(opcode, b[4..4 + n]), b[4 + n..]))
  }

  function DecodeAll(b: seq<byte>): Option<seq<Frame>>
    decreases |b|
  {
    if |b| == 0 then Some([])
    else match DecodeFirst(b)
      case None => None
      case Some((f, rest)) =>
        if |rest| >= |b| then None
        else match DecodeAll(rest)
          case None => None
          case Some(fs) => Some([f] + fs)
  }

  lemma Be16RoundTrip(n: nat)
    requires n < 0x1_0000
    ensures FromBe16(Be16(n)[0], Be16(n)[1]) == n
  {
  }

  lemma FirstOfEncode(f: Frame, rest: seq<byte>)
    ensures DecodeFirst(Encode(f) + rest) == Some((f, rest))
  {
    var b := Encode(f) + rest;
    var n := |f.payload|;
    assert (0x80 + f.opcode) / 16 == 8 && (0x80 + f.opcode) % 16 == f.opcode;
    if n <= 125 {
      assert b[2..2 + n] == f.payload && b[2 + n..] == rest;
    } else {
      Be16RoundTrip(n);
      hide Be16, FromBe16;
      assert b[2] == Be16(n)[0] && b[3] == Be16(n)[1];
      assert b[4..4 + n] == f.payload && b[4 + n..] == rest;
    }
  }

  lemma EncodeAllCons(f: Frame, fs: seq<Frame>)
    ensures EncodeAll([f] + fs) == Encode(f) + EncodeAll(fs)
  {
    hide Encode;
    var all := [f] + fs;
    if |fs| == 0 {
      assert all[..0] == [] && all[0] == f;
    } else {
      var k := |fs| - 1;
      EncodeAllCons(f, fs[..k]);
      assert all[..|all| - 1] == [f] + fs[..k] && all[|all| - 1] == fs[k];
      assert EncodeAll(all) == EncodeAll([f] + fs[..k]) + Encode(fs[k]);
    }
  }

  /** A stream of frames is decoded to exactly those frames. */
  lemma {:induction false} DecodeEncode(fs: seq<Frame>)
    ensures DecodeAll(EncodeAll(fs)) == Some(fs)
  {
    if |fs| > 0 {
      var f, rest := fs[0], fs[1..];
      assert fs == [f] + rest;
      EncodeAllCons(f, rest);
      FirstOfEncode(f, EncodeAll(rest));
      DecodeEncode(rest);
    }
  }

  lemma EncodeOfFirst(b: seq<byte>)
    requires DecodeFirst(b).Some?
    ensures var (f, rest) := DecodeFirst(b).value; b == Encode(f) + rest && |rest| < |b|
  {
    var (f, rest) := DecodeFirst(b).value;
    var n := |f.payload|;
    assert b[0] == (0x80 + f.opcode) as byte;
    if n <= 125 {
      assert b == [b[0], b[1]] + f.payload + rest;
    } else {
      assert Be16(n) == [b[2], b[3]];
      assert b == [b[0], b[1], b[2], b[3]] + f.payload + rest;
    }
  }

  /** No other stream decodes to them: decoding is unique. */
  lemma {:induction false} EncodeDecode(b: seq<byte>)
    requires DecodeAll(b).Some?
    ensures EncodeAll(DecodeAll(b).value) == b
    decreases |b|
  {
    if |b| > 0 {
      EncodeOfFirst(b);
      var (f, rest) := DecodeFirst(b).value;
      EncodeDecode(rest);
      EncodeAllCons(f, DecodeAll(rest).value);
    }
  }
}
