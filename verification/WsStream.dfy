/** The client's side of the WebSocket stream: how RFC 6455 lays a frame out, what the
    server's reader makes of a stream, and that the two agree. */
module WsStream {
  import opened Bytes
  import opened WsFrames

  const WS_MAX_PAYLOAD: nat := 256

  /** The three payload length forms of section 5.2. */
  datatype LengthForm = Seven | Sixteen | SixtyFour

  /** A client frame: FIN, RSV and opcode in one octet, the masking key if masked, the payload
      before masking, and the length form the client chose. */
  datatype ClientFrame = ClientFrame(first: byte, key: Option<seq<byte>>, payload: seq<byte>, form: LengthForm)

  predicate WellFormed(c: ClientFrame)
  {
    && (c.key.Some? ==> |c.key.value| == 4)
    && (c.form == Seven ==> |c.payload| <= 125)
    && (c.form == Sixteen ==> |c.payload| < 0x1_0000)
    && (c.form == SixtyFour ==> |c.payload| < 0x8000_0000_0000_0000)
  }

  /** Section 5.3: octet i is combined with octet i modulo 4 of the key. */
  function Masked(p: seq<byte>, key: seq<byte>): (m: seq<byte>)
    requires |key| == 4
    ensures |m| == |p|
  {
    seq(|p|, i requires 0 <= i < |p| => Xor(p[i], key[i % 4]))
  }

  lemma MaskedTwice(p: seq<byte>, key: seq<byte>)
    requires |key| == 4
    ensures Masked(Masked(p, key), key) == p
  {
    forall i | 0 <= i < |p|
      ensures Masked(Masked(p, key), key)[i] == p[i]
    {
      XorInverse(p[i], key[i % 4]);
    }
  }

  function Prefix(c: ClientFrame): (h: seq<byte>)
    requires WellFormed(c)
    ensures |h| >= 2
  {
    var m: nat := if c.key.Some? then 128 else 0;
    match c.form
    case Seven => [c.first, (m + |c.payload|) as byte]
    case Sixteen => [c.first, (m + 126) as byte] + Be16(|c.payload|)
    case SixtyFour => [c.first, (m + 127) as byte] + ToBe(|c.payload|, 8)
  }

  function EncodeClient(c: ClientFrame): (b: seq<byte>)
    requires WellFormed(c)
    ensures |b| >= 2
  {
    Prefix(c) + match c.key
      case None => c.payload
      case Some(key) => key + Masked(c.payload, key)
  }

  /** What one turn of the reader finds at the head of a stream. */
  datatype Item =
    | NeedMore
    | Refused(rest: seq<byte>)
    | Message(opcode: nat, payload: seq<byte>, rest: seq<byte>)

  function First(s: seq<byte>): Item
  {
    if |s| < 2 then NeedMore
    else if s[1] % 128 == 127 then Refused(s[2..])
    else if s[1] % 128 == 126 then
      if |s| < 4 then NeedMore else Body(s, 4, FromBe16(s[2], s[3]))
    else Body(s, 2, (s[1] % 128) as nat)
  }

  function Body(s: seq<byte>, off: nat, n: nat): Item
    requires 2 <= off <= |s|
  {
    if s[1] < 128 || n > WS_MAX_PAYLOAD then Refused(s[off..])
    else if |s| < off + 4 + n then NeedMore
    else Message((s[0] % 16) as nat, Masked(s[off + 4..off + 4 + n], s[off..off + 4]), s[off + 4 + n..])
  }

  /** What the loop does about one item: hand the text to the bridge, answer a ping, echo a
      close frame, or send an empty close frame. The last two end the session. */
  datatype Act = Text(payload: seq<byte>) | Answer(payload: seq<byte>) | EchoClose(payload: seq<byte>) | Refuse

  predicate Final(a: Act)
  {
    a.EchoClose? || a.Refuse?
  }

  function ActFor(opcode: nat, payload: seq<byte>): Act
  {
    if opcode == CLOSE then EchoClose(payload)
    else if opcode == PING then Answer(payload)
    else if opcode == TEXT || opcode == CONTINUATION then Text(payload)
    else Refuse
  }

  /** Everything the loop does about a stream, up to and including the first final act. */
  function Acts(s: seq<byte>): seq<Act>
    decreases |s|
  {
    match First(s)
    case NeedMore => []
    case Refused(_) => [Refuse]
    case Message(op, p, rest) =>
      if Final(ActFor(op, p)) then [ActFor(op, p)] else [ActFor(op, p)] + Acts(rest)
  }

  /** The frames the loop serves are masked, at most 256 octets, and not in the 64-bit form. */
  predicate Served(c: ClientFrame)
  {
    c.key.Some? && |c.payload| <= WS_MAX_PAYLOAD && c.form != SixtyFour
  }

  function ActOn(c: ClientFrame): Act
  {
    if Served(c) then ActFor((c.first % 16) as nat, c.payload) else Refuse
  }

  /** What the client means: its frames one by one, until one ends the session. */
  function Meant(cs: seq<ClientFrame>): seq<Act>
  {
    if |cs| == 0 then []
    else if Final(ActOn(cs[0])) then [ActOn(cs[0])]
    else [ActOn(cs[0])] + Meant(cs[1..])
  }

  function EncodeClients(cs: seq<ClientFrame>): seq<byte>
    requires forall c :: c in cs ==> WellFormed(c)
  {
    if |cs| == 0 then [] else EncodeClient(cs[0]) + EncodeClients(cs[1..])
  }

  /** The reader finds the length the client wrote, in whichever form. */
  lemma LengthOfClient(c: ClientFrame, s: seq<byte>)
    requires WellFormed(c) && Prefix(c) <= s
    ensures s[0] == c.first && (s[1] >= 128 <==> c.key.Some?)
    ensures First(s) == if c.form == SixtyFour then Refused(s[2..]) else Body(s, |Prefix(c)|, |c.payload|)
  {
    hide Body, ToBe;
    assert s[0] == Prefix(c)[0] && s[1] == Prefix(c)[1];
    if c.form == Sixteen {
      Be16RoundTrip(|c.payload|);
      hide Be16, FromBe16;
      assert s[2] == Prefix(c)[2] == Be16(|c.payload|)[0] && s[3] == Prefix(c)[3] == Be16(|c.payload|)[1];
    }
  }

  lemma FirstOfClient(c: ClientFrame, t: seq<byte>)
    requires WellFormed(c)
    ensures Served(c) ==> First(EncodeClient(c) + t) == Message((c.first % 16) as nat, c.payload, t)
    ensures !Served(c) ==> First(EncodeClient(c) + t).Refused?
  {
    hide Prefix, First, Masked;
    var s := EncodeClient(c) + t;
    LengthOfClient(c, s);
    if Served(c) {
      var off, n, key := |Prefix(c)|, |c.payload|, c.key.value;
      assert s[off..off + 4] == key;
      assert s[off + 4..off + 4 + n] == Masked(c.payload, key);
      assert s[off + 4 + n..] == t;
      MaskedTwice(c.payload, key);
    }
  }

  /** The masked example of RFC 6455 section 5.7 says "Hello". */
  lemma MaskedHello(s: seq<byte>)
    requires s == [0x81, 0x85, 0x37, 0xfa, 0x21, 0x3d, 0x7f, 0x9f, 0x4d, 0x51, 0x58]
    ensures Acts(s) == [Text([0x48, 0x65, 0x6c, 0x6c, 0x6f])]
  {
    var p := Masked(s[6..11], s[2..6]);
    assert s[6..11] == [0x7f, 0x9f, 0x4d, 0x51, 0x58] && s[2..6] == [0x37, 0xfa, 0x21, 0x3d];
    HelloMask(s[6..11], s[2..6]);
    HelloFirst(s);
    ActsOfFirst(s, Text(p), s[11..]);
    hide Masked;
    assert s[11..] == [] && Acts([]) == [];
  }

  lemma HelloFirst(s: seq<byte>)
    requires |s| == 11 && s[0] == 0x81 && s[1] == 0x85
    ensures First(s) == Message(1, Masked(s[6..11], s[2..6]), s[11..])
  {
    hide Masked;
  }

  lemma HelloMask(p: seq<byte>, key: seq<byte>)
    requires p == [0x7f, 0x9f, 0x4d, 0x51, 0x58] && key == [0x37, 0xfa, 0x21, 0x3d]
    ensures Masked(p, key) == [0x48, 0x65, 0x6c, 0x6c, 0x6f]
  {
    HelloStart();
    HelloMiddle();
    HelloEnd();
    hide Xor;
    var m := Masked(p, key);
    assert m[0] == Xor(0x7f, 0x37) && m[1] == Xor(0x9f, 0xfa) && m[2] == Xor(0x4d, 0x21);
    assert m[3] == Xor(0x51, 0x3d) && m[4] == Xor(0x58, 0x37);
  }

  lemma HelloStart()
    ensures Xor(0x7f, 0x37) == 0x48 && Xor(0x9f, 0xfa) == 0x65
  {
    hide XorBits;
    XorNothing();
    XorStep(0, 0, 1); XorStep(1, 0, 2); XorStep(3, 1, 3); XorStep(7, 3, 4);
    XorStep(15, 6, 5); XorStep(31, 13, 6); XorStep(63, 27, 7); XorStep(127, 55, 8);
    XorStep(1, 1, 1); XorStep(2, 3, 2); XorStep(4, 7, 3); XorStep(9, 15, 4);
    XorStep(19, 31, 5); XorStep(39, 62, 6); XorStep(79, 125, 7); XorStep(159, 250, 8);
  }

  lemma HelloMiddle()
    ensures Xor(0x4d, 0x21) == 0x6c && Xor(0x51, 0x3d) == 0x6c
  {
    hide XorBits;
    XorNothing();
    XorStep(0, 0, 1); XorStep(1, 0, 2); XorStep(2, 1, 3); XorStep(4, 2, 4);
    XorStep(9, 4, 5); XorStep(19, 8, 6); XorStep(38, 16, 7); XorStep(77, 33, 8);
    XorStep(0, 0, 1); XorStep(1, 0, 2); XorStep(2, 1, 3); XorStep(5, 3, 4);
    XorStep(10, 7, 5); XorStep(20, 15, 6); XorStep(40, 30, 7); XorStep(81, 61, 8);
  }

  lemma HelloEnd()
    ensures Xor(0x58, 0x37) == 0x6f
  {
    hide XorBits;
    XorNothing();
    XorStep(0, 0, 1); XorStep(1, 0, 2); XorStep(2, 1, 3); XorStep(5, 3, 4);
    XorStep(11, 6, 5); XorStep(22, 13, 6); XorStep(44, 27, 7); XorStep(88, 55, 8);
  }

  lemma XorNothing()
    ensures XorBits(0, 0, 0) == 0
  {
  }

  lemma XorStep(a: nat, b: nat, k: nat)
    requires k > 0
    ensures XorBits(a, b, k) == (if a % 2 == b % 2 then 0 else 1) + 2 * XorBits(a / 2, b / 2, k - 1)
  {
  }

  /** What the acts of the served frames are, by the opcode in the low half of the first octet. */
  lemma ActOfOpcode(c: ClientFrame)
    ensures ActOn(c) ==
      var served := c.key.Some? && |c.payload| <= 256 && c.form != SixtyFour;
      if served && (c.first % 16 == 0x1 || c.first % 16 == 0x0) then Text(c.payload)
      else if served && c.first % 16 == 0x9 then Answer(c.payload)
      else if served && c.first % 16 == 0x8 then EchoClose(c.payload)
      else Refuse
  {
  }

  lemma ActsOfFirst(s: seq<byte>, a: Act, rest: seq<byte>)
    requires
      match First(s)
      case NeedMore => false
      case Refused(_) => a == Refuse
      case Message(op, p, r) => a == ActFor(op, p) && r == rest
    ensures Acts(s) == if Final(a) then [a] else [a] + Acts(rest)
  {
  }

  /** The acts end the session. */
  predicate Ended(acts: seq<Act>)
  {
    |acts| > 0 && Final(acts[|acts| - 1])
  }

  /** The acts m, and those for the stream t if m did not end the session. */
  function Then(m: seq<Act>, t: seq<byte>): seq<Act>
  {
    if Ended(m) then m else m + Acts(t)
  }

  lemma ThenCons(a: Act, m: seq<Act>, t: seq<byte>)
    requires !Final(a)
    ensures [a] + Then(m, t) == Then([a] + m, t)
  {
    assert Ended([a] + m) == Ended(m);
    assert [a] + (m + Acts(t)) == [a] + m + Acts(t);
  }

  lemma ActsOfClient(c: ClientFrame, t: seq<byte>)
    requires WellFormed(c)
    ensures Acts(EncodeClient(c) + t) == if Final(ActOn(c)) then [ActOn(c)] else [ActOn(c)] + Acts(t)
  {
    hide First, EncodeClient, ActFor;
    FirstOfClient(c, t);
    ActsOfFirst(EncodeClient(c) + t, ActOn(c), t);
  }

  /** The reader recovers the client's payloads, unmasked and in order, whatever the keys and
      length forms, up to and including the first frame that ends the session; what follows
      those frames is read on only if none did. */
  lemma {:induction false} ActsAreMeant(cs: seq<ClientFrame>, t: seq<byte>)
    requires forall c :: c in cs ==> WellFormed(c)
    ensures Acts(EncodeClients(cs) + t) == Then(Meant(cs), t)
  {
    if |cs| == 0 {
      assert EncodeClients(cs) + t == t;
      assert Meant(cs) + Acts(t) == Acts(t);
    } else {
      hide EncodeClient, ActOn, Acts, Then, Final;
      var c, more := cs[0], EncodeClients(cs[1..]) + t;
      assert EncodeClients(cs) + t == EncodeClient(c) + more;
      ActsOfClient(c, more);
      if Final(ActOn(c)) {
        FinalEnds(ActOn(c), t);
      } else {
        ActsAreMeant(cs[1..], t);
        ThenCons(ActOn(c), Meant(cs[1..]), t);
      }
    }
  }

  lemma FinalEnds(a: Act, t: seq<byte>)
    requires Final(a)
    ensures Then([a], t) == [a]
  {
  }
}
