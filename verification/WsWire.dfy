/** What the server puts on the wire of one WebSocket session, send failures included. */
module WsWire {
  import opened Bytes
  import opened WsFrames
  import opened WsStream

  /** One call of send_websocket_frame: the frame, how many of its octets the stack accepted,
      and whether it forwards a received CAN frame rather than answering the client. */
  datatype AnyEmission = Emission(frame: Frame, sent: nat, rx: bool)

  type Emission = e: AnyEmission | e.sent <= |Encode(e.frame)| witness Emission(Frame(0, []), 0, false)

  predicate Complete(e: Emission)
  {
    e.sent == |Encode(e.frame)|
  }

  function Octets(e: Emission): seq<byte>
  {
    Encode(e.frame)[..e.sent]
  }

  /** The octets on the wire after a list of calls. */
  function Wire(log: seq<Emission>): seq<byte>
  {
    if |log| == 0 then [] else Wire(log[..|log| - 1]) + Octets(log[|log| - 1])
  }

  function Frames(log: seq<Emission>): (fs: seq<Frame>)
    ensures |fs| == |log|
  {
    seq(|log|, i requires 0 <= i < |log| => log[i].frame)
  }

  /** The calls that answer the client, in order. */
  function Answers(log: seq<Emission>): seq<Frame>
  {
    if |log| == 0 then []
    else Answers(log[..|log| - 1]) + if log[|log| - 1].rx then [] else [log[|log| - 1].frame]
  }

  /** The received CAN frames forwarded, as texts. */
  function RxTexts(log: seq<Emission>): seq<seq<byte>>
  {
    if |log| == 0 then []
    else RxTexts(log[..|log| - 1]) + if log[|log| - 1].rx then [log[|log| - 1].frame.payload] else []
  }

  /** The texts a list of acts hands to the bridge. */
  function Payloads(acts: seq<Act>): seq<seq<byte>>
  {
    if |acts| == 0 then []
    else Payloads(acts[..|acts| - 1]) + if acts[|acts| - 1].Text? then [acts[|acts| - 1].payload] else []
  }

  /** Of the texts noted for a list of acts, those that are the bridge's answers. */
  function BridgeTexts(acts: seq<Act>, texts: seq<seq<byte>>): seq<seq<byte>>
    requires |acts| == |texts|
  {
    if |acts| == 0 then []
    else BridgeTexts(acts[..|acts| - 1], texts[..|acts| - 1]) +
         if acts[|acts| - 1].Text? then [texts[|acts| - 1]] else []
  }

  /** The answers due for a list of acts, given the bridge's response text for each. */
  function Due(acts: seq<Act>, texts: seq<seq<byte>>): seq<Frame>
    requires |acts| == |texts|
    requires forall i :: 0 <= i < |acts| ==> |texts[i]| < 512 && ActFits(acts[i])
  {
    if |acts| == 0 then []
    else Due(acts[..|acts| - 1], texts[..|acts| - 1]) + [DueFor(acts[|acts| - 1], texts[|acts| - 1])]
  }

  predicate ActFits(a: Act)
  {
    match a
    case Refuse => true
    case _ => |a.payload| <= WS_MAX_PAYLOAD
  }

  function DueFor(a: Act, text: seq<byte>): Frame
    requires |text| < 512 && ActFits(a)
  {
    match a
    case Text(_) => Frame(TEXT, text)
    case Answer(p) => Frame(PONG, p)
    case EchoClose(p) => Frame(CLOSE, p)
    case Refuse => Frame(CLOSE, [])
  }

  /** One answer per act: a text with the bridge's answer, a pong with the payload of the ping, a
      close with the payload of the close, and otherwise an empty close. */
  lemma {:induction false} DueSays(acts: seq<Act>, texts: seq<seq<byte>>, i: nat)
    requires |acts| == |texts| && i < |acts|
    requires forall j :: 0 <= j < |acts| ==> |texts[j]| < 512 && ActFits(acts[j])
    ensures |Due(acts, texts)| == |acts|
    ensures Due(acts, texts)[i] == match acts[i]
      case Text(_) => Frame(0x1, texts[i])
      case Answer(p) => Frame(0xa, p)
      case EchoClose(p) => Frame(0x8, p)
      case Refuse => Frame(0x8, [])
  {
    var k := |acts| - 1;
    DueLength(acts[..k], texts[..k]);
    if i < k {
      DueSays(acts[..k], texts[..k], i);
    }
  }

  lemma {:induction false} DueLength(acts: seq<Act>, texts: seq<seq<byte>>)
    requires |acts| == |texts|
    requires forall j :: 0 <= j < |acts| ==> |texts[j]| < 512 && ActFits(acts[j])
    ensures |Due(acts, texts)| == |acts|
  {
    if |acts| > 0 {
      DueLength(acts[..|acts| - 1], texts[..|acts| - 1]);
    }
  }

  /** The loop goes on after this call: only the failure of a pong is ignored, and a close frame
      ends the session. */
  predicate Continues(e: Emission)
  {
    (Complete(e) || e.frame.opcode == PONG) && e.frame.opcode != CLOSE
  }

  /** The shape of every log the loop leaves. */
  predicate LoopShaped(log: seq<Emission>)
  {
    forall i :: 0 <= i < |log| - 1 ==> Continues(log[i])
  }

  predicate AllComplete(log: seq<Emission>)
  {
    forall i :: 0 <= i < |log| ==> Complete(log[i])
  }

  /** No octet follows a frame that was cut short. */
  predicate NothingAfterCut(log: seq<Emission>)
  {
    forall i, j :: 0 <= i < j < |log| && !Complete(log[i]) ==> log[j].sent == 0
  }

  lemma {:induction false} WholeWire(log: seq<Emission>)
    requires AllComplete(log)
    ensures Wire(log) == EncodeAll(Frames(log))
  {
    if |log| > 0 {
      var k := |log| - 1;
      WholeWire(log[..k]);
      assert Frames(log)[..k] == Frames(log[..k]);
      assert Octets(log[k]) == Encode(log[k].frame);
    }
  }

  /** Without a send failure the output decodes, in one way only, to the frames emitted. */
  lemma OutputDecodes(log: seq<Emission>)
    requires AllComplete(log)
    ensures DecodeAll(Wire(log)) == Some(Frames(log))
  {
    WholeWire(log);
    DecodeEncode(Frames(log));
  }

  lemma EncodeAllSnoc(fs: seq<Frame>, f: Frame)
    ensures EncodeAll(fs + [f]) == EncodeAll(fs) + Encode(f)
  {
    assert (fs + [f])[..|fs|] == fs;
  }

  lemma WireSnoc(log: seq<Emission>, e: Emission)
    ensures Wire(log + [e]) == Wire(log) + Octets(e)
    ensures Frames(log + [e]) == Frames(log) + [e.frame]
  {
    assert (log + [e])[..|log|] == log;
  }

  /** After a send failure the output is a prefix of the encoding of the frames, provided the
      stack accepts nothing more. */
  lemma {:induction false} OutputIsPrefix(log: seq<Emission>)
    requires NothingAfterCut(log)
    ensures Wire(log) <= EncodeAll(Frames(log))
  {
    if |log| > 0 {
      hide Encode;
      var k := |log| - 1;
      var fs, e := log[..k], log[k];
      assert log == fs + [e];
      WireSnoc(fs, e);
      EncodeAllSnoc(Frames(fs), e.frame);
      if AllComplete(fs) {
        WholeWire(fs);
      } else {
        OutputIsPrefix(fs);
        assert Octets(e) == [];
      }
    }
  }

  /** No pong was cut short. */
  predicate PongsComplete(log: seq<Emission>)
  {
    forall i :: 0 <= i < |log| && log[i].frame.opcode == PONG ==> Complete(log[i])
  }

  /** The loop stops at every other failure, so then nothing follows a cut frame. */
  lemma LoopOutputIsPrefix(log: seq<Emission>)
    requires LoopShaped(log) && PongsComplete(log)
    ensures Wire(log) <= EncodeAll(Frames(log))
  {
    hide Wire, EncodeAll, Frames, Encode;
    assert forall i :: 0 <= i < |log| - 1 ==> Continues(log[i]) ==> Complete(log[i]);
    OutputIsPrefix(log);
  }

  /** The loop has not stopped. */
  predicate GoesOn(log: seq<Emission>)
  {
    forall i :: 0 <= i < |log| ==> Continues(log[i])
  }

  /** Whatever the loop emits next, the output is still a prefix of the frames' encoding. */
  ghost predicate StaysPrefix(log: seq<Emission>)
  {
    forall e: Emission :: Wire(log + [e]) <= EncodeAll(Frames(log + [e]))
  }

  /** At every moment of a session that goes on, the frame boundaries are safe exactly if no pong
      has been cut short: the result of sending one is ignored, and the loop goes on writing. */
  lemma BoundariesLostByCutPong(log: seq<Emission>)
    requires GoesOn(log)
    ensures StaysPrefix(log) <==> PongsComplete(log)
  {
    if PongsComplete(log) {
      forall e: Emission
        ensures Wire(log + [e]) <= EncodeAll(Frames(log + [e]))
      {
        assert forall i :: 0 <= i < |log| ==> (log + [e])[i] == log[i];
        OutputIsPrefix(log + [e]);
      }
    } else {
      CutBreaks(log);
    }
  }

  lemma {:induction false} WireLength(log: seq<Emission>)
    ensures |Wire(log)| <= |EncodeAll(Frames(log))|
    ensures !AllComplete(log) ==> |Wire(log)| < |EncodeAll(Frames(log))|
  {
    if |log| > 0 {
      var k := |log| - 1;
      WireLength(log[..k]);
      hide Wire, EncodeAll, Encode;
      assert log == log[..k] + [log[k]];
      WireSnoc(log[..k], log[k]);
      EncodeAllSnoc(Frames(log[..k]), log[k].frame);
    }
  }

  /** After a frame cut short there is a next frame with which the output is no prefix: the next
      octet due is x, and a text or a close frame starts with another one. */
  lemma CutBreaks(log: seq<Emission>)
    requires !AllComplete(log)
    ensures !StaysPrefix(log)
  {
    WireLength(log);
    var at := |Wire(log)|;
    var x := EncodeAll(Frames(log))[at];
    var f: Frame := Frame(if x == 0x81 then CLOSE else TEXT, []);
    var e: Emission := Emission(f, |Encode(f)|, false);
    FirstOctet(f);
    hide Wire, EncodeAll, Encode;
    WireSnoc(log, e);
    EncodeAllSnoc(Frames(log), f);
    assert Wire(log + [e])[at] == Encode(f)[0] != x;
    assert EncodeAll(Frames(log + [e]))[at] == x;
  }

  lemma FirstOctet(f: Frame)
    ensures Encode(f)[0] == (0x80 + f.opcode) as byte
  {
  }
}
