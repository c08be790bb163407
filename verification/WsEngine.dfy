/** The WebSocket session loop of the HTTP server. */
module WsEngine {
  import opened Bytes
  import opened Net
  import opened WsFrames
  import opened WsStream
  import opened WsWire

  const EMSGSIZE := -122
  const WS_RESPONSE_MAX: nat := 512

  /** Why a turn of the loop ended. */
  datatype Turned = GoOn | SendFailed | PollFailed | RecvFailed | Closed

  /** What reading one frame came to. */
  datatype Read = Got | Bad | Failed

  /** The CAN bridge as the loop sees it: a NUL-terminated text in a 512-octet buffer. It remembers
      the payloads it was given, its answers to them, the received frames it handed out as texts,
      and how often it had none. */
  class Bridge {
    ghost var seen: seq<seq<byte>>
    ghost var answered: seq<seq<byte>>
    ghost var received: seq<seq<byte>>
    ghost var dry: nat

    constructor ()
      ensures seen == [] && answered == [] && received == [] && dry == 0
    {
      seen, answered, received, dry := [], [], [], 0;
    }

    method HandleWsText(payload: seq<byte>) returns (response: seq<byte>)
      modifies this`seen, this`answered
      ensures |response| < WS_RESPONSE_MAX
      ensures seen == old(seen) + [payload] && answered == old(answered) + [response]
    {
      response :| |response| < WS_RESPONSE_MAX;
      seen, answered := seen + [payload], answered + [response];
    }

    method FormatNextRx() returns (response: Option<seq<byte>>)
      modifies this`received, this`dry
      ensures response.Some? ==> |response.value| < WS_RESPONSE_MAX
      ensures response.Some? ==> received == old(received) + [response.value] && dry == old(dry)
      ensures response.None? ==> received == old(received) && dry == old(dry) + 1
    {
      if * {
        response := None;
        dry := dry + 1;
      } else {
        var text: seq<byte> :| |text| < WS_RESPONSE_MAX;
        response := Some(text);
        received := received + [text];
      }
    }
  }

  /** struct websocket_client, with the history of its session. */
  class WsClient {
    const fd: Socket
    const bridge: Bridge
    const pending: array<byte>
    var pendingLen: nat
    var pendingPos: nat

    /** The client's whole stream, and the server's output and the bridge's memory before the
        session. */
    ghost const stream: seq<byte>
    ghost const base: seq<byte>
    ghost const seen0: seq<seq<byte>>
    ghost const answered0: seq<seq<byte>>
    ghost const received0: seq<seq<byte>>
    /** What was done about the stream, the bridge's text for each act, and every frame sent. */
    ghost var acts: seq<Act>
    ghost var texts: seq<seq<byte>>
    ghost var log: seq<Emission>

    /** The octets not yet read: the rest of the upgrade leftover, then the socket. */
    ghost function Unread(): seq<byte>
      requires pendingPos <= pendingLen <= pending.Length
      reads this, pending, fd
    {
      pending[pendingPos..pendingLen] + fd.incoming
    }

    /** The bridge was given exactly the texts of the acts, in order, and its answers are those
        noted. */
    ghost predicate Told(acts: seq<Act>, texts: seq<seq<byte>>)
      requires |acts| == |texts|
      reads bridge
    {
      bridge.seen == seen0 + Payloads(acts) && bridge.answered == answered0 + BridgeTexts(acts, texts)
    }

    /** What the bridge handed out as received frames is what was forwarded. */
    ghost predicate Forwarded(log: seq<Emission>)
      reads bridge
    {
      bridge.received == received0 + RxTexts(log)
    }

    /** The output is what the log says, and answers exactly the acts; and the log and the acts say
        what went to the bridge and came from it. */
    ghost predicate Valid()
      reads this, pending, fd, bridge
    {
      WireOk() && Told(acts, texts)
    }

    ghost predicate WireOk()
      reads this, pending, fd, bridge
    {
      && pendingPos <= pendingLen <= pending.Length
      && fd.outgoing == base + Wire(log)
      && |acts| == |texts|
      && (forall i :: 0 <= i < |acts| ==> |texts[i]| < WS_RESPONSE_MAX && ActFits(acts[i]))
      && Answers(log) == Due(acts, texts)
      && (!fd.sendFailed ==> AllComplete(log))
      && (forall i :: 0 <= i < |log| ==> log[i].rx ==> log[i].frame.opcode == TEXT)
      && Forwarded(log)
    }

    /** No call so far made the loop stop. */
    ghost predicate Running()
      reads this
    {
      GoesOn(log)
    }

    /** Between two turns: nothing of the stream is lost, repeated or out of order. */
    ghost predicate AtHead()
      reads this, pending, fd, bridge
    {
      Valid() && Running() && Acts(stream) == acts + Acts(Unread())
    }

    constructor (fd: Socket, bridge: Bridge, leftover: seq<byte>)
      requires |leftover| <= 1536
      ensures AtHead() && this.fd == fd && this.bridge == bridge && fresh(pending)
      ensures seen0 == bridge.seen && answered0 == bridge.answered && received0 == bridge.received
      ensures stream == leftover + fd.incoming && base == fd.outgoing
      ensures acts == [] && log == []
    {
      this.fd, this.bridge := fd, bridge;
      seen0, answered0, received0 := bridge.seen, bridge.answered, bridge.received;
      stream := leftover + fd.incoming;
      base := fd.outgoing;
      acts, texts, log := [], [], [];
      pending := new byte[1536];
      pendingLen, pendingPos := |leftover|, 0;
      new;
      forall k | 0 <= k < |leftover| {
        pending[k] := leftover[k];
      }
      assert pending[0..|leftover|] == leftover;
      assert Acts(stream) == [] + Acts(Unread());
      assert Wire([]) == [] && Answers([]) == [] && Due([], []) == [];
      assert RxTexts([]) == [] && Payloads([]) == [] && BridgeTexts([], []) == [];
    }

    /** ws_recv_exact: the next len octets of the stream, however they are cut. */
    method RecvExact(buf: array<byte>, len: nat) returns (ret: int)
      requires pendingPos <= pendingLen <= pending.Length
      requires len <= buf.Length && buf != pending
      modifies this`pendingPos, fd`incoming, fd`recvFailed, buf
      ensures pendingPos <= pendingLen && ret <= 0
      ensures ret == 0 ==> len <= |old(Unread())|
      ensures ret == 0 ==> buf[..len] == old(Unread())[..len] && Unread() == old(Unread())[len..]
      ensures ret < 0 && fd.incoming == [] ==> |old(Unread())| < len
      ensures fd.recvFailed == (old(fd.recvFailed) || ret < 0)
    {
      ghost var s := Unread();
      var received := TakePending(buf, len);
      ghost var head := buf[..received];
      if received < len {
        assert Unread() == fd.incoming == s[received..];
        ret := FillFromSocket(buf, received, len);
        if ret < 0 {
          return;
        }
        DropMore(s, received, len - received);
        assert Unread() == fd.incoming;
      }
      ret := 0;
    }

    /** The second loop of ws_recv_exact. */
    method FillFromSocket(buf: array<byte>, at: nat, len: nat) returns (ret: int)
      requires at < len <= buf.Length
      modifies fd`incoming, fd`recvFailed, buf
      ensures ret <= 0
      ensures ret == 0 ==> len - at <= |old(fd.incoming)| && fd.incoming == old(fd.incoming)[len - at..]
      ensures ret == 0 ==> buf[..len] == old(buf[..at]) + old(fd.incoming)[..len - at]
      ensures ret < 0 && fd.incoming == [] ==> |old(fd.incoming)| < len - at
      ensures fd.recvFailed == (old(fd.recvFailed) || ret < 0)
    {
      ghost var s, head := fd.incoming, buf[..at];
      var received := at;
      while received < len
        invariant at <= received <= len && received - at <= |s| && fd.recvFailed == old(fd.recvFailed)
        invariant buf[..received] == head + s[..received - at] && fd.incoming == s[received - at..]
        decreases len - received
      {
        var n := fd.Recv(buf, received, len - received);
        if n <= 0 {
          return if n == 0 then ECONNRESET else n;
        }
        ReadMore(head, s, received - at, n);
        received := received + n;
      }
      ret := 0;
    }

    /** The first loop of ws_recv_exact: what the upgrade request left over. */
    method TakePending(buf: array<byte>, len: nat) returns (received: nat)
      requires pendingPos <= pendingLen <= pending.Length
      requires len <= buf.Length && buf != pending
      modifies this`pendingPos, buf
      ensures pendingPos <= pendingLen && received <= len && received <= |old(Unread())|
      ensures buf[..received] == old(Unread())[..received] && Unread() == old(Unread())[received..]
      ensures received < len ==> pendingPos == pendingLen
    {
      received := 0;
      while pendingPos < pendingLen && received < len
        invariant received <= len && pendingPos == old(pendingPos) + received <= pendingLen
        invariant buf[..received] == pending[old(pendingPos)..pendingPos]
        decreases len - received
      {
        buf[received] := pending[pendingPos];
        pendingPos := pendingPos + 1;
        received := received + 1;
      }
      TakenIs(pending[old(pendingPos)..pendingLen], fd.incoming, received);
      assert pending[old(pendingPos)..pendingLen][..received] == pending[old(pendingPos)..pendingPos];
      assert pending[old(pendingPos)..pendingLen][received..] == pending[pendingPos..pendingLen];
    }

    static lemma ReadMore(head: seq<byte>, s: seq<byte>, k: nat, n: nat)
      requires k + n <= |s|
      ensures head + s[..k] + s[k..][..n] == head + s[..k + n] && s[k..][n..] == s[k + n..]
    {
    }

    static lemma TakenIs(leftover: seq<byte>, incoming: seq<byte>, n: nat)
      requires n <= |leftover|
      ensures (leftover + incoming)[..n] == leftover[..n]
      ensures (leftover + incoming)[n..] == leftover[n..] + incoming
    {
    }

    /** send_websocket_frame. */
    method SendFrame(opcode: nat, payload: seq<byte>, rx: bool) returns (ret: int)
      requires opcode < 16 && fd.outgoing == base + Wire(log)
      modifies this`log, fd`outgoing, fd`sendFailed
      ensures |payload| > 0xffff ==> ret == EMSGSIZE && log == old(log)
      ensures |payload| <= 0xffff ==>
                |log| == |old(log)| + 1 && log[..|old(log)|] == old(log) &&
                log[|old(log)|].frame == Frame(opcode, payload) && log[|old(log)|].rx == rx &&
                (ret == 0 <==> Complete(log[|old(log)|]))
      ensures ret <= 0 && fd.outgoing == base + Wire(log)
      ensures |payload| <= 0xffff ==> fd.sendFailed == (old(fd.sendFailed) || ret < 0)
    {
      hide Wire, Encode;
      if |payload| > 0xffff {
        return EMSGSIZE;
      }
      var header := [(0x80 + opcode) as byte];
      if |payload| <= 125 {
        header := header + [|payload| as byte];
      } else {
        header := header + [126] + Be16(|payload|);
      }
      ghost var f: Frame := Frame(opcode, payload);
      EncodeIs(f, header);
      ghost var sent;
      ret, sent := SendParts(header, payload);
      ghost var e: Emission := Emission(f, sent, rx);
      WireSnoc(log, e);
      assert base + Wire(log) + Octets(e) == base + (Wire(log) + Octets(e));
      log := log + [e];
    }

    /** The header and then the payload, unless it is empty. */
    method SendParts(header: seq<byte>, payload: seq<byte>) returns (ret: int, ghost sent: nat)
      modifies fd`outgoing, fd`sendFailed
      ensures ret <= 0 && sent <= |header + payload| && (ret == 0 <==> sent == |header + payload|)
      ensures fd.outgoing == old(fd.outgoing) + (header + payload)[..sent]
      ensures fd.sendFailed == (old(fd.sendFailed) || ret < 0)
    {
      ret, sent := fd.SendAll(header);
      assert header[..sent] == (header + payload)[..sent];
      if ret < 0 {
        return;
      }
      if |payload| > 0 {
        ghost var m;
        ret, m := fd.SendAll(payload);
        sent := |header| + m;
        assert header + payload[..m] == (header + payload)[..sent];
      }
    }

    /** The frame part of a turn: header, length, masking key, payload, and unmasking in place. */
    method ReadFrame(payload: array<byte>) returns (read: Read, opcode: nat, n: nat)
      requires pendingPos <= pendingLen <= pending.Length
      requires payload.Length == WS_MAX_PAYLOAD && payload != pending
      modifies this`pendingPos, fd`incoming, fd`recvFailed, payload
      ensures pendingPos <= pendingLen && opcode < 16 && n <= WS_MAX_PAYLOAD
      ensures read == Got ==> First(old(Unread())) == Message(opcode, payload[..n], Unread())
      ensures read == Bad ==> First(old(Unread())) == Refused(Unread())
      ensures read == Failed && fd.incoming == [] ==> First(old(Unread())) == NeedMore
      ensures fd.recvFailed == (old(fd.recvFailed) || read == Failed)
    {
      hide First;
      ghost var s := Unread();
      var masked, len;
      ghost var off;
      n := 0;
      read, opcode, masked, len, off := ReadHeader();
      if read != Got {
        return;
      }
      if !masked || len > WS_MAX_PAYLOAD {
        return Bad, opcode, n;
      }
      n := len;
      read := ReadBody(payload, n);
      if read == Got {
        assert s[off..][4 + n..] == s[off + 4 + n..];
        assert s[off..][..4] == s[off..off + 4] && s[off..][4..4 + n] == s[off + 4..off + 4 + n];
      }
    }

    method ReadHeader() returns (read: Read, opcode: nat, masked: bool, len: nat, ghost off: nat)
      requires pendingPos <= pendingLen <= pending.Length
      modifies this`pendingPos, fd`incoming, fd`recvFailed
      ensures pendingPos <= pendingLen && opcode < 16
      ensures read == Got ==> var s := old(Unread());
        2 <= off <= |s| && First(s) == Body(s, off, len) && Unread() == s[off..] &&
        opcode == (s[0] % 16) as nat && (masked <==> s[1] >= 128)
      ensures read == Bad ==> First(old(Unread())) == Refused(Unread())
      ensures read == Failed && fd.incoming == [] ==> First(old(Unread())) == NeedMore
      ensures fd.recvFailed == (old(fd.recvFailed) || read == Failed)
    {
      hide Body;
      ghost var s := Unread();
      var header := new byte[2];
      opcode, masked, len, off := 0, false, 0, 2;
      var ret := RecvExact(header, 2);
      if ret < 0 {
        return Failed, opcode, masked, len, off;
      }
      assert header[..2] == s[..2] && header[0] == s[0] && header[1] == s[1];
      opcode := (header[0] % 16) as nat;
      masked := header[1] >= 128;
      len := (header[1] % 128) as nat;
      if len == 126 {
        var ext := new byte[2];
        ret := RecvExact(ext, 2);
        if ret < 0 {
          return Failed, opcode, masked, len, off;
        }
        assert ext[..2] == s[2..][..2] && ext[0] == s[2] && ext[1] == s[3];
        assert s[2..][2..] == s[4..];
        len := FromBe16(ext[0], ext[1]);
        off := 4;
      } else if len == 127 {
        return Bad, opcode, masked, len, off;
      }
      read := Got;
    }

    method ReadBody(payload: array<byte>, n: nat) returns (read: Read)
      requires pendingPos <= pendingLen <= pending.Length
      requires n <= payload.Length && payload != pending
      modifies this`pendingPos, fd`incoming, fd`recvFailed, payload
      ensures pendingPos <= pendingLen && read != Bad
      ensures read == Got ==> var s := old(Unread());
        4 + n <= |s| && payload[..n] == Masked(s[4..4 + n], s[..4]) && Unread() == s[4 + n..]
      ensures read == Failed && fd.incoming == [] ==> |old(Unread())| < 4 + n
      ensures fd.recvFailed == (old(fd.recvFailed) || read == Failed)
    {
      hide Masked;
      ghost var s := Unread();
      var mask := new byte[4];
      var ret := RecvExact(mask, 4);
      if ret < 0 {
        return Failed;
      }
      ret := RecvExact(payload, n);
      if ret < 0 {
        return Failed;
      }
      assert payload[..n] == s[4..][..n] == s[4..4 + n];
      assert s[4..][n..] == s[4 + n..];
      Unmask(payload, n, mask[..]);
      assert mask[..] == mask[..4];
      read := Got;
    }

    static method Unmask(payload: array<byte>, n: nat, mask: seq<byte>)
      requires n <= payload.Length && |mask| == 4
      modifies payload
      ensures payload[..n] == Masked(old(payload[..n]), mask)
    {
      ghost var p := payload[..n];
      for i := 0 to n
        invariant forall k :: 0 <= k < i ==> payload[k] == Xor(p[k], mask[k % 4])
        invariant forall k :: i <= k < n ==> payload[k] == p[k]
      {
        payload[i] := Xor(payload[i], mask[i % 4]);
      }
    }

    /** Sends the answer due for an act and records both. */
    method Reply(act: Act, text: seq<byte>, opcode: nat, payload: seq<byte>) returns (ret: int)
      requires WireOk() && Running() && Told(acts + [act], texts + [text])
      requires |text| < WS_RESPONSE_MAX && ActFits(act) && opcode < 16 && |payload| <= 0xffff
      requires DueFor(act, text) == Frame(opcode, payload)
      modifies this`log, this`acts, this`texts, fd`outgoing, fd`sendFailed
      ensures Valid() && LoopShaped(log) && acts == old(acts) + [act]
      ensures ret <= 0 && ((ret == 0 || opcode == PONG) && opcode != CLOSE ==> Running())
      ensures fd.sendFailed == (old(fd.sendFailed) || ret < 0)
    {
      hide Wire, Encode, Answers, Due, RxTexts, Told;
      ghost var log0 := log;
      ret := SendFrame(opcode, payload, false);
      assert log == log0 + [log[|log0|]];
      AnswersSnoc(log0, log[|log0|]);
      DueSnoc(acts, texts, act, text);
      acts, texts := acts + [act], texts + [text];
    }

    /** The forwarding part of a turn: received CAN frames, at most budget of them. */
    method ForwardRx(budget: nat) returns (ok: bool)
      requires AtHead()
      modifies this`log, fd`outgoing, fd`sendFailed, bridge`received, bridge`dry
      ensures |bridge.received| >= |old(bridge.received)| && bridge.dry >= old(bridge.dry)
      ensures ok ==> bridge.dry == old(bridge.dry) + 1 || |bridge.received| == |old(bridge.received)| + budget
      ensures Valid() && LoopShaped(log) && Unread() == old(Unread())
      ensures ok ==> AtHead()
      ensures !ok ==> fd.sendFailed
    {
      hide Wire, Encode, Answers, Acts, RxTexts, Payloads, BridgeTexts;
      for i := 0 to budget
        invariant AtHead() && Unread() == old(Unread())
        invariant bridge.dry == old(bridge.dry) && |bridge.received| == |old(bridge.received)| + i
      {
        var response := bridge.FormatNextRx();
        if response.None? {
          return true;
        }
        ghost var log0 := log;
        var ret := SendFrame(TEXT, response.value, true);
        assert log == log0 + [log[|log0|]];
        AnswersSnoc(log0, log[|log0|]);
        if ret < 0 {
          return false;
        }
      }
      ok := true;
    }

    /** The reading half of one turn of websocket_echo_loop, from the poll on. */
    method Turn(payload: array<byte>) returns (t: Turned)
      requires AtHead() && payload.Length == WS_MAX_PAYLOAD && payload != pending
      modifies this`pendingPos, this`log, this`acts, this`texts, fd`incoming, fd`recvFailed, fd`outgoing,
               fd`sendFailed, fd`pollFailed, fd`idlePolls, bridge`seen, bridge`answered, payload
      ensures Valid() && LoopShaped(log)
      ensures t == GoOn ==> |acts| + fd.idlePolls == |old(acts)| + old(fd.idlePolls) + 1
      ensures (t == PollFailed ==> fd.pollFailed) && (t == Closed ==> Ended(acts))
      ensures t == GoOn ==> AtHead()
      ensures t == Closed ==> acts == Acts(stream)
      ensures acts <= Acts(stream)
      ensures t == RecvFailed && fd.incoming == [] ==> acts == Acts(stream)
      ensures (t == RecvFailed ==> fd.recvFailed) && (t == SendFailed ==> fd.sendFailed)
    {
      hide Wire, Encode, Answers, Due, Acts, First, LoopShaped, RxTexts, Told;
      ShapedAtHead();
      if pendingPos >= pendingLen {
        var ready := fd.Poll();
        if ready < 0 {
          return PollFailed;
        }
        if ready == 0 {
          return GoOn;
        }
      }
      t := ServeFrame(payload);
    }

    /** One frame read, and acted on unless receiving fails. */
    method ServeFrame(payload: array<byte>) returns (t: Turned)
      requires AtHead() && LoopShaped(log) && payload.Length == WS_MAX_PAYLOAD && payload != pending
      modifies this`pendingPos, this`log, this`acts, this`texts, fd`incoming, fd`recvFailed, fd`outgoing,
               fd`sendFailed, bridge`seen, bridge`answered, payload
      ensures Valid() && LoopShaped(log) && acts <= Acts(stream)
      ensures if t == RecvFailed then acts == old(acts) else |acts| == |old(acts)| + 1
      ensures t == GoOn ==> AtHead()
      ensures t == Closed ==> acts == Acts(stream) && Ended(acts)
      ensures t == RecvFailed && fd.incoming == [] ==> acts == Acts(stream)
      ensures (t == RecvFailed ==> fd.recvFailed) && (t == SendFailed ==> fd.sendFailed) && t != PollFailed
    {
      hide Wire, Encode, Answers, Due, Acts, First, LoopShaped, RxTexts, Told;
      ghost var s := Unread();
      var read, opcode, n := ReadFrame(payload);
      if read == Failed {
        NoMoreActs(s);
        return RecvFailed;
      }
      if read == Bad {
        TellsNothing(Refuse);
        var _ := Reply(Refuse, [], CLOSE, []);
        ActsOfFirst(s, Refuse, Unread());
        return Closed;
      }
      ActsOfFirst(s, ActFor(opcode, payload[..n]), Unread());
      t := Dispatch(opcode, payload[..n]);
    }

    /** What a turn does with a frame it has read. */
    method Dispatch(opcode: nat, p: seq<byte>) returns (t: Turned)
      requires Valid() && Running() && |p| <= WS_MAX_PAYLOAD
      requires var act := ActFor(opcode, p);
        Acts(stream) == acts + (if Final(act) then [act] else [act] + Acts(Unread()))
      modifies this`log, this`acts, this`texts, fd`outgoing, fd`sendFailed, bridge`seen, bridge`answered
      ensures acts == old(acts) + [ActFor(opcode, p)]
      ensures t == Closed ==> Ended(acts)
      ensures Valid() && LoopShaped(log)
      ensures t == GoOn ==> AtHead()
      ensures t == Closed ==> acts == Acts(stream)
      ensures t == GoOn || t == Closed || (t == SendFailed && fd.sendFailed)
      ensures acts <= Acts(stream)
    {
      hide Wire, Encode, Answers, Due, Acts, LoopShaped, RxTexts, Payloads, BridgeTexts;
      ghost var act := ActFor(opcode, p);
      ghost var rest := Acts(Unread());
      assert acts + ([act] + rest) == acts + [act] + rest;
      if opcode == CLOSE {
        TellsNothing(EchoClose(p));
        var _ := Reply(EchoClose(p), [], CLOSE, p);
        return Closed;
      }
      if opcode == PING {
        TellsNothing(Answer(p));
        var _ := Reply(Answer(p), [], PONG, p);
        return GoOn;
      }
      if opcode != TEXT && opcode != CONTINUATION {
        TellsNothing(Refuse);
        var _ := Reply(Refuse, [], CLOSE, []);
        return Closed;
      }
      var response := bridge.HandleWsText(p);
      PayloadsSnoc(acts, texts, Text(p), response);
      var ret := Reply(Text(p), response, TEXT, response);
      t := if ret < 0 then SendFailed else GoOn;
    }

    lemma ShapedAtHead()
      requires Running()
      ensures LoopShaped(log)
    {
    }

    lemma NoMoreActs(s: seq<byte>)
      ensures First(s) == NeedMore ==> Acts(s) == []
    {
    }

    /** Acts that are no texts leave the bridge alone. */
    lemma TellsNothing(act: Act)
      requires |acts| == |texts| && Told(acts, texts) && !act.Text?
      ensures Told(acts + [act], texts + [[]])
    {
      PayloadsSnoc(acts, texts, act, []);
    }

    /** websocket_echo_loop, stopped after any number of turns. */
    method EchoLoop(turns: nat) returns (t: Turned)
      requires AtHead()
      modifies this, fd`incoming, fd`recvFailed, fd`outgoing, fd`sendFailed, fd`pollFailed, fd`idlePolls, bridge
      ensures t == GoOn ==> |acts| + fd.idlePolls == |old(acts)| + old(fd.idlePolls) + turns
      ensures (t == PollFailed ==> fd.pollFailed) && (t == Closed ==> Ended(acts))
      ensures t == GoOn ==>
        bridge.dry >= old(bridge.dry) + turns || |bridge.received| >= |old(bridge.received)| + turns
      ensures Valid() && LoopShaped(log)
      ensures acts <= Acts(stream)
      ensures t == GoOn ==> AtHead()
      ensures t == Closed ==> acts == Acts(stream)
      ensures t == RecvFailed && fd.incoming == [] ==> acts == Acts(stream)
      ensures (t == RecvFailed ==> fd.recvFailed) && (t == SendFailed ==> fd.sendFailed)
    {
      hide Wire, Encode, Answers, Due, Acts, First, LoopShaped, RxTexts, Told;
      var payload := new byte[WS_MAX_PAYLOAD];
      ShapedAtHead();
      t := GoOn;
      for i := 0 to turns
        invariant AtHead() && LoopShaped(log) && t == GoOn
        invariant |acts| + fd.idlePolls == |old(acts)| + old(fd.idlePolls) + i
        invariant |bridge.received| >= |old(bridge.received)|
        invariant bridge.dry >= old(bridge.dry) + i || |bridge.received| >= |old(bridge.received)| + turns
      {
        var ok := ForwardRx(turns);
        if !ok {
          return SendFailed;
        }
        t := Turn(payload);
        if t != GoOn {
          return;
        }
        ShapedAtHead();
      }
    }
  }

  lemma AnswersSnoc(log: seq<Emission>, e: Emission)
    ensures Answers(log + [e]) == if e.rx then Answers(log) else Answers(log) + [e.frame]
    ensures RxTexts(log + [e]) == if e.rx then RxTexts(log) + [e.frame.payload] else RxTexts(log)
  {
    assert (log + [e])[..|log|] == log;
  }

  lemma PayloadsSnoc(acts: seq<Act>, texts: seq<seq<byte>>, a: Act, t: seq<byte>)
    requires |acts| == |texts|
    ensures Payloads(acts + [a]) == if a.Text? then Payloads(acts) + [a.payload] else Payloads(acts)
    ensures BridgeTexts(acts + [a], texts + [t]) ==
            if a.Text? then BridgeTexts(acts, texts) + [t] else BridgeTexts(acts, texts)
  {
    assert (acts + [a])[..|acts|] == acts && (texts + [t])[..|texts|] == texts;
  }

  lemma DueSnoc(acts: seq<Act>, texts: seq<seq<byte>>, a: Act, t: seq<byte>)
    requires |acts| == |texts| && |t| < 512 && ActFits(a)
    requires forall i :: 0 <= i < |acts| ==> |texts[i]| < 512 && ActFits(acts[i])
    ensures Due(acts + [a], texts + [t]) == Due(acts, texts) + [DueFor(a, t)]
  {
    assert (acts + [a])[..|acts|] == acts && (texts + [t])[..|texts|] == texts;
  }

  lemma EncodeIs(f: Frame, header: seq<byte>)
    requires header == [(0x80 + f.opcode) as byte] +
                       if |f.payload| <= 125 then [|f.payload| as byte] else [126] + Be16(|f.payload|)
    ensures Encode(f) == header + f.payload
  {
  }
}
