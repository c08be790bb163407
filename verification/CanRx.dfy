/** The receive side of can_bridge.c: callback, streaming switch, and the printer that takes one
    frame from the queue. */
module CanRx {
  import opened Bytes
  import opened CanFrames
  import CanJson

  const EAGAIN := -11
  const CAN_RX_QUEUE_LEN: nat := 8

  /** What the driver hands to the callback: identifier and length fit their fields. */
  predicate Receivable(f: CanFrame)
  {
    f.id < 0x1_0000_0000 && f.dlc <= CAN_MAX_DLC && |f.data| == CAN_MAX_DLC
  }

  /** The queue after one callback: the frame is dropped if nobody streams or eight are waiting. */
  function AfterArrival(streaming: bool, queue: seq<CanFrame>, f: CanFrame): seq<CanFrame>
  {
    if streaming && |queue| < 8 then queue + [f] else queue
  }

  /** The record printed for a received frame: dlc octets of data, for remote frames too. */
  function RecordOf(f: CanFrame, ts: int): CanJson.Record
    requires Receivable(f)
  {
    CanJson.Record(f.id, f.ide, f.rtr, f.dlc, seq(f.dlc, i requires 0 <= i < f.dlc => f.data[i] as nat), ts)
  }

  /** What a reader of the text finds is the frame: identifier, both flags, length, as many octets of
      data as the length says, and the time. */
  predicate SaysFrame(r: Option<CanJson.Record>, f: CanFrame, ts: int)
  {
    && r.Some? && r.value.id == f.id && r.value.ext == f.ide && r.value.rtr == f.rtr && r.value.dlc == f.dlc
    && |r.value.data| == f.dlc <= |f.data| && r.value.ts == ts
    && forall i :: 0 <= i < f.dlc ==> r.value.data[i] == f.data[i] as nat
  }

  lemma RecordIsSmall(f: CanFrame, ts: int)
    requires Receivable(f) && -0x8000_0000_0000_0000 <= ts < 0x8000_0000_0000_0000
    ensures CanJson.Small(RecordOf(f, ts))
  {
  }

  /** Equal texts at equal times come from frames equal in everything but the unused octets. */
  lemma TextsTellFramesApart(f: CanFrame, g: CanFrame, ts: int)
    requires Receivable(f) && Receivable(g)
    requires CanJson.Text(CanJson.Rx, RecordOf(f, ts)) == CanJson.Text(CanJson.Rx, RecordOf(g, ts))
    ensures f.id == g.id && f.ide == g.ide && f.rtr == g.rtr && f.dlc == g.dlc && f.data[..f.dlc] == g.data[..g.dlc]
  {
    hide CanJson.Text, CanJson.Read;
    var a, b := RecordOf(f, ts), RecordOf(g, ts);
    CanJson.ReadText(CanJson.Rx, a);
    CanJson.ReadText(CanJson.Rx, b);
    assert a == b;
    var d, e := a.data, b.data;
    forall i | 0 <= i < f.dlc
      ensures f.data[i] == g.data[i]
    {
      assert d[i] == e[i];
    }
  }

  /** The answer to a remote frame lists no data, its echo on the bus lists dlc octets: the two
      texts carry the same data list exactly for empty remote frames. */
  lemma RemoteEcho(m: Message, f: CanFrame, ts: int)
    requires FollowsRules(m) && m.rtr && ValidFrame(f) && Carries(f, m)
    ensures RecordOf(f, ts).data == m.data <==> f.dlc == 0
  {
    assert |m.data| == 0;
    if f.dlc == 0 {
      assert RecordOf(f, ts).data == [] == m.data;
    }
  }

  class RxBridge {
    var streaming: bool
    var queue: seq<CanFrame>

    constructor ()
      ensures !streaming && queue == []
    {
      streaming, queue := false, [];
    }

    ghost predicate Valid()
      reads this
    {
      |queue| <= CAN_RX_QUEUE_LEN && forall f :: f in queue ==> Receivable(f)
    }

    /** can_rx_callback. */
    method Callback(frame: CanFrame)
      requires Valid() && Receivable(frame)
      modifies this`queue
      ensures Valid() && queue == AfterArrival(streaming, old(queue), frame)
    {
      if !streaming {
        return;
      }
      if |queue| < CAN_RX_QUEUE_LEN {
        queue := queue + [frame];
      }
    }

    /** can_bridge_set_rx_streaming. */
    method SetStreaming(enabled: bool)
      requires Valid()
      modifies this
      ensures Valid() && streaming == enabled && queue == []
    {
      if enabled {
        queue := [];
        streaming := true;
        return;
      }
      streaming := false;
      queue := [];
    }

    /** can_bridge_format_next_rx into the session's response buffer: the oldest frame, if any, is
        taken and always printed whole. */
    method FormatNextRx(response: array<char>, ts: int) returns (ret: int)
      requires Valid() && response.Length == CanJson.WS_RESPONSE_MAX
      requires -0x8000_0000_0000_0000 <= ts < 0x8000_0000_0000_0000
      modifies this`queue, response
      ensures Valid()
      ensures ret == if |old(queue)| == 0 then EAGAIN else 0
      ensures ret == 0 ==> queue == old(queue)[1..]
      ensures ret == 0 ==>
        var text := CanJson.Text(CanJson.Rx, RecordOf(old(queue)[0], ts));
        |text| < response.Length && response[..|text|] == text && response[|text|] == '\0'
      ensures ret == 0 ==> exists n: nat ::
        (n < response.Length && response[n] == '\0' &&
         SaysFrame(CanJson.Read(CanJson.Rx, response[..n]), old(queue)[0], ts))
      ensures ret != 0 ==> queue == old(queue)
    {
      hide CanJson.Text, CanJson.Read;
      if |queue| == 0 {
        return EAGAIN;
      }
      var frame := queue[0];
      queue := queue[1..];
      RecordIsSmall(frame, ts);
      CanJson.TextFits(CanJson.Rx, RecordOf(frame, ts));
      CanJson.ReadText(CanJson.Rx, RecordOf(frame, ts));
      ret := CanJson.Print(CanJson.Rx, RecordOf(frame, ts), response);
    }
  }
}
