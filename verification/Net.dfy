/** A connected stream socket, and the two transfer loops the HTTP server builds on it. */
module Net {
  import opened Bytes

  const ECONNRESET := -104
  const HTTP_SEND_CHUNK: nat := 256

  /** What is to be seen of a socket at one moment. */
  datatype Snapshot = Snapshot(
    incoming: seq<byte>, outgoing: seq<byte>, closes: nat, recvFailed: bool, sendFailed: bool)

  /** The network stack may deliver, accept or refuse any number of octets at every call;
      the only promise is that octets stay in order. */
  class Socket {
    /** What the peer has sent or will still send, not yet received. */
    var incoming: seq<byte>
    /** What the stack has accepted from the server. */
    var outgoing: seq<byte>
    /** How often zsock_close was called. */
    var closes: nat
    /** Whether a zsock_recv, or a zsock_send, has ever transferred nothing. */
    ghost var recvFailed: bool
    ghost var sendFailed: bool
    /** Whether a zsock_poll has ever failed, and how many found nothing to read in time. */
    ghost var pollFailed: bool
    ghost var idlePolls: nat

    ghost function Now(): Snapshot
      reads this
    {
      Snapshot(incoming, outgoing, closes, recvFailed, sendFailed)
    }

    constructor (fromPeer: seq<byte>)
      ensures incoming == fromPeer && outgoing == [] && closes == 0 && !recvFailed && !sendFailed
    {
      incoming, outgoing, closes := fromPeer, [], 0;
      recvFailed, sendFailed, pollFailed, idlePolls := false, false, false, 0;
    }

    /** zsock_recv: 1..max octets, or 0 for an orderly end, or a negative error. */
    method Recv(buf: array<byte>, at: nat, max: nat) returns (ret: int)
      requires 0 < max && at + max <= buf.Length
      modifies this`incoming, this`recvFailed, buf
      ensures ret <= max && recvFailed == (old(recvFailed) || ret <= 0)
      ensures ret > 0 ==> ret <= |old(incoming)| && incoming == old(incoming)[ret..]
      ensures ret > 0 ==> buf[at..at + ret] == old(incoming)[..ret]
      ensures ret > 0 ==> buf[..at + ret] == old(buf[..at]) + old(incoming)[..ret]
      ensures ret <= 0 ==> incoming == old(incoming)
      ensures buf[..at] == old(buf[..at])
    {
      if * {
        ret :| ret <= 0;
      } else if |incoming| == 0 {
        ret := 0;
      } else {
        ret :| 1 <= ret <= max && ret <= |incoming|;
        forall k | 0 <= k < ret {
          buf[at + k] := incoming[k];
        }
        incoming := incoming[ret..];
      }
      recvFailed := recvFailed || ret <= 0;
    }

    /** zsock_send: 1..max octets accepted, or none. */
    method Send(data: seq<byte>, from: nat, max: nat) returns (ret: int)
      requires 0 < max && from + max <= |data|
      modifies this`outgoing, this`sendFailed
      ensures ret <= max && sendFailed == (old(sendFailed) || ret <= 0)
      ensures ret > 0 ==> outgoing == old(outgoing) + data[from..from + ret]
      ensures ret <= 0 ==> outgoing == old(outgoing)
    {
      ret :| ret <= max;
      if ret > 0 {
        outgoing := outgoing + data[from..from + ret];
      } else {
        sendFailed := true;
      }
    }

    /** zsock_poll with a timeout: something to read, nothing in time, or an error. */
    method Poll() returns (ready: int)
      modifies this`pollFailed, this`idlePolls
      ensures -1 <= ready <= 1 && pollFailed == (old(pollFailed) || ready < 0)
      ensures idlePolls == old(idlePolls) + if ready == 0 then 1 else 0
    {
      ready :| -1 <= ready <= 1;
      pollFailed := pollFailed || ready < 0;
      if ready == 0 {
        idlePolls := idlePolls + 1;
      }
    }

    method Close()
      modifies this`closes
      ensures closes == old(closes) + 1
    {
      closes := closes + 1;
    }

    /** send_all. It fails only if a send does, and then a proper prefix of the data has been
        accepted. */
    method SendAll(data: seq<byte>) returns (ret: int, ghost sent: nat)
      modifies this`outgoing, this`sendFailed
      ensures sendFailed == (old(sendFailed) || ret < 0)
      ensures sent <= |data| && outgoing == old(outgoing) + data[..sent]
      ensures ret <= 0 && (ret == 0 <==> sent == |data|)
    {
      var done := 0;
      sent := 0;
      while done < |data|
        invariant sent == done <= |data|
        invariant outgoing == old(outgoing) + data[..done] && sendFailed == old(sendFailed)
        decreases |data| - done
      {
        var chunk := Min(|data| - done, HTTP_SEND_CHUNK);
        var n := Send(data, done, chunk);
        if n < 0 {
          return n, sent;
        }
        if n == 0 {
          return ECONNRESET, sent;
        }
        assert data[..done] + data[done..done + n] == data[..done + n];
        done := done + n;
        sent := done;
      }
      ret := 0;
    }
  }
}
