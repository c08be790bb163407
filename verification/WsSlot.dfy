/** The single-client slot: ws_active, ws_client and RX streaming, shared by the HTTP thread, the
    WebSocket thread and the CAN receive callback, one access per step. */
module WsSlot {
  import opened Bytes
  import opened CanFrames
  import opened CanRx

  /** handle_client and handle_websocket, for the client with descriptor fd. */
  datatype HttpPc =
    | Accepting
    | Handling(fd: nat)
    | Claimed(fd: nat)
    | Answered(fd: nat)
    | Filled(fd: nat)
    | Emptied(fd: nat)
    | Streaming(fd: nat)
    | Failed(fd: nat)

  /** websocket_thread. */
  datatype ThreadPc = Asleep | Looping | Leaving | Closed | Quiet | Drained

  /** A frame that arrived while its session streamed, and how many had been delivered by then. */
  datatype Arrival = Arrival(frame: CanFrame, delivered: nat)

  /** One session: everything that arrived and everything taken to be sent. */
  datatype Session = Session(fd: nat, arrivals: seq<Arrival>, delivered: seq<CanFrame>)

  datatype State = State(
    active: bool, client: Option<nat>, streaming: bool, queue: seq<CanFrame>,
    http: HttpPc, thread: ThreadPc,
    accepted: nat, closed: seq<nat>, sessions: seq<Session>)

  datatype Event =
    | Accept              // zsock_accept
    | Finish              // any answer but an upgrade, then zsock_close
    | Claim               // atomic_cas(&ws_active, 0, 1)
    | GiveUp              // accept value or 101 response failed: atomic_clear
    | Respond             // 101 response sent
    | Fill                // ws_client written
    | Empty               // k_msgq_purge
    | Enable              // atomic_set(&can_rx_streaming, 1)
    | Spawn               // k_thread_create
    | Deliver             // k_msgq_get in the loop
    | Leave               // the loop returns
    | Close               // zsock_close(client->fd)
    | Disable             // atomic_clear(&can_rx_streaming)
    | Drain               // k_msgq_purge
    | Release             // atomic_clear(&ws_active)
    | Arrive(frame: CanFrame)

  const INITIAL := State(false, None, false, [], Accepting, Asleep, 0, [], [])

  predicate Enabled(s: State, e: Event)
  {
    match e
    case Accept => s.http == Accepting
    case Finish => s.http.Handling? || s.http.Failed?
    case Claim => s.http.Handling?
    case GiveUp => s.http.Claimed?
    case Respond => s.http.Claimed?
    case Fill => s.http.Answered?
    case Empty => s.http.Filled?
    case Enable => s.http.Emptied?
    case Spawn => s.http.Streaming?
    case Deliver => s.thread == Looping && |s.queue| > 0 && |s.sessions| > 0
    case Leave => s.thread == Looping
    case Close => s.thread == Leaving && s.client.Some?
    case Disable => s.thread == Closed
    case Drain => s.thread == Quiet
    case Release => s.thread == Drained
    case Arrive(_) => s.streaming ==> |s.sessions| > 0
  }

  function Apply(s: State, e: Event): State
    requires Enabled(s, e)
  {
    match e
    case Accept => s.(http := Handling(s.accepted), accepted := s.accepted + 1)
    case Finish => s.(http := Accepting, closed := s.closed + [s.http.fd])
    case Claim => if s.active then s.(http := Failed(s.http.fd)) else s.(http := Claimed(s.http.fd), active := true)
    case GiveUp => s.(http := Failed(s.http.fd), active := false)
    case Respond => s.(http := Answered(s.http.fd))
    case Fill => s.(http := Filled(s.http.fd), client := Some(s.http.fd))
    case Empty => s.(http := Emptied(s.http.fd), queue := [])
    case Enable =>
      s.(http := Streaming(s.http.fd), streaming := true, sessions := s.sessions + [Session(s.http.fd, [], [])])
    case Spawn => s.(http := Accepting, thread := Looping)
    case Deliver =>
      var k := |s.sessions| - 1;
      var now := s.sessions[k];
      s.(queue := s.queue[1..], sessions := s.sessions[k := now.(delivered := now.delivered + [s.queue[0]])])
    case Leave => s.(thread := Leaving)
    case Close => s.(thread := Closed, closed := s.closed + [s.client.value])
    case Disable => s.(thread := Quiet, streaming := false)
    case Drain => s.(thread := Drained, queue := [])
    case Release => s.(thread := Asleep, active := false)
    case Arrive(f) =>
      if !s.streaming then s
      else
        var k := |s.sessions| - 1;
        var now := s.sessions[k];
        var seen := Arrival(f, |now.delivered|);
        s.(queue := AfterArrival(true, s.queue, f),
           sessions := s.sessions[k := now.(arrivals := now.arrivals + [seen])])
  }

  /** The frames of a session that found room: those arriving while fewer than eight of the kept
      ones were undelivered. */
  function Kept(arrivals: seq<Arrival>): seq<CanFrame>
  {
    if |arrivals| == 0 then []
    else
      var before := Kept(arrivals[..|arrivals| - 1]);
      var a := arrivals[|arrivals| - 1];
      if |before| - a.delivered < CAN_RX_QUEUE_LEN then before + [a.frame] else before
  }

  /** The HTTP thread owns the slot from its claim until it has started the thread. */
  predicate Claiming(h: HttpPc)
  {
    h.Claimed? || h.Answered? || h.Filled? || h.Emptied? || h.Streaming?
  }

  predicate SlotInv(s: State)
  {
    && (s.active <==> Claiming(s.http) || s.thread != Asleep)
    && !(Claiming(s.http) && s.thread != Asleep)
    && (s.thread != Asleep ==> s.client.Some?)
    && (s.http.Filled? || s.http.Emptied? || s.http.Streaming? ==> s.client == Some(s.http.fd))
  }

  predicate StreamInv(s: State)
  {
    && (s.streaming <==> s.http.Streaming? || s.thread == Looping || s.thread == Leaving || s.thread == Closed)
    && (!s.streaming && s.thread != Quiet ==> s.queue == [])
    && (s.streaming || s.thread == Quiet ==> |s.sessions| > 0)
  }

  predicate CurrentOk(s: State)
  {
    |s.sessions| > 0 && var now := s.sessions[|s.sessions| - 1]; now.delivered + s.queue == Kept(now.arrivals)
  }

  /** Delivered and queued frames of a running session are those kept, in order; what an earlier
      one delivered is a prefix of what it kept. */
  predicate SessionsInv(s: State)
  {
    && (s.streaming || s.thread == Quiet ==> CurrentOk(s))
    && forall i :: 0 <= i < |s.sessions| ==> s.sessions[i].delivered <= Kept(s.sessions[i].arrivals)
  }

  /** The descriptors still open, by the thread that will close them. */
  function HttpOwns(s: State): seq<nat>
  {
    if s.http == Accepting then [] else [s.http.fd]
  }

  function ThreadOwns(s: State): seq<nat>
  {
    if (s.thread == Looping || s.thread == Leaving) && s.client.Some? then [s.client.value] else []
  }

  function Numbers(n: nat): seq<nat>
  {
    if n == 0 then [] else Numbers(n - 1) + [n - 1]
  }

  /** Every accepted descriptor is closed once, or open and owned by one thread. */
  ghost predicate DescriptorInv(s: State)
  {
    multiset(s.closed) + multiset(HttpOwns(s)) + multiset(ThreadOwns(s)) == multiset(Numbers(s.accepted))
  }

  ghost predicate Inv(s: State)
  {
    SlotInv(s) && StreamInv(s) && SessionsInv(s) && DescriptorInv(s)
  }

  lemma KeptSnoc(arrivals: seq<Arrival>, a: Arrival)
    ensures Kept(arrivals + [a]) ==
      if |Kept(arrivals)| - a.delivered < CAN_RX_QUEUE_LEN then Kept(arrivals) + [a.frame] else Kept(arrivals)
  {
    assert (arrivals + [a])[..|arrivals|] == arrivals;
  }

  lemma SlotKept(s: State, e: Event)
    requires SlotInv(s) && Enabled(s, e)
    ensures SlotInv(Apply(s, e))
  {
  }

  lemma StreamKept(s: State, e: Event)
    requires SlotInv(s) && StreamInv(s) && Enabled(s, e)
    ensures StreamInv(Apply(s, e))
  {
  }

  lemma ArrivalKept(s: State, f: CanFrame)
    requires SessionsInv(s) && Enabled(s, Arrive(f))
    ensures SessionsInv(Apply(s, Arrive(f)))
  {
    hide Kept, StreamInv;
    if s.streaming {
      var now := s.sessions[|s.sessions| - 1];
      KeptSnoc(now.arrivals, Arrival(f, |now.delivered|));
      assert now.delivered + s.queue + [f] == now.delivered + (s.queue + [f]);
    }
  }

  lemma DeliveryKept(s: State)
    requires StreamInv(s) && SessionsInv(s) && Enabled(s, Deliver)
    ensures SessionsInv(Apply(s, Deliver))
  {
    hide Kept;
    var now := s.sessions[|s.sessions| - 1];
    assert now.delivered + [s.queue[0]] + s.queue[1..] == now.delivered + s.queue;
  }

  lemma SessionsKept(s: State, e: Event)
    requires SlotInv(s) && StreamInv(s) && SessionsInv(s) && Enabled(s, e)
    ensures SessionsInv(Apply(s, e))
  {
    match e
    case Arrive(f) => ArrivalKept(s, f);
    case Deliver => DeliveryKept(s);
    case _ => OtherSessionsKept(s, e);
  }

  lemma OtherSessionsKept(s: State, e: Event)
    requires SlotInv(s) && StreamInv(s) && SessionsInv(s) && Enabled(s, e) && !e.Arrive? && e != Deliver
    ensures SessionsInv(Apply(s, e))
  {
    KeptNothing();
    hide Kept;
    if e == Enable {
      assert [] + s.queue == [];
    }
  }

  lemma KeptNothing()
    ensures Kept([]) == []
  {
  }

  /** The steps that neither open, hand over nor close a descriptor. */
  predicate SameOwners(s: State, t: State)
  {
    t.closed == s.closed && t.accepted == s.accepted && HttpOwns(t) == HttpOwns(s) && ThreadOwns(t) == ThreadOwns(s)
  }

  lemma OthersSameOwners(s: State, e: Event)
    requires SlotInv(s) && Enabled(s, e) && !(e.Accept? || e.Finish? || e.Spawn? || e.Close?)
    ensures SameOwners(s, Apply(s, e))
  {
    hide StreamInv, SessionsInv, Kept, AfterArrival;
  }

  /** Opening, handing over and closing move one descriptor. */
  lemma OwnersMove(s: State, e: Event)
    requires SlotInv(s) && Enabled(s, e) && (e.Accept? || e.Finish? || e.Spawn? || e.Close?)
    ensures var t := Apply(s, e);
      && (e == Accept ==> HttpOwns(s) == [] && HttpOwns(t) == [s.accepted] && ThreadOwns(t) == ThreadOwns(s) &&
                          t.closed == s.closed && t.accepted == s.accepted + 1)
      && (e == Finish ==> HttpOwns(t) == [] && ThreadOwns(t) == ThreadOwns(s) && t.closed == s.closed + HttpOwns(s) &&
                          t.accepted == s.accepted)
      && (e == Spawn ==> HttpOwns(t) == [] && ThreadOwns(s) == [] && ThreadOwns(t) == HttpOwns(s) &&
                         t.closed == s.closed && t.accepted == s.accepted)
      && (e == Close ==> HttpOwns(t) == HttpOwns(s) && ThreadOwns(t) == [] && t.closed == s.closed + ThreadOwns(s) &&
                         t.accepted == s.accepted)
  {
    hide StreamInv, SessionsInv, Kept, AfterArrival;
  }

  lemma DescriptorKept(s: State, e: Event)
    requires SlotInv(s) && DescriptorInv(s) && Enabled(s, e)
    ensures DescriptorInv(Apply(s, e))
  {
    NumbersNext(s.accepted);
    hide Apply, Enabled, HttpOwns, ThreadOwns, SlotInv, Numbers;
    if e.Accept? || e.Finish? || e.Spawn? || e.Close? {
      OwnersMove(s, e);
    } else {
      OthersSameOwners(s, e);
    }
  }

  lemma NumbersNext(n: nat)
    ensures multiset(Numbers(n + 1)) == multiset(Numbers(n)) + multiset([n])
  {
  }

  /** A run: any list of enabled steps of the three parties. */
  predicate CanRun(s: State, es: seq<Event>)
    decreases |es|, 0
  {
    |es| == 0 || (CanRun(s, es[..|es| - 1]) && Enabled(Run(s, es[..|es| - 1]), es[|es| - 1]))
  }

  function Run(s: State, es: seq<Event>): State
    requires CanRun(s, es)
    decreases |es|, 1
  {
    if |es| == 0 then s else Apply(Run(s, es[..|es| - 1]), es[|es| - 1])
  }

  lemma {:induction false} InvAlways(es: seq<Event>)
    requires CanRun(INITIAL, es)
    ensures Inv(Run(INITIAL, es))
  {
    hide Apply, Enabled;
    if |es| > 0 {
      var s, e := Run(INITIAL, es[..|es| - 1]), es[|es| - 1];
      InvAlways(es[..|es| - 1]);
      SlotKept(s, e);
      StreamKept(s, e);
      SessionsKept(s, e);
      DescriptorKept(s, e);
      hide SlotInv, StreamInv, SessionsInv, DescriptorInv;
    }
  }

  /** The slot has one owner: while a WebSocket thread is awake no other client can claim the slot,
      rewrite ws_client or start a thread; and a free slot has streaming off and the queue empty. */
  lemma OneOwner(es: seq<Event>, e: Event)
    requires CanRun(INITIAL, es) && Enabled(Run(INITIAL, es), e)
    ensures var s := Run(INITIAL, es);
      var t := Apply(s, e);
      && (s.thread != Asleep ==> t.client == s.client && e != Spawn && !Claiming(t.http))
      && (t.client != s.client ==> s.thread == Asleep && Claiming(s.http) && t.client == Some(s.http.fd))
      && (!s.active ==> !s.streaming && s.queue == [])
  {
    InvAlways(es);
    hide Run, CanRun, Apply, Enabled, SlotInv, StreamInv, SessionsInv, DescriptorInv;
    OneOwnerStep(Run(INITIAL, es), e);
  }

  lemma OneOwnerStep(s: State, e: Event)
    requires SlotInv(s) && StreamInv(s) && Enabled(s, e)
    ensures var t := Apply(s, e);
      && (s.thread != Asleep ==> t.client == s.client && e != Spawn && !Claiming(t.http))
      && (t.client != s.client ==> s.thread == Asleep && Claiming(s.http) && t.client == Some(s.http.fd))
      && (!s.active ==> !s.streaming && s.queue == [])
  {
  }

  /** Session isolation: at every moment each session has delivered, in order, only frames that
      arrived while it streamed and found room; a running one has delivered or queued them all. */
  lemma SessionsIsolated(es: seq<Event>)
    requires CanRun(INITIAL, es)
    ensures var s := Run(INITIAL, es);
      && (forall i :: 0 <= i < |s.sessions| ==> s.sessions[i].delivered <= Kept(s.sessions[i].arrivals))
      && (s.streaming ==> CurrentOk(s))
  {
    InvAlways(es);
  }

  lemma {:induction false} NumbersOnce(n: nat, fd: nat)
    ensures multiset(Numbers(n))[fd] == if fd < n then 1 else 0
  {
    if n > 0 {
      NumbersOnce(n - 1, fd);
      assert multiset(Numbers(n)) == multiset(Numbers(n - 1)) + multiset([n - 1]);
    }
  }

  /** Every accepted descriptor is closed at most once, and it is not yet closed exactly while one
      of the two threads owns it; descriptors never accepted are never closed. */
  lemma ClosedOnce(es: seq<Event>, fd: nat)
    requires CanRun(INITIAL, es)
    ensures var s := Run(INITIAL, es);
      && multiset(s.closed)[fd] <= 1
      && (fd < s.accepted ==> (fd !in s.closed <==> fd in HttpOwns(s) || fd in ThreadOwns(s)))
      && (fd >= s.accepted ==> fd !in s.closed)
  {
    InvAlways(es);
    var s := Run(INITIAL, es);
    NumbersOnce(s.accepted, fd);
    hide SlotInv, StreamInv, SessionsInv, Run, CanRun, Numbers;
    assert (multiset(s.closed) + multiset(HttpOwns(s)) + multiset(ThreadOwns(s)))[fd] ==
           multiset(Numbers(s.accepted))[fd];
    assert fd in s.closed <==> multiset(s.closed)[fd] > 0;
    assert fd in HttpOwns(s) <==> multiset(HttpOwns(s))[fd] > 0;
    assert fd in ThreadOwns(s) <==> multiset(ThreadOwns(s))[fd] > 0;
  }
}
