/** The callbacks and work handlers of main.c, each a step of UsbMachine. */
module UsbNcm {
  import opened Bytes
  import opened UsbMachine

  /** The kinds of usbd_msg that usbd_msg_cb tells apart. */
  datatype UsbdMsg =
    | MsgConfiguration | MsgStackError | MsgUdcError | MsgReset | MsgSuspend | MsgVbusRemoved
    | MsgResume | MsgVbusReady | MsgOther

  function Meaning(msg: UsbdMsg): UsbMachine.Message
  {
    match msg
    case MsgConfiguration => Configuration
    case MsgResume => Back
    case MsgVbusReady => Back
    case MsgOther => Ignored
    case _ => Lost
  }

  /** One unicast entry of the interface. */
  datatype IfAddr = IfAddr(used: bool, autoconf: bool)

  class Board {
    const hasInterface: bool
    var shouldRun: bool
    var isUp: bool
    var isReady: bool
    var httpStarted: bool
    var led: Led
    var network: Option<nat>
    var watchdog: Option<nat>
    var httpWork: bool
    var now: nat
    ghost var armed: nat
    ghost var addressed: bool
    var rebooted: bool
    /** Everything that has happened. */
    ghost var run: seq<Event>

    ghost function Abs(): State
      reads this
    {
      State(hasInterface, shouldRun, isUp, isReady, httpStarted, led, network, watchdog, httpWork, now, armed,
            addressed, rebooted)
    }

    /** The state is the end of a run of the machine. */
    ghost predicate Valid()
      reads this
    {
      CanRun(Initial(hasInterface), run) && Abs() == Run(Initial(hasInterface), run)
    }

    constructor (hasInterface: bool)
      ensures Valid() && this.hasInterface == hasInterface && run == []
    {
      this.hasInterface := hasInterface;
      shouldRun, isUp, isReady, httpStarted, led := false, false, false, false, Blinking;
      network, watchdog, httpWork, now := None, None, false, 0;
      armed, addressed, rebooted, run := 0, false, false, [];
    }

    /** Records the step just made. */
    ghost method Log(e: Event, before: State)
      requires CanRun(Initial(hasInterface), run) && Run(Initial(hasInterface), run) == before
      requires Enabled(before, e) && Abs() == Apply(before, e)
      modifies this`run
      ensures Valid() && run == old(run) + [e]
    {
      RunSnoc(Initial(hasInterface), run, e);
      run := run + [e];
    }

    /** What the board owes its user, at every moment: if it should run, is not flagged ready and has
        not rebooted, the reboot is due within six seconds of the last arming message; a solid LED
        means an address; and with an interface, nothing pending means that it is as asked. */
    lemma Promises()
      requires Valid()
      ensures shouldRun && !isReady && !rebooted ==>
        watchdog == Some(armed + WATCHDOG_DELAY) && now <= armed + WATCHDOG_DELAY
      ensures led == Solid ==> isReady && (httpWork || httpStarted)
      ensures hasInterface && network == None ==> shouldRun == isUp
    {
      hide Run, CanRun;
      InvAlways(hasInterface, run);
    }

    /** Time passes, but not past the due time of a pending work. */
    method Wait(ms: nat)
      requires Valid() && Enabled(Abs(), Tick(ms))
      modifies this`now, this`run
      ensures Valid() && run == old(run) + [Tick(ms)]
    {
      hide Run, CanRun;
      ghost var s := Abs();
      now := now + ms;
      Log(Tick(ms), s);
    }

    /** set_usb_ncm_network_state. */
    method SetNetworkState(up: bool)
      modifies this`shouldRun, this`network, this`watchdog
      ensures Abs() == SetNetwork(old(Abs()), up)
    {
      shouldRun := up;
      if up {
        if network.None? {
          network := Some(now + NETWORK_DELAY);
        }
      } else {
        network := None;
        watchdog := None;
        if network.None? {
          network := Some(now);
        }
      }
    }

    /** usbd_msg_cb. */
    method OnMessage(msg: UsbdMsg)
      requires Valid() && !rebooted
      modifies this
      ensures Valid() && run == old(run) + [Usb(Meaning(msg))]
      ensures msg.MsgConfiguration? || msg.MsgResume? || msg.MsgVbusReady? ==>
        shouldRun && isReady == old(isReady) && watchdog == Some(now + 6000) &&
        network == (if old(network).Some? then old(network) else Some(now + 1000)) &&
        led == (if msg.MsgConfiguration? then old(led) else Blinking)
      ensures msg.MsgStackError? || msg.MsgUdcError? || msg.MsgReset? || msg.MsgSuspend? || msg.MsgVbusRemoved? ==>
        !shouldRun && !isReady && led == Blinking && watchdog == None && network == Some(now)
      ensures msg.MsgOther? ==> Abs() == old(Abs())
    {
      hide Run, CanRun, OnUsb;
      ghost var s := Abs();
      React(msg);
      Log(Usb(Meaning(msg)), s);
    }

    /** The body of usbd_msg_cb. */
    method React(msg: UsbdMsg)
      modifies this`shouldRun, this`isReady, this`led, this`network, this`watchdog, this`armed
      ensures Abs() == OnUsb(old(Abs()), Meaning(msg))
      ensures msg.MsgConfiguration? || msg.MsgResume? || msg.MsgVbusReady? ==>
        shouldRun && isReady == old(isReady) && watchdog == Some(now + 6000) &&
        network == (if old(network).Some? then old(network) else Some(now + 1000)) &&
        led == (if msg.MsgConfiguration? then old(led) else Blinking)
      ensures msg.MsgStackError? || msg.MsgUdcError? || msg.MsgReset? || msg.MsgSuspend? || msg.MsgVbusRemoved? ==>
        !shouldRun && !isReady && led == Blinking && watchdog == None && network == Some(now)
      ensures msg.MsgOther? ==> Abs() == old(Abs())
    {
      match msg {
        case MsgConfiguration =>
          SetNetworkState(true);
          watchdog, armed := Some(now + WATCHDOG_DELAY), now;
        case MsgStackError =>
          Down();
        case MsgUdcError =>
          Down();
        case MsgReset =>
          Down();
        case MsgSuspend =>
          Down();
        case MsgVbusRemoved =>
          Down();
        case MsgResume =>
          Resume();
        case MsgVbusReady =>
          Resume();
        case MsgOther =>
      }
    }

    method Down()
      modifies this`shouldRun, this`isReady, this`led, this`network, this`watchdog
      ensures Abs() == OnUsb(old(Abs()), Lost)
    {
      isReady := false;
      led := Blinking;
      SetNetworkState(false);
    }

    method Resume()
      modifies this`shouldRun, this`led, this`network, this`watchdog, this`armed
      ensures Abs() == OnUsb(old(Abs()), Back)
    {
      led := Blinking;
      SetNetworkState(true);
      watchdog, armed := Some(now + WATCHDOG_DELAY), now;
    }

    /** ipv4_addr_handler: any number of autoconfigured entries has the effect of one. */
    method OnAddress(addrs: seq<IfAddr>)
      requires Valid() && !rebooted
      modifies this
      ensures Valid()
      ensures run == old(run) + [Address(exists i :: 0 <= i < |addrs| && addrs[i].used && addrs[i].autoconf)]
      ensures if exists i :: 0 <= i < |addrs| && addrs[i].used && addrs[i].autoconf
              then isReady && watchdog == None && led == Solid && httpWork
              else Abs() == old(Abs())
    {
      hide Run, CanRun, OnUsb, OnNetworkWork, OnWatchdog;
      ghost var s := Abs();
      for i := 0 to |addrs|
        invariant run == old(run)
        invariant Abs() == Apply(s, Address(exists j :: 0 <= j < i && addrs[j].used && addrs[j].autoconf))
      {
        if !addrs[i].used || !addrs[i].autoconf {
          continue;
        }
        isReady := true;
        watchdog := None;
        led := Solid;
        httpWork := true;
        addressed := isUp;
      }
      Log(Address(exists i :: 0 <= i < |addrs| && addrs[i].used && addrs[i].autoconf), s);
    }

    /** usb_ncm_network_work_handler. */
    method RunNetworkWork()
      requires Valid() && Enabled(Abs(), NetworkWork)
      modifies this
      ensures Valid() && run == old(run) + [NetworkWork]
      ensures network == None && (hasInterface ==> isUp == shouldRun) && (!hasInterface ==> led == Alarm)
    {
      hide Run, CanRun;
      ghost var s := Abs();
      FollowFlag();
      Log(NetworkWork, s);
    }

    /** The body of the network work. */
    method FollowFlag()
      modifies this`network, this`led, this`isUp, this`isReady, this`addressed
      ensures Abs() == OnNetworkWork(old(Abs()))
    {
      network := None;
      if !hasInterface {
        led := Alarm;
        return;
      }
      if shouldRun && !isUp {
        isUp, addressed := true, false;
        return;
      }
      if !shouldRun && isUp {
        isUp, addressed := false, false;
        isReady := false;
        led := Blinking;
      }
    }

    /** usb_ncm_startup_watchdog_work_handler. */
    method RunWatchdog()
      requires Valid() && Enabled(Abs(), WatchdogWork)
      modifies this
      ensures Valid() && run == old(run) + [WatchdogWork]
      ensures rebooted <==> shouldRun && !isReady
    {
      hide Run, CanRun;
      ghost var s := Abs();
      watchdog := None;
      if !shouldRun || isReady {
        Log(WatchdogWork, s);
        return;
      }
      led := Alarm;
      rebooted := true;
      Log(WatchdogWork, s);
    }

    /** http_server_start_work_handler; http_server_start always returns 0. */
    method RunHttpWork()
      requires Valid() && Enabled(Abs(), HttpWork)
      modifies this
      ensures Valid() && run == old(run) + [HttpWork]
    {
      hide Run, CanRun;
      ghost var s := Abs();
      httpWork := false;
      if httpStarted {
        Log(HttpWork, s);
        return;
      }
      httpStarted := true;
      Log(HttpWork, s);
    }
  }
}
