/** The USB network recovery of main.c as a state machine over callbacks, work items and time. */
module UsbMachine {
  import opened Bytes

  /** Milliseconds. */
  const NETWORK_DELAY: nat := 1000
  const WATCHDOG_DELAY: nat := 6000

  datatype Led = Blinking | Solid | Alarm

  /** Flags, LED, the due times of the two delayable works if pending, and the clock. `armed` is
      the time of the last configuration, resume or VBUS-ready message; `addressed` says whether an
      address has come since the interface last went up. */
  datatype State = State(
    hasInterface: bool,
    shouldRun: bool, isUp: bool, isReady: bool, httpStarted: bool, led: Led,
    network: Option<nat>, watchdog: Option<nat>, httpWork: bool,
    now: nat, armed: nat, addressed: bool, rebooted: bool)

  /** The messages of usbd_msg_cb by what they do: CONFIGURATION; errors, RESET, SUSPEND and
      VBUS_REMOVED; RESUME and VBUS_READY; the rest. */
  datatype Message = Configuration | Lost | Back | Ignored

  datatype Event =
    | Usb(message: Message)
    | Address(autoconf: bool)
    | NetworkWork
    | WatchdogWork
    | HttpWork
    | Tick(ms: nat)

  function Initial(hasInterface: bool): State
  {
    State(hasInterface, false, false, false, false, Blinking, None, None, false, 0, 0, false, false)
  }

  /** k_work_schedule: no effect on a pending work. */
  function Scheduled(work: Option<nat>, now: nat, delay: nat): Option<nat>
  {
    if work.Some? then work else Some(now + delay)
  }

  predicate Due(work: Option<nat>, now: nat)
  {
    work.Some? && work.value <= now
  }

  /** Due work fires: time does not pass a pending due time. */
  predicate NotBeyond(work: Option<nat>, time: nat)
  {
    work.Some? ==> time <= work.value
  }

  predicate Enabled(s: State, e: Event)
  {
    !s.rebooted &&
    match e
    case NetworkWork => Due(s.network, s.now)
    case WatchdogWork => Due(s.watchdog, s.now)
    case HttpWork => s.httpWork
    case Tick(ms) => ms > 0 && NotBeyond(s.network, s.now + ms) && NotBeyond(s.watchdog, s.now + ms)
    case _ => true
  }

  /** The interface follows the flag, at the latest when the pending work runs, within a second. */
  predicate NetworkInv(s: State)
  {
    && (s.hasInterface && s.shouldRun != s.isUp ==> s.network.Some?)
    && (s.network.Some? ==> s.now <= s.network.value <= s.now + NETWORK_DELAY)
  }

  /** A solid LED means an address, and an address means the server is started or about to be. */
  predicate LedInv(s: State)
  {
    (s.led == Solid ==> s.isReady) && (s.isReady ==> s.httpWork || s.httpStarted)
  }

  /** Flagged ready although no address has come since the interface went up. */
  predicate Stale(s: State)
  {
    s.isReady && !s.addressed
  }

  predicate AddressInv(s: State)
  {
    (s.addressed ==> s.isUp) && (s.isUp ==> s.hasInterface)
  }

  /** Nothing but an address makes the flag stale. */
  predicate StaysFresh(s: State, t: State)
  {
    AddressInv(s) && !Stale(s) ==> !Stale(t)
  }

  predicate Keeps(s: State, t: State)
  {
    && (AddressInv(s) ==> AddressInv(t))
    && (NetworkInv(s) ==> NetworkInv(t)) && (LedInv(s) ==> LedInv(t)) && t.hasInterface == s.hasInterface
  }

  /** set_usb_ncm_network_state. */
  function SetNetwork(s: State, up: bool): State
  {
    if up then s.(shouldRun := true, network := Scheduled(s.network, s.now, NETWORK_DELAY))
    else s.(shouldRun := false, network := Some(s.now), watchdog := None)
  }

  function Armed(s: State): State
  {
    s.(watchdog := Some(s.now + WATCHDOG_DELAY), armed := s.now)
  }

  function OnUsb(s: State, m: Message): (t: State)
    ensures Keeps(s, t) && t.rebooted == s.rebooted && StaysFresh(s, t)
  {
    match m
    case Configuration => Armed(SetNetwork(s, true))
    case Lost => SetNetwork(s.(isReady := false, led := Blinking), false)
    case Back => Armed(SetNetwork(s.(led := Blinking), true))
    case Ignored => s
  }

  function OnNetworkWork(s: State): (t: State)
    ensures Keeps(s, t) && t.rebooted == s.rebooted && StaysFresh(s, t)
  {
    var t := s.(network := None);
    if !s.hasInterface then t.(led := Alarm)
    else if s.shouldRun && !s.isUp then t.(isUp := true, addressed := false)
    else if !s.shouldRun && s.isUp then t.(isUp := false, addressed := false, isReady := false, led := Blinking)
    else t
  }

  function OnWatchdog(s: State): (t: State)
    ensures Keeps(s, t) && StaysFresh(s, t)
  {
    var t := s.(watchdog := None);
    if !s.shouldRun || s.isReady then t else t.(led := Alarm, rebooted := true)
  }

  function Apply(s: State, e: Event): State
  {
    match e
    case Usb(m) => OnUsb(s, m)
    case Address(autoconf) =>
      if autoconf then
        s.(isReady := true, watchdog := None, led := Solid, httpWork := true, addressed := s.isUp)
      else s
    case NetworkWork => OnNetworkWork(s)
    case WatchdogWork => OnWatchdog(s)
    case HttpWork => s.(httpWork := false, httpStarted := true)
    case Tick(ms) => s.(now := s.now + ms)
  }

  predicate CanRun(s: State, es: seq<Event>)
  {
    |es| == 0 || (CanRun(s, es[..|es| - 1]) && Enabled(Run(s, es[..|es| - 1]), es[|es| - 1]))
  }

  function Run(s: State, es: seq<Event>): State
  {
    if |es| == 0 then s else Apply(Run(s, es[..|es| - 1]), es[|es| - 1])
  }

  /** A board that should run and is not flagged ready has its reboot coming, six seconds after the
      last message that armed it, and that time has not passed. */
  predicate RecoveryInv(s: State)
  {
    && (s.shouldRun && !s.isReady && !s.rebooted ==> s.watchdog.Some?)
    && (s.watchdog.Some? ==> s.watchdog.value == s.armed + WATCHDOG_DELAY && s.now <= s.watchdog.value)
  }

  predicate Inv(s: State)
  {
    RecoveryInv(s) && NetworkInv(s) && LedInv(s) && AddressInv(s)
  }

  lemma RecoveryKept(s: State, e: Event)
    requires RecoveryInv(s) && Enabled(s, e)
    ensures RecoveryInv(Apply(s, e))
  {
  }

  lemma OthersKept(s: State, e: Event)
    requires Enabled(s, e)
    ensures Keeps(s, Apply(s, e))
  {
    hide OnUsb, OnNetworkWork, OnWatchdog;
  }

  lemma InvKept(s: State, e: Event)
    requires Inv(s) && Enabled(s, e)
    ensures Inv(Apply(s, e)) && Apply(s, e).hasInterface == s.hasInterface
  {
    hide Apply, Enabled, RecoveryInv, NetworkInv, LedInv, AddressInv;
    RecoveryKept(s, e);
    OthersKept(s, e);
  }

  lemma {:induction false} InvAlways(hasInterface: bool, es: seq<Event>)
    requires CanRun(Initial(hasInterface), es)
    ensures var s := Run(Initial(hasInterface), es); Inv(s) && s.hasInterface == hasInterface
  {
    hide Apply, Enabled, Inv;
    if |es| > 0 {
      InvAlways(hasInterface, es[..|es| - 1]);
      InvKept(Run(Initial(hasInterface), es[..|es| - 1]), es[|es| - 1]);
    } else {
      InvInitially(hasInterface);
    }
  }

  lemma InvInitially(hasInterface: bool)
    ensures Inv(Initial(hasInterface))
  {
  }

  /** Recovery: in every run, whenever the board should run, is not flagged ready and has not
      rebooted, the watchdog is pending, due exactly six seconds after the last arming message. So,
      as TimePasses says that time goes on, within those six seconds it gets an address, loses USB,
      or reboots. */
  lemma NeverStuck(hasInterface: bool, es: seq<Event>)
    requires CanRun(Initial(hasInterface), es)
    ensures var s := Run(Initial(hasInterface), es);
      s.shouldRun && !s.isReady && !s.rebooted ==>
      s.watchdog == Some(s.armed + WATCHDOG_DELAY) && s.now <= s.armed + WATCHDOG_DELAY
  {
    InvAlways(hasInterface, es);
  }

  /** A reboot happens only six seconds after the last arming message, on a board that should run
      and is not flagged ready; KeepsAddressExactly says when that board has its address all the same. */
  lemma RebootOnlyInNeed(hasInterface: bool, es: seq<Event>, e: Event)
    requires CanRun(Initial(hasInterface), es) && Enabled(Run(Initial(hasInterface), es), e)
    ensures var s := Run(Initial(hasInterface), es);
      Apply(s, e).rebooted <==>
      e == WatchdogWork && s.shouldRun && !s.isReady && s.now == s.armed + WATCHDOG_DELAY
  {
    hide NetworkInv, LedInv, Keeps, Run, CanRun;
    InvAlways(hasInterface, es);
    hide Inv;
    RebootStep(Run(Initial(hasInterface), es), e);
  }

  /** Something always happens: due work can run, or else time can pass. */
  lemma {:induction false} TimePasses(hasInterface: bool, es: seq<Event>)
    requires CanRun(Initial(hasInterface), es)
    ensures var s := Run(Initial(hasInterface), es);
      !s.rebooted ==> Enabled(s, NetworkWork) || Enabled(s, WatchdogWork) || Enabled(s, Tick(1))
  {
    hide Run, CanRun, Keeps, LedInv;
    InvAlways(hasInterface, es);
  }

  /** A board that should run and has no address since its interface went up has its reboot coming. */
  predicate Rescued(s: State)
  {
    s.shouldRun && !s.addressed && !s.rebooted ==> s.watchdog.Some?
  }

  /** An address handled while the interface is down. */
  predicate EarlyAddress(s: State, e: Event)
  {
    e == Address(true) && !s.isUp
  }

  /** The flag goes stale exactly by an address handled while the interface is down. */
  lemma StaleExactlyBy(hasInterface: bool, es: seq<Event>, e: Event)
    requires CanRun(Initial(hasInterface), es) && Enabled(Run(Initial(hasInterface), es), e)
    requires !Stale(Run(Initial(hasInterface), es))
    ensures var s := Run(Initial(hasInterface), es); Stale(Apply(s, e)) <==> EarlyAddress(s, e)
  {
    hide Run, CanRun, RecoveryInv, NetworkInv, LedInv;
    InvAlways(hasInterface, es);
    hide Keeps, OnUsb, OnNetworkWork, OnWatchdog;
  }

  /** No address comes. */
  predicate NoAddress(es: seq<Event>)
  {
    forall i :: 0 <= i < |es| ==> es[i] != Address(true)
  }

  /** The board is rescued whatever comes next, but for another address. */
  ghost predicate StaysRescued(s: State)
  {
    forall more :: CanRun(s, more) && NoAddress(more) ==> Rescued(Run(s, more))
  }

  /** A board is sure to be rescued exactly while its flag is not stale. */
  lemma RescuedExactlyIfNotStale(hasInterface: bool, es: seq<Event>)
    requires CanRun(Initial(hasInterface), es) && !Run(Initial(hasInterface), es).rebooted
    ensures var s := Run(Initial(hasInterface), es); StaysRescued(s) <==> !Stale(s)
  {
    var s := Run(Initial(hasInterface), es);
    InvAlways(hasInterface, es);
    hide Run, CanRun, NetworkInv, LedInv;
    if Stale(s) {
      var more := StaleIsForgotten(s);
    } else {
      forall more | CanRun(s, more) && NoAddress(more)
        ensures Rescued(Run(s, more))
      {
        NotStaleAgain(s, more);
      }
    }
  }

  lemma {:induction false} NotStaleAgain(s: State, more: seq<Event>)
    requires RecoveryInv(s) && !Stale(s) && AddressInv(s) && CanRun(s, more) && NoAddress(more)
    ensures var t := Run(s, more); RecoveryInv(t) && !Stale(t) && AddressInv(t) && Rescued(t)
  {
    hide Apply, Enabled;
    if |more| > 0 {
      var t, e := Run(s, more[..|more| - 1]), more[|more| - 1];
      NotStaleAgain(s, more[..|more| - 1]);
      NotStaleStep(t, e);
      RecoveryKept(t, e);
    }
  }

  lemma NotStaleStep(s: State, e: Event)
    requires !Stale(s) && AddressInv(s) && e != Address(true)
    ensures !Stale(Apply(s, e)) && AddressInv(Apply(s, e))
  {
    hide NetworkInv, LedInv, OnUsb, OnNetworkWork, OnWatchdog;
  }

  /** The flag is stale, or mistaken, and the watchdog is due at d. */
  predicate Doomed(s: State, stale: bool, network: Option<nat>, d: nat)
  {
    s.shouldRun && (if stale then Stale(s) else Mistaken(s) && s.isUp) && !s.rebooted &&
    s.watchdog == Some(d) && s.network == network && s.now <= d && (network.Some? ==> s.now <= network.value)
  }

  lemma ConfiguredIsDoomed(s: State)
    requires NetworkInv(s) && Stale(s) && !s.rebooted
    ensures var e := Usb(Configuration);
      Enabled(s, e) && Apply(s, e).network.Some? &&
      Doomed(Apply(s, e), true, Apply(s, e).network, s.now + WATCHDOG_DELAY)
  {
  }

  lemma DoomedWaits(s: State, stale: bool, network: Option<nat>, d: nat, until: nat)
    requires Doomed(s, stale, network, d) && s.now < until <= d && (network.Some? ==> until <= network.value)
    ensures Enabled(s, Tick(until - s.now)) && Doomed(Apply(s, Tick(until - s.now)), stale, network, d)
    ensures Apply(s, Tick(until - s.now)).now == until
  {
  }

  lemma DoomedNetwork(s: State, stale: bool, d: nat)
    requires Doomed(s, stale, Some(s.now), d)
    ensures Enabled(s, NetworkWork) && Doomed(Apply(s, NetworkWork), stale, None, d)
    ensures Apply(s, NetworkWork).now == s.now
  {
    hide Keeps;
  }

  lemma DoomedWatchdog(s: State, stale: bool, network: Option<nat>)
    requires Doomed(s, stale, network, s.now)
    ensures Enabled(s, WatchdogWork)
    ensures var t := Apply(s, WatchdogWork); if stale then !Rescued(t) else t.rebooted && t.addressed
  {
  }

  /** Configured again, the watchdog fires, finds the stale flag, and is not armed any more. */
  lemma StaleIsForgotten(s: State) returns (more: seq<Event>)
    requires NetworkInv(s) && Stale(s) && !s.rebooted
    ensures CanRun(s, more) && NoAddress(more) && !Rescued(Run(s, more))
  {
    var d := s.now + WATCHDOG_DELAY;
    ConfiguredIsDoomed(s);
    more := Append(s, [], Usb(Configuration));
    hide Run, CanRun, NetworkInv, Apply, Enabled, Rescued;
    var work := Run(s, more).network;
    more := Wait(s, more, true, work, d, work.value);
    DoomedNetwork(Run(s, more), true, d);
    more := Append(s, more, NetworkWork);
    more := Wait(s, more, true, None, d, d);
    DoomedWatchdog(Run(s, more), true, None);
    more := Append(s, more, WatchdogWork);
  }

  lemma Wait(s: State, es: seq<Event>, stale: bool, network: Option<nat>, d: nat, until: nat) returns (more: seq<Event>)
    requires CanRun(s, es) && NoAddress(es) && Doomed(Run(s, es), stale, network, d)
    requires Run(s, es).now <= until <= d && (network.Some? ==> until <= network.value)
    ensures CanRun(s, more) && NoAddress(more) && (Quiet(es) ==> Quiet(more))
    ensures Doomed(Run(s, more), stale, network, d) && Run(s, more).now == until
  {
    hide Run, CanRun, Apply, Enabled, Doomed;
    more := es;
    if Run(s, es).now < until {
      DoomedWaits(Run(s, es), stale, network, d, until);
      more := Append(s, es, Tick(until - Run(s, es).now));
    }
  }

  lemma Append(s: State, es: seq<Event>, e: Event) returns (more: seq<Event>)
    requires CanRun(s, es) && Enabled(Run(s, es), e) && NoAddress(es) && e != Address(true)
    ensures more == es + [e] && CanRun(s, more) && NoAddress(more) && Run(s, more) == Apply(Run(s, es), e)
    ensures Quiet(es) && (e.Usb? ==> e.message == Ignored) ==> Quiet(more)
  {
    hide Apply, Enabled;
    more := es + [e];
    RunSnoc(s, es, e);
  }

  /** The board has its address and has forgotten it: a USB loss cleared the flag, and the network
      work that takes the interface down has not run. */
  predicate Forgotten(s: State)
  {
    !s.shouldRun && s.addressed && !s.isReady
  }

  /** The board should run, has its address and does not know it. */
  predicate Mistaken(s: State)
  {
    s.shouldRun && s.addressed && !s.isReady
  }

  /** The address is forgotten exactly by a loss of USB, and until the network work runs. */
  lemma ForgottenExactlyBy(hasInterface: bool, es: seq<Event>, e: Event)
    requires CanRun(Initial(hasInterface), es) && Enabled(Run(Initial(hasInterface), es), e)
    ensures var s := Run(Initial(hasInterface), es);
      && (!Forgotten(s) ==> (Forgotten(Apply(s, e)) <==> e == Usb(Lost) && s.addressed))
      && (Forgotten(s) && e == NetworkWork ==> !Apply(s, e).isUp && !Apply(s, e).addressed)
  {
    hide Run, CanRun, Apply, Enabled, RecoveryInv, NetworkInv, LedInv;
    InvAlways(hasInterface, es);
    ForgottenStep(Run(Initial(hasInterface), es), e);
  }

  lemma ForgottenStep(s: State, e: Event)
    requires AddressInv(s)
    ensures !Forgotten(s) ==> (Forgotten(Apply(s, e)) <==> e == Usb(Lost) && s.addressed)
    ensures Forgotten(s) && e == NetworkWork ==> !Apply(s, e).isUp && !Apply(s, e).addressed
  {
    hide Keeps, StaysFresh;
  }

  /** The mistake is made exactly by a configuration, resume or VBUS-ready message that comes while
      the address is forgotten. */
  lemma MistakenExactlyBy(hasInterface: bool, es: seq<Event>, e: Event)
    requires CanRun(Initial(hasInterface), es) && Enabled(Run(Initial(hasInterface), es), e)
    requires !Mistaken(Run(Initial(hasInterface), es))
    ensures var s := Run(Initial(hasInterface), es);
      Mistaken(Apply(s, e)) <==> (e == Usb(Configuration) || e == Usb(Back)) && Forgotten(s)
  {
    InvAlways(hasInterface, es);
    hide Run, CanRun, RecoveryInv, NetworkInv, LedInv, Keeps, StaysFresh;
  }

  /** No USB message that matters, and no address. */
  predicate Quiet(es: seq<Event>)
  {
    forall i :: 0 <= i < |es| ==> es[i] != Address(true) && (es[i].Usb? ==> es[i].message == Ignored)
  }

  /** Left alone, the board is not rebooted while it has its address. */
  ghost predicate KeepsAddress(s: State)
  {
    forall more :: CanRun(s, more) && Quiet(more) ==> !(Run(s, more).rebooted && Run(s, more).addressed)
  }

  /** A board that still has its address may be rebooted if left alone, exactly if it is mistaken. */
  lemma KeepsAddressExactly(hasInterface: bool, es: seq<Event>)
    requires CanRun(Initial(hasInterface), es) && !Run(Initial(hasInterface), es).rebooted
    ensures var s := Run(Initial(hasInterface), es); KeepsAddress(s) <==> !Mistaken(s)
  {
    var s := Run(Initial(hasInterface), es);
    InvAlways(hasInterface, es);
    hide Run, CanRun, LedInv;
    if Mistaken(s) {
      var more := MistakenIsRebooted(s);
    } else {
      forall more | CanRun(s, more) && Quiet(more)
        ensures !(Run(s, more).rebooted && Run(s, more).addressed)
      {
        NotMistakenAgain(s, more);
      }
    }
  }

  lemma {:induction false} NotMistakenAgain(s: State, more: seq<Event>)
    requires !Mistaken(s) && AddressInv(s) && !s.rebooted && CanRun(s, more) && Quiet(more)
    ensures var t := Run(s, more); !Mistaken(t) && AddressInv(t) && !(t.rebooted && t.addressed)
  {
    hide Apply, Enabled;
    if |more| > 0 {
      NotMistakenAgain(s, more[..|more| - 1]);
      NotMistakenStep(Run(s, more[..|more| - 1]), more[|more| - 1]);
    }
  }

  lemma NotMistakenStep(s: State, e: Event)
    requires !Mistaken(s) && AddressInv(s) && !(s.rebooted && s.addressed)
    requires e != Address(true) && (e.Usb? ==> e.message == Ignored)
    ensures var t := Apply(s, e); !Mistaken(t) && AddressInv(t) && !(t.rebooted && t.addressed)
  {
    hide Keeps, StaysFresh;
  }

  /** The network work finds the interface up and leaves it, and the watchdog fires. */
  lemma MistakenIsRebooted(s: State) returns (more: seq<Event>)
    requires RecoveryInv(s) && NetworkInv(s) && AddressInv(s) && Mistaken(s) && !s.rebooted
    ensures CanRun(s, more) && Quiet(more) && Run(s, more).rebooted && Run(s, more).addressed
  {
    var d, work := s.watchdog.value, s.network;
    more := [];
    assert Run(s, more) == s && CanRun(s, more);
    hide Run, CanRun, NetworkInv, RecoveryInv, Apply, Enabled;
    if work.Some? && work.value <= d {
      more := Wait(s, more, false, work, d, work.value);
      DoomedNetwork(Run(s, more), false, d);
      more := Append(s, more, NetworkWork);
      work := None;
    }
    more := Wait(s, more, false, work, d, d);
    DoomedWatchdog(Run(s, more), false, work);
    more := Append(s, more, WatchdogWork);
  }

  lemma RebootStep(s: State, e: Event)
    requires RecoveryInv(s) && Enabled(s, e)
    ensures Apply(s, e).rebooted <==>
      e == WatchdogWork && s.shouldRun && !s.isReady && s.now == s.armed + WATCHDOG_DELAY
  {
    hide Keeps, OnUsb, OnNetworkWork;
  }

  /** Nothing pending, and still the interface is not what the flag asks for. */
  predicate Diverged(s: State)
  {
    s.network == None && s.shouldRun != s.isUp
  }

  ghost predicate AlwaysConverges(hasInterface: bool)
  {
    forall es :: CanRun(Initial(hasInterface), es) ==> !Diverged(Run(Initial(hasInterface), es))
  }

  /** The network work converges over all runs exactly if there is a default interface. */
  lemma ConvergesWithInterface(hasInterface: bool)
    ensures AlwaysConverges(hasInterface) <==> hasInterface
  {
    if hasInterface {
      forall es | CanRun(Initial(hasInterface), es)
        ensures !Diverged(Run(Initial(hasInterface), es))
      {
        InvAlways(hasInterface, es);
      }
    } else {
      var es := NoInterfaceRun();
      assert Initial(hasInterface) == Initial(false);
      assert CanRun(Initial(hasInterface), es) && Diverged(Run(Initial(hasInterface), es));
    }
  }

  lemma RunSnoc(s: State, es: seq<Event>, e: Event)
    requires CanRun(s, es) && Enabled(Run(s, es), e)
    ensures CanRun(s, es + [e]) && Run(s, es + [e]) == Apply(Run(s, es), e)
  {
    assert (es + [e])[..|es|] == es;
  }

  /** Configured, one second, network work: without a default interface the work gives up. */
  lemma NoInterfaceRun() returns (es: seq<Event>)
    ensures CanRun(Initial(false), es) && Diverged(Run(Initial(false), es))
  {
    var s := Initial(false);
    es := [];
    RunSnoc(s, es, Usb(Configuration));
    es := es + [Usb(Configuration)];
    RunSnoc(s, es, Tick(1000));
    es := es + [Tick(1000)];
    var t := Run(s, es);
    assert t.network == Some(1000) && t.now == 1000 && t.shouldRun && !t.isUp && !t.hasInterface;
    RunSnoc(s, es, NetworkWork);
    es := es + [NetworkWork];
  }

  /** The LED is solid only with an address, and then the HTTP server is started or about to be. */
  lemma SolidMeansReady(hasInterface: bool, es: seq<Event>)
    requires CanRun(Initial(hasInterface), es)
    ensures var s := Run(Initial(hasInterface), es);
      s.led == Solid ==> s.isReady && (s.httpWork || s.httpStarted)
  {
    InvAlways(hasInterface, es);
  }
}
