/** The code of can_bridge.c that shares state: the message handler, the reconfiguration, the TX
    worker and the initialization. Between any two accesses of one of them the others may run;
    the ghost run records every access as a step of CanMachine. */
module CanBridge {
  import opened Bytes
  import opened CanFrames
  import opened CanMachine
  import opened CanRuns
  import CanJson

  const CAN_WS_JSON_MAX: nat := 256

  /** can_mode_from_name. */
  function ModeFromName(name: string): Option<Mode>
  {
    if name == "normal" then Some(Normal)
    else if name == "loopback" then Some(Loopback)
    else if name == "listen-only" then Some(ListenOnly)
    else None
  }

  /** The pair a can.config.set message asks for: absent fields keep the recorded values. */
  function Wanted(m: Message, recorded: Config): Option<Config>
  {
    if BitrateField in m.fields && m.bitrate <= 0 then None
    else
      var bitrate := if BitrateField in m.fields then m.bitrate else recorded.bitrate;
      if ModeField !in m.fields then Some(Config(recorded.mode, bitrate))
      else match ModeFromName(m.mode)
        case None => None
        case Some(mode) => Some(Config(mode, bitrate))
  }

  /** Which setting of a can.config.set message is refused: the bitrate is looked at first. */
  function BadSetting(m: Message): Code
  {
    if BitrateField in m.fields && m.bitrate <= 0 then InvalidBitrate else InvalidMode
  }

  /** What a message is, from its optional type. */
  datatype Purpose = ToSend | ToConfigure | ToQuery | Unknown

  function PurposeOf(m: Message): Purpose
  {
    if TypeField !in m.fields || m.typ == "can.tx" then ToSend
    else if m.typ == "can.config.set" then ToConfigure
    else if m.typ == "can.status" || m.typ == "can.config.get" then ToQuery
    else Unknown
  }

  /** The pair asked for: absent fields keep what was recorded, and the three mode names mean what they
      say. */
  predicate PairAskedFor(m: Message, was: Config, want: Config)
  {
    && want.bitrate == (if BitrateField in m.fields then m.bitrate else was.bitrate)
    && (ModeField !in m.fields ==> want.mode == was.mode)
    && (ModeField in m.fields ==>
        (want.mode == Normal <==> m.mode == "normal") && (want.mode == Loopback <==> m.mode == "loopback") &&
        (want.mode == ListenOnly <==> m.mode == "listen-only"))
  }

  /** The answers a message may get, given the ready flag, its length, what it parsed to, and the
      recorded pair: exactly one kind, with the frame or the reason it names. */
  ghost predicate Fitting(reply: Reply, ready: bool, len: nat, parsed: Option<Message>, recorded: Config)
  {
    && (reply == NotReady <==> !ready)
    && (reply == Refused(PayloadTooLarge) <==> ready && len >= 256)
    && (reply == Refused(InvalidJson) <==> ready && len < 256 && parsed.None?)
    && (ready && len < 256 && parsed.Some? ==>
        var m := parsed.value;
        match PurposeOf(m)
        case ToQuery => reply.StatusText?
        case Unknown => reply == Refused(UnsupportedType)
        case ToConfigure =>
          if BitrateField in m.fields && m.bitrate <= 0 then reply == Refused(InvalidBitrate)
          else if ModeField in m.fields && m.mode != "normal" && m.mode != "loopback" && m.mode != "listen-only" then
            reply == Refused(InvalidMode)
          else
            (reply.ConfigApplied? || reply.ConfigFailed?) && PairAskedFor(m, recorded, reply.want) &&
            reply.was == recorded
        case ToSend =>
          if FollowsRules(m) then
            reply == QueueFull || (reply.TxOk? && ValidFrame(reply.frame) && Carries(reply.frame, m))
          else reply.Refused? && reply.code.Broken? && Breaks(m, reply.code.rule))
  }

  lemma WantedIs(m: Message, was: Config)
    ensures Wanted(m, was).None? <==>
      (BitrateField in m.fields && m.bitrate <= 0) ||
      (ModeField in m.fields && m.mode != "normal" && m.mode != "loopback" && m.mode != "listen-only")
    ensures Wanted(m, was).None? ==>
      BadSetting(m) == if BitrateField in m.fields && m.bitrate <= 0 then InvalidBitrate else InvalidMode
    ensures Wanted(m, was).Some? ==> PairAskedFor(m, was, Wanted(m, was).value)
  {
  }

  /** What the answer to a queued frame lists; the bus number is always 0. */
  function RecordOf(m: Message, ts: int): CanJson.Record
    requires FollowsRules(m)
  {
    CanJson.Record(m.id, m.ext, m.rtr, m.dlc, seq(|m.data|, i requires 0 <= i < |m.data| => m.data[i] as nat), ts)
  }

  /** What a reader of the answer finds is the message. */
  predicate SaysMessage(r: Option<CanJson.Record>, m: Message, ts: int)
  {
    && r.Some? && r.value.id == m.id && r.value.ext == m.ext && r.value.rtr == m.rtr && r.value.dlc == m.dlc
    && |r.value.data| == |m.data| && r.value.ts == ts
    && forall i :: 0 <= i < |m.data| ==> r.value.data[i] == m.data[i]
  }

  /** format_can_tx_response: for a validated message the text always fits, so a frame that went
      into the queue is always reported as queued, and a reader recovers every field of it. */
  method FormatTxResponse(m: Message, ts: int, response: array<char>) returns (ret: int)
    requires FollowsRules(m) && response.Length == CanJson.WS_RESPONSE_MAX
    requires -0x8000_0000_0000_0000 <= ts < 0x8000_0000_0000_0000
    modifies response
    ensures ret == 0
    ensures exists n: nat ::
      (n < response.Length && response[n] == '\0' && SaysMessage(CanJson.Read(CanJson.Tx, response[..n]), m, ts))
  {
    hide CanJson.Text, CanJson.Read;
    CanJson.TextFits(CanJson.Tx, RecordOf(m, ts));
    CanJson.ReadText(CanJson.Tx, RecordOf(m, ts));
    ret := CanJson.Print(CanJson.Tx, RecordOf(m, ts), response);
  }

  class Bridge {
    var ready: bool
    var recorded: Config
    var txQueue: seq<CanFrame>
    var lock: Owner
    /** The controller behind the driver. */
    var started: bool
    var actual: Config
    /** Where the main thread and the TX worker are, with the worker's local frame. */
    var init: InitPc
    var worker: WorkerPc
    /** Where the handler is, and what has happened. */
    ghost var handler: HandlerPc
    ghost var replies: seq<Reply>
    ghost var okFrames: seq<CanFrame>
    ghost var handed: seq<CanFrame>
    ghost const start: State
    ghost var run: seq<Event>

    ghost function Abs(): State
      reads this
    {
      State(ready, recorded, txQueue, lock, started, actual, init, handler, worker, replies, okFrames, handed)
    }

    /** The state is the end of a run of the machine. */
    ghost predicate Valid()
      reads this
    {
      Initial(start) && CanRun(start, run) && Abs() == Run(start, run)
    }

    constructor (bitrate: nat, running: bool, mode: Mode)
      ensures Valid() && handler == Idle && replies == [] && !ready
    {
      ready, recorded, txQueue, lock := false, Config(Normal, bitrate), [], Nobody;
      started, actual := running, Config(mode, bitrate);
      init, worker, handler := InitMode, Unborn, Idle;
      replies, okFrames, handed := [], [], [];
      start := State(false, Config(Normal, bitrate), [], Nobody, running, Config(mode, bitrate),
                     InitMode, Idle, Unborn, [], [], []);
      run := [];
    }

    /** Records the step just made. */
    ghost method Log(e: Event, before: State)
      requires Initial(start) && CanRun(start, run) && Run(start, run) == before
      requires Enabled(before, e) && Abs() == Apply(before, e)
      modifies this`run
      ensures Valid() && run == old(run) + [e]
    {
      RunSnoc(start, run, e);
      run := run + [e];
    }

    /** The driver: a stop or start reports -EALREADY exactly when there is nothing to do. */
    method DriverStop() returns (ret: Ret)
      modifies this`started
      ensures (ret == Already <==> !old(started)) && started == AfterStop(Abs(), ret, started)
    {
      var works: bool := *;
      if !started {
        ret := Already;
      } else if works {
        ret, started := Success, false;
      } else {
        ret := Error;
        started := *;
      }
    }

    method DriverStart() returns (ret: Ret)
      modifies this`started
      ensures (ret == Already <==> old(started)) && started == AfterStart(Abs(), ret, started)
    {
      var works: bool := *;
      if started {
        ret := Already;
      } else if works {
        ret, started := Success, true;
      } else {
        ret := Error;
        started := *;
      }
    }

    method DriverResult() returns (ret: Ret)
      ensures ret != Already
    {
      var works: bool := *;
      ret := if works then Success else Error;
    }

    /** One access of the loop of can_tx_thread: take a frame, lock, send, unlock. */
    method WorkerAccess()
      requires Valid()
      modifies this`txQueue, this`lock, this`worker, this`handed, this`run
      ensures Valid() && run == if old(Enabled(Abs(), WorkerStep)) then old(run) + [WorkerStep] else old(run)
      ensures old(worker).Sending? ==> worker == Done && lock == old(lock)
      ensures old(worker) == Done ==> lock == Nobody
    {
      hide Keeps, ValidFrame, Run, CanRun, ApplyInit, ApplyText, ApplyHandler;
      ghost var s := Abs();
      match worker {
        case Unborn =>
          return;
        case Waiting =>
          if |txQueue| == 0 {
            return;
          }
          worker := Holding(txQueue[0]);
          txQueue := txQueue[1..];
        case Holding(f) =>
          if lock != Nobody {
            return;
          }
          lock := Worker;
          worker := Sending(f);
        case Sending(f) =>
          worker := Done;
          handed := handed + [f];
        case Done =>
          lock := Nobody;
          worker := Waiting;
      }
      Log(WorkerStep, s);
    }

    /** One access of can_bridge_init. */
    method InitAccess()
      requires Valid() && init != InitDone && init != InitFailed
      modifies this`ready, this`started, this`actual, this`init, this`worker, this`run
      ensures Valid() && exists ret, running :: run == old(run) + [InitStep(ret, running)]
    {
      hide Keeps, SameFrames, Run, CanRun, ApplyText, ApplyHandler, ApplyWorker;
      ghost var s := Abs();
      var ret := Success;
      match init {
        case InitMode =>
          ret := DriverResult();
          if ret == Success {
            actual := actual.(mode := recorded.mode);
          }
          init := if ret == Error then InitFailed else InitStart;
        case InitStart =>
          ret := DriverStart();
          init := if ret == Error then InitFailed else InitFilter;
        case InitFilter =>
          ret := DriverResult();
          init := if ret == Error then InitFailed else InitPublish;
        case InitPublish =>
          ready := true;
          init := InitSpawn;
        case InitSpawn =>
          worker := Waiting;
          init := InitDone;
      }
      Log(InitStep(ret, started), s);
    }

    /** Any number of accesses of the other threads. */
    method Others()
      requires Valid()
      modifies this`ready, this`txQueue, this`lock, this`started, this`actual, this`init, this`worker, this`handed,
               this`run
      ensures Valid()
    {
      var steps :| 0 <= steps;
      for i := 0 to steps
        invariant Valid()
      {
        var mainThread: bool := *;
        if mainThread && init != InitDone && init != InitFailed {
          InitAccess();
        } else {
          WorkerAccess();
        }
      }
    }

    lemma LockFacts()
      requires Valid()
      ensures LockInv(Abs())
    {
      InvAlways(start, run);
    }

    /** The waiting in k_mutex_lock: the worker, if inside its section, gets to leave it. */
    method AwaitLock()
      requires Valid() && !HandlerLocks(handler)
      modifies this`txQueue, this`lock, this`worker, this`handed, this`run
      ensures Valid() && lock == Nobody
    {
      hide Apply, Enabled, Run, CanRun, Initial, Valid, FifoInv, FramesInv;
      LockFacts();
      if worker.Sending? {
        WorkerAccess();
      }
      if worker == Done {
        WorkerAccess();
      }
      LockFacts();
    }

    method TakeLock(ghost next: HandlerPc)
      requires Valid() && (handler.Lock? || handler.LockAgain?)
      requires next ==
        if handler.Lock? then Stop(handler.want, handler.was) else Restart(handler.want, handler.was, handler.at)
      modifies this`txQueue, this`lock, this`worker, this`handed, this`run, this`handler
      ensures Valid() && handler == next
    {
      hide Keeps, SameFrames, RepliesGrow, Run, CanRun, ApplyInit, ApplyText, ApplyWorker;
      AwaitLock();
      ghost var s := Abs();
      lock := Handler;
      handler := next;
      Log(HandlerStep(Success, true), s);
    }

    /** k_mutex_unlock by the handler. */
    method ReleaseLock(ghost next: HandlerPc)
      requires Valid() && (handler.Unlock? || handler.UnlockFailed?)
      requires next ==
        if handler.Unlock? then Status(handler.want, handler.was) else LockAgain(handler.want, handler.was, handler.at)
      modifies this`lock, this`run, this`handler
      ensures Valid() && handler == next
    {
      hide Keeps, SameFrames, RepliesGrow, Run, CanRun, ApplyInit, ApplyText, ApplyWorker;
      ghost var s := Abs();
      lock := Nobody;
      handler := next;
      Log(HandlerStep(Success, true), s);
    }

    method ClearReady(ghost want: Config, ghost was: Config)
      requires Valid() && handler == Clear(want, was)
      modifies this`ready, this`run, this`handler
      ensures Valid() && handler == Lock(want, was)
    {
      hide Keeps, SameFrames, RepliesGrow, Run, CanRun, ApplyInit, ApplyText, ApplyWorker;
      ghost var s := Abs();
      ready := false;
      handler := Lock(want, was);
      Log(HandlerStep(Success, true), s);
    }

    /** The ready flag is cleared, and then the section entered. */
    method EnterSection(want: Config, ghost was: Config)
      requires Valid() && handler == Clear(want, was)
      modifies this`ready, this`txQueue, this`lock, this`started, this`actual, this`init, this`worker, this`handed,
               this`run, this`handler
      ensures Valid() && handler == Stop(want, was)
    {
      hide Apply, Enabled, Run, CanRun, Initial, Valid, Abs;
      ClearReady(want, was);
      Others();
      TakeLock(Stop(want, was));
      Others();
    }

    /** The four driver calls, until one fails. */
    method Reconfigure(want: Config, ghost was: Config) returns (ret: Ret, ghost at: Stage)
      requires Valid() && handler == Stop(want, was)
      modifies this`ready, this`txQueue, this`lock, this`started, this`actual, this`init, this`worker, this`handed,
               this`run, this`handler
      ensures Valid() && handler == if ret == Error then UnlockFailed(want, was, at) else Record(want, was)
    {
      ret := CallStop(want, was);
      at := AtStop;
      if ret == Error {
        return;
      }
      Others();
      ret := CallSetMode(want, was);
      at := AtSetMode;
      if ret == Error {
        return;
      }
      Others();
      ret := CallSetBitrate(want, was);
      at := AtSetBitrate;
      if ret == Error {
        return;
      }
      Others();
      ret := CallStart(want, was);
      at := AtStart;
    }

    method CallStop(ghost want: Config, ghost was: Config) returns (ret: Ret)
      requires Valid() && handler == Stop(want, was)
      modifies this`started, this`handler, this`run
      ensures Valid() && handler == if ret == Error then UnlockFailed(want, was, AtStop) else SetMode(want, was)
    {
      hide Keeps, SameFrames, RepliesGrow, Run, CanRun, ApplyInit, ApplyText, ApplyWorker;
      ghost var s := Abs();
      ret := DriverStop();
      handler := if ret == Error then UnlockFailed(want, was, AtStop) else SetMode(want, was);
      Log(HandlerStep(ret, started), s);
    }

    method CallSetMode(want: Config, ghost was: Config) returns (ret: Ret)
      requires Valid() && handler == SetMode(want, was)
      modifies this`actual, this`handler, this`run
      ensures Valid() && handler == if ret == Error then UnlockFailed(want, was, AtSetMode) else SetBitrate(want, was)
    {
      hide Keeps, SameFrames, RepliesGrow, Run, CanRun, ApplyInit, ApplyText, ApplyWorker;
      ghost var s := Abs();
      ret := DriverResult();
      if ret == Success {
        actual := actual.(mode := want.mode);
      }
      handler := if ret == Error then UnlockFailed(want, was, AtSetMode) else SetBitrate(want, was);
      Log(HandlerStep(ret, started), s);
    }

    method CallSetBitrate(want: Config, ghost was: Config) returns (ret: Ret)
      requires Valid() && handler == SetBitrate(want, was)
      modifies this`actual, this`handler, this`run
      ensures Valid() && handler == if ret == Error then UnlockFailed(want, was, AtSetBitrate) else Start(want, was)
    {
      hide Keeps, SameFrames, RepliesGrow, Run, CanRun, ApplyInit, ApplyText, ApplyWorker;
      ghost var s := Abs();
      ret := DriverResult();
      if ret == Success {
        actual := actual.(bitrate := want.bitrate);
      }
      handler := if ret == Error then UnlockFailed(want, was, AtSetBitrate) else Start(want, was);
      Log(HandlerStep(ret, started), s);
    }

    method CallStart(ghost want: Config, ghost was: Config) returns (ret: Ret)
      requires Valid() && handler == Start(want, was)
      modifies this`started, this`handler, this`run
      ensures Valid() && handler == if ret == Error then UnlockFailed(want, was, AtStart) else Record(want, was)
    {
      hide Keeps, SameFrames, RepliesGrow, Run, CanRun, ApplyInit, ApplyText, ApplyWorker;
      ghost var s := Abs();
      ret := DriverStart();
      handler := if ret == Error then UnlockFailed(want, was, AtStart) else Record(want, was);
      Log(HandlerStep(ret, started), s);
    }

    /** The success exit: record, publish, unlock, and report the status. */
    method Commit(want: Config, ghost was: Config) returns (ghost reply: Reply)
      requires Valid() && handler == Record(want, was)
      modifies this
      ensures Valid() && handler == Idle && replies == old(replies) + [reply] && okFrames == old(okFrames)
      ensures reply.ConfigApplied? && reply == ConfigApplied(want, was, recorded, actual, reply.shown)
    {
      hide Apply, Enabled, Run, CanRun, Initial, Valid, Abs;
      Publish(want, was);
      ReleaseLock(Status(want, was));
      Others();
      reply := ReportStatus();
    }

    method Publish(want: Config, ghost was: Config)
      requires Valid() && handler == Record(want, was)
      modifies this`recorded, this`ready, this`run, this`handler
      ensures Valid() && handler == Unlock(want, was)
    {
      hide Keeps, SameFrames, RepliesGrow, Run, CanRun, ApplyInit, ApplyText, ApplyWorker;
      ghost var s := Abs();
      recorded := want;
      ready := true;
      handler := Unlock(want, was);
      Log(HandlerStep(Success, true), s);
    }

    /** can_bridge_format_status: the controller's state is read under the mutex, and the answer is
        a status or `can_status_failed`, on request or for an applied configuration. */
    method ReportStatus() returns (ghost reply: Reply)
      requires Valid() && Reporting(handler)
      modifies this`txQueue, this`lock, this`worker, this`handed, this`run, this`handler, this`replies
      ensures Valid() && handler == Idle && replies == old(replies) + [reply]
      ensures match old(handler)
        case Status(w, p) => reply.ConfigApplied? && reply == ConfigApplied(w, p, recorded, actual, reply.shown)
        case _ => reply.StatusText?
    {
      hide Keeps, SameFrames, RepliesGrow, Run, CanRun, ApplyInit, ApplyText, ApplyWorker;
      AwaitLock();
      var ret := DriverResult();
      ghost var s := Abs();
      reply := if handler.Status? then ConfigApplied(handler.want, handler.was, recorded, actual, ret != Error)
               else StatusText(ret != Error);
      handler, replies := Idle, replies + [reply];
      Log(HandlerStep(ret, started), s);
    }

    /** The error exit: unlock, lock again, restart, and publish the flag if it worked. */
    method Recover(ghost want: Config, ghost was: Config, ghost at: Stage) returns (ghost reply: Reply)
      requires Valid() && handler == UnlockFailed(want, was, at)
      modifies this
      ensures Valid() && handler == Idle && replies == old(replies) + [reply] && okFrames == old(okFrames)
      ensures reply == ConfigFailed(want, was, recorded, actual, at, ready)
    {
      hide Apply, Enabled, Run, CanRun, Initial, Valid, Abs;
      LeaveAndReturn(want, was, at);
      var ret := CallRestart(want, was, at);
      Others();
      reply := Leave(want, was, at, ret != Error);
    }

    /** The section is left and, for the restart, entered again. */
    method LeaveAndReturn(ghost want: Config, ghost was: Config, ghost at: Stage)
      requires Valid() && handler == UnlockFailed(want, was, at)
      modifies this`ready, this`txQueue, this`lock, this`started, this`actual, this`init, this`worker, this`handed,
               this`run, this`handler
      ensures Valid() && handler == Restart(want, was, at)
    {
      hide Apply, Enabled, Run, CanRun, Initial, Valid, Abs;
      ReleaseLock(LockAgain(want, was, at));
      Others();
      TakeLock(Restart(want, was, at));
      Others();
    }

    method CallRestart(ghost want: Config, ghost was: Config, ghost at: Stage) returns (ret: Ret)
      requires Valid() && handler == Restart(want, was, at)
      modifies this`started, this`handler, this`run
      ensures Valid() && handler == HandlerPc.Publish(want, was, at, ret != Error)
    {
      hide Keeps, SameFrames, RepliesGrow, Run, CanRun, ApplyInit, ApplyText, ApplyWorker;
      ghost var s := Abs();
      ret := DriverStart();
      handler := HandlerPc.Publish(want, was, at, ret != Error);
      Log(HandlerStep(ret, started), s);
    }

    method Leave(ghost want: Config, ghost was: Config, ghost at: Stage, back: bool) returns (ghost reply: Reply)
      requires Valid() && handler == HandlerPc.Publish(want, was, at, back)
      modifies this`ready, this`lock, this`handler, this`replies, this`run
      ensures Valid() && handler == Idle && replies == old(replies) + [reply]
      ensures reply == ConfigFailed(want, was, recorded, actual, at, ready)
    {
      hide Keeps, SameFrames, RepliesGrow, Run, CanRun, ApplyInit, ApplyText, ApplyWorker, ApplyTransmit,
           ApplyCall, ApplyConfig, ApplyStatus;
      ghost var s := Abs();
      if back {
        ready := true;
      }
      lock := Nobody;
      reply := ConfigFailed(want, was, recorded, actual, at, ready);
      handler, replies := Idle, replies + [reply];
      Log(HandlerStep(Success, true), s);
    }

    /** handle_can_config_set after its arguments have been checked: success records the requested
        pair and leaves the controller with it, a failure leaves the recorded pair alone and the
        controller with what the calls before it have set. */
    method HandleConfigSet(want: Config) returns (ghost reply: Reply)
      requires Valid() && handler == Clear(want, recorded)
      modifies this
      ensures Valid() && handler == Idle && replies == old(replies) + [reply]
      ensures (reply.ConfigApplied? || reply.ConfigFailed?) && reply.want == want && reply.was == old(recorded)
      ensures reply.ConfigApplied? ==> recorded == want && actual == want
      ensures reply.ConfigFailed? ==> recorded == old(recorded) && reply.ready == ready
      ensures reply.ConfigFailed? ==> actual == Reached(want, old(actual), reply.at)
      ensures okFrames == old(okFrames)
    {
      hide Apply, Enabled, Run, CanRun, Initial, LastApplied, LastActual, Reached, Valid, Abs;
      ghost var was, answers := recorded, replies;
      ActualIsLast();
      EnterSection(want, was);
      var ret;
      ghost var at;
      ret, at := Reconfigure(want, was);
      Others();
      if ret == Error {
        reply := Recover(want, was, at);
      } else {
        reply := Commit(want, was);
      }
      LastAnswerTruthful();
      assert replies[..|replies| - 1] == answers;
    }

    /** AnswersTruthful and ConfigAlways at the end of the run so far. */
    lemma LastAnswerTruthful()
      requires Valid() && |replies| > 0
      ensures var r, before := replies[|replies| - 1], replies[..|replies| - 1];
        Truthful(r, LastApplied(before, start.recorded), LastActual(before, start.recorded))
    {
      AnswersTruthful(start, run);
    }

    lemma ActualIsLast()
      requires Valid() && handler.Clear?
      ensures actual == LastActual(replies, start.recorded)
    {
      ConfigAlways(start, run);
    }

    /** An answer given without touching shared state after the ready test. */
    method AnswerAtOnce(ghost request: Request, ghost reply: Reply)
      requires Valid() && handler == Idle
      requires request.Bad? && reply == if ready then Refused(request.code) else NotReady
      modifies this`replies, this`run
      ensures Valid() && replies == old(replies) + [reply]
    {
      hide Keeps, SameFrames, RepliesGrow, Run, CanRun, ApplyInit, ApplyHandler, ApplyWorker;
      ghost var s := Abs();
      replies := replies + [reply];
      Log(Text(request), s);
    }

    /** The step past the ready test with a request that goes on. */
    method Begin(ghost request: Request, ghost next: HandlerPc)
      requires Valid() && handler == Idle && ready
      requires request.Transmit? ==> ValidFrame(request.frame) && next == Put(request.frame)
      requires request.Configure? ==> next == Clear(request.want, recorded)
      requires request == Query ==> next == Asking
      requires !request.Bad?
      modifies this`handler, this`run
      ensures Valid() && handler == next
    {
      hide Keeps, SameFrames, RepliesGrow, Run, CanRun, ApplyInit, ApplyWorker, ValidFrame;
      ghost var s := Abs();
      handler := next;
      Log(Text(request), s);
    }

    /** k_msgq_put without waiting, and the answer: ok exactly if the frame went into the queue. */
    method Enqueue(frame: CanFrame) returns (queued: bool, ghost reply: Reply)
      requires Valid() && handler == Put(frame)
      modifies this
      ensures Valid() && handler == Idle && replies == old(replies) + [reply]
      ensures reply == if queued then TxOk(frame) else QueueFull
      ensures okFrames == if queued then old(okFrames) + [frame] else old(okFrames)
      ensures queued <==> |old(txQueue)| < 8
      ensures recorded == old(recorded)
    {
      hide Keeps, SameFrames, RepliesGrow, Run, CanRun, ApplyInit, ApplyWorker, ValidFrame, ApplyCall, ApplyConfig,
           ApplyRestart, ApplyStatus;
      ghost var s := Abs();
      queued := |txQueue| < CAN_TX_QUEUE_LEN;
      if !queued {
        reply := QueueFull;
        handler, replies := Idle, replies + [reply];
        Log(HandlerStep(Success, true), s);
        return;
      }
      txQueue := txQueue + [frame];
      handler := Accepted(frame);
      Log(HandlerStep(Success, true), s);
      Others();
      reply := AnswerQueued(frame);
    }

    method AnswerQueued(ghost frame: CanFrame) returns (ghost reply: Reply)
      requires Valid() && handler == Accepted(frame)
      modifies this`handler, this`replies, this`okFrames, this`run
      ensures Valid() && handler == Idle && reply == TxOk(frame)
      ensures replies == old(replies) + [reply] && okFrames == old(okFrames) + [frame]
    {
      hide Keeps, SameFrames, RepliesGrow, Run, CanRun, ApplyInit, ApplyText, ApplyWorker, ValidFrame, ApplyCall,
           ApplyConfig, ApplyRestart, ApplyStatus;
      ghost var s := Abs();
      reply := TxOk(frame);
      handler, replies, okFrames := Idle, replies + [reply], okFrames + [frame];
      Log(HandlerStep(Success, true), s);
    }

    /** can_bridge_handle_ws_text. The payload has been parsed; None stands for a parse error. One
        answer is given, it is of the kind the message calls for, and it says what was done. */
    method HandleWsText(payloadLen: nat, parsed: Option<Message>) returns (ghost reply: Reply)
      requires Valid() && handler == Idle && (parsed.Some? ==> Parsed(parsed.value))
      modifies this
      ensures Valid() && handler == Idle && replies == old(replies) + [reply]
      ensures Fitting(reply, old(ready), payloadLen, parsed, old(recorded))
      ensures okFrames == if reply.TxOk? then old(okFrames) + [reply.frame] else old(okFrames)
      ensures reply.ConfigApplied? ==>
        parsed.Some? && PairAskedFor(parsed.value, old(recorded), recorded) && actual == recorded
      ensures !reply.ConfigApplied? ==> recorded == old(recorded)
    {
      hide Apply, Enabled, Run, CanRun, Initial, Valid, Abs, ValidFrame, FollowsRules, Carries,
           Wanted, BadSetting, PairAskedFor, Breaks;
      if !ready {
        reply := NotReady;
        AnswerAtOnce(Bad(InvalidJson), reply);
        return;
      }
      if payloadLen >= CAN_WS_JSON_MAX {
        reply := Refused(PayloadTooLarge);
        AnswerAtOnce(Bad(PayloadTooLarge), reply);
        return;
      }
      if parsed.None? {
        reply := Refused(InvalidJson);
        AnswerAtOnce(Bad(InvalidJson), reply);
        return;
      }
      reply := Serve(parsed.value, payloadLen);
    }

    /** What is done for a message that was parsed, by its type. */
    method Serve(m: Message, ghost payloadLen: nat) returns (ghost reply: Reply)
      requires Valid() && handler == Idle && ready && Parsed(m) && payloadLen < CAN_WS_JSON_MAX
      modifies this
      ensures Valid() && handler == Idle && replies == old(replies) + [reply]
      ensures Fitting(reply, true, payloadLen, Some(m), old(recorded))
      ensures okFrames == if reply.TxOk? then old(okFrames) + [reply.frame] else old(okFrames)
      ensures reply.ConfigApplied? ==> PairAskedFor(m, old(recorded), recorded) && actual == recorded
      ensures !reply.ConfigApplied? ==> recorded == old(recorded)
    {
      hide Apply, Enabled, Run, CanRun, Initial, Valid, Abs, ValidFrame, FollowsRules, Carries,
           Wanted, BadSetting, PairAskedFor, Breaks;
      if TypeField in m.fields {
        if m.typ == "can.status" || m.typ == "can.config.get" {
          Begin(Query, Asking);
          Others();
          reply := ReportStatus();
          return;
        }
        if m.typ == "can.config.set" {
          var want := Wanted(m, recorded);
          WantedIs(m, recorded);
          if want.None? {
            reply := Refused(BadSetting(m));
            AnswerAtOnce(Bad(BadSetting(m)), reply);
            return;
          }
          Begin(Configure(want.value), Clear(want.value, recorded));
          Others();
          reply := HandleConfigSet(want.value);
          return;
        }
        if m.typ != "can.tx" {
          reply := Refused(UnsupportedType);
          AnswerAtOnce(Bad(UnsupportedType), reply);
          return;
        }
      }
      reply := Send(m);
    }

    /** The rest of can_bridge_handle_ws_text, for a message that is to be transmitted. */
    method Send(m: Message) returns (ghost reply: Reply)
      requires Valid() && handler == Idle && ready && Parsed(m)
      modifies this
      ensures Valid() && handler == Idle && replies == old(replies) + [reply] && recorded == old(recorded)
      ensures reply.TxOk? || reply == QueueFull || reply.Refused?
      ensures reply.Refused? <==> !FollowsRules(m)
      ensures reply.Refused? ==> reply.code.Broken? && Breaks(m, reply.code.rule)
      ensures reply.TxOk? ==> ValidFrame(reply.frame) && Carries(reply.frame, m)
      ensures okFrames == if reply.TxOk? then old(okFrames) + [reply.frame] else old(okFrames)
    {
      hide Apply, Enabled, Run, CanRun, Initial, Valid, Abs, ValidFrame, FollowsRules, Carries, Breaks;
      var refusal := Validate(m);
      if refusal.Some? {
        reply := Refused(Broken(refusal.value));
        AnswerAtOnce(Bad(Broken(refusal.value)), reply);
        return;
      }
      var frame := BuildFrame(m);
      Begin(Transmit(frame), Put(frame));
      Others();
      var queued;
      queued, reply := Enqueue(frame);
    }
  }
}
