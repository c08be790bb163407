/** The CAN bridge as a state machine: the main thread's initialization, the WebSocket thread's
    message handler and the TX worker. A step is one access to shared state, or several that no other
    thread can tell apart: recording a pair and setting the flag inside the mutex, leaving the mutex
    and answering, and reading the controller's state between lock and unlock. */
module CanMachine {
  import opened CanFrames

  const CAN_TX_QUEUE_LEN: nat := 8

  datatype Mode = Normal | Loopback | ListenOnly

  datatype Config = Config(mode: Mode, bitrate: nat)

  /** What a driver call returns: 0, -EALREADY, or another error. */
  datatype Ret = Success | Already | Error

  datatype Owner = Nobody | Handler | Worker

  /** can_bridge_init. */
  datatype InitPc = InitMode | InitStart | InitFilter | InitPublish | InitSpawn | InitDone | InitFailed

  /** Which call of handle_can_config_set failed. */
  datatype Stage = AtStop | AtSetMode | AtSetBitrate | AtStart

  /** The message handler. A configuration request carries the pair recorded when it began. */
  datatype HandlerPc =
    | Idle
    | Asking
    | Put(frame: CanFrame)
    | Accepted(frame: CanFrame)
    | Clear(want: Config, was: Config)
    | Lock(want: Config, was: Config)
    | Stop(want: Config, was: Config)
    | SetMode(want: Config, was: Config)
    | SetBitrate(want: Config, was: Config)
    | Start(want: Config, was: Config)
    | Record(want: Config, was: Config)
    | Unlock(want: Config, was: Config)
    | UnlockFailed(want: Config, was: Config, at: Stage)
    | LockAgain(want: Config, was: Config, at: Stage)
    | Restart(want: Config, was: Config, at: Stage)
    | Publish(want: Config, was: Config, at: Stage, back: bool)
    | Status(want: Config, was: Config)

  datatype WorkerPc = Unborn | Waiting | Holding(frame: CanFrame) | Sending(frame: CanFrame) | Done

  /** What the handler answers. `ConfigFailed` and `ConfigApplied` also note the pair recorded when
      the request began, the pair recorded at the answer, and the controller's pair then. A status
      is shown, or reported as unreadable, on request and after a configuration was applied. */
  datatype Reply =
    | NotReady | Refused(code: Code) | QueueFull | StatusText(shown: bool)
    | TxOk(frame: CanFrame)
    | ConfigFailed(want: Config, was: Config, recorded: Config, actual: Config, at: Stage, ready: bool)
    | ConfigApplied(want: Config, was: Config, recorded: Config, actual: Config, shown: bool)

  datatype State = State(
    ready: bool, recorded: Config, txQueue: seq<CanFrame>, lock: Owner,
    started: bool, actual: Config,
    init: InitPc, handler: HandlerPc, worker: WorkerPc,
    replies: seq<Reply>, okFrames: seq<CanFrame>, handed: seq<CanFrame>)

  /** What a text message comes to once parsed and, for a frame, validated. */
  datatype Request = Transmit(frame: CanFrame) | Configure(want: Config) | Query | Bad(code: Code)

  /** One step of one thread. `ret` and `running` are the driver's choices: the result of the call
      and, if it fails, whether the controller is running afterwards. */
  datatype Event =
    | InitStep(ret: Ret, running: bool)
    | Text(request: Request)
    | HandlerStep(ret: Ret, running: bool)
    | WorkerStep

  ghost predicate Initial(s: State)
  {
    && !s.ready && s.txQueue == [] && s.lock == Nobody && s.recorded.mode == Normal
    && s.recorded.bitrate == s.actual.bitrate
    && s.init == InitMode && s.handler == Idle && s.worker == Unborn
    && s.replies == [] && s.okFrames == [] && s.handed == []
  }

  /** The driver answers a start with -EALREADY exactly when running. */
  predicate StartRet(s: State, ret: Ret)
  {
    ret == Already <==> s.started
  }

  predicate StopRet(s: State, ret: Ret)
  {
    ret == Already <==> !s.started
  }

  predicate Enabled(s: State, e: Event)
  {
    match e
    case InitStep(ret, _) =>
      (match s.init
       case InitDone => false
       case InitFailed => false
       case InitStart => StartRet(s, ret)
       case _ => ret != Already)
    case Text(request) =>
      s.handler == Idle && (request.Transmit? ==> ValidFrame(request.frame))
    case HandlerStep(ret, _) =>
      (match s.handler
       case Idle => false
       case Lock(_, _) => s.lock == Nobody
       case LockAgain(_, _, _) => s.lock == Nobody
       case Status(_, _) => s.lock == Nobody && ret != Already
       case Asking => s.lock == Nobody && ret != Already
       case Stop(_, _) => StopRet(s, ret)
       case Start(_, _) => StartRet(s, ret)
       case Restart(_, _, _) => StartRet(s, ret)
       case _ => ret != Already)
    case WorkerStep =>
      (match s.worker
       case Unborn => false
       case Waiting => |s.txQueue| > 0
       case Holding(_) => s.lock == Nobody
       case _ => true)
  }

  function Snoc(replies: seq<Reply>, r: Reply): seq<Reply>
  {
    replies + [r]
  }

  function AfterStart(s: State, ret: Ret, running: bool): bool
  {
    if ret == Error then running else true
  }

  function AfterStop(s: State, ret: Ret, running: bool): bool
  {
    if ret == Error then running else false
  }

  /** The frame the worker has taken from the queue and not yet given to the driver. */
  function Held(w: WorkerPc): seq<CanFrame>
  {
    match w
    case Holding(f) => [f]
    case Sending(f) => [f]
    case _ => []
  }

  /** The frame enqueued whose answer is still to come. */
  function Unanswered(h: HandlerPc): seq<CanFrame>
  {
    match h
    case Accepted(f) => [f]
    case _ => []
  }

  /** The steps that leave the queue, the worker and the answers of frames alone. */
  predicate SameFrames(s: State, t: State)
  {
    && t.txQueue == s.txQueue && t.okFrames == s.okFrames && t.handed == s.handed
    && Held(t.worker) == Held(s.worker) && Unanswered(t.handler) == Unanswered(s.handler)
    && (t.handler.Put? || t.handler.Accepted? ==> t.handler == s.handler)
  }

  /** A step that answers appends one reply and, with it, its frame if it says ok. */
  predicate RepliesGrow(s: State, t: State)
  {
    || (t.replies == s.replies && t.okFrames == s.okFrames)
    || (|t.replies| == |s.replies| + 1 && t.replies[..|s.replies|] == s.replies &&
        var r := t.replies[|s.replies|];
        t.okFrames == if r.TxOk? then s.okFrames + [r.frame] else s.okFrames)
  }

  /** The handler is between its lock and its unlock. */
  predicate HandlerLocks(h: HandlerPc)
  {
    h.Stop? || h.SetMode? || h.SetBitrate? || h.Start? || h.Record? || h.Unlock? || h.UnlockFailed? ||
    h.Restart? || h.Publish?
  }

  predicate WorkerLocks(w: WorkerPc)
  {
    w.Sending? || w == Done
  }

  /** The handler is reconfiguring and has cleared the ready flag. */
  predicate Reconfiguring(h: HandlerPc)
  {
    h.Lock? || h.Stop? || h.SetMode? || h.SetBitrate? || h.Start? || h.Record? || h.UnlockFailed? ||
    h.LockAgain? || h.Restart? || h.Publish?
  }

  /** The mutex is held by whoever is inside a section. */
  predicate LockInv(s: State)
  {
    && (s.lock == Handler <==> HandlerLocks(s.handler))
    && (s.lock == Worker <==> WorkerLocks(s.worker))
    && (s.worker == Unborn <==> s.init != InitDone)
  }

  /** The handler is past the ready test and has not cleared the flag, or has set it again. */
  predicate Serving(h: HandlerPc)
  {
    h.Unlock? || h.Status? || h == Asking || h.Put? || h.Accepted? || h.Clear?
  }

  predicate ReadyInv(s: State)
  {
    && (s.ready ==> s.started && !Reconfiguring(s.handler))
    && (s.handler != Idle ==> s.init == InitSpawn || s.init == InitDone)
    && (s.ready ==> s.init == InitSpawn || s.init == InitDone)
    && (s.init == InitFilter || s.init == InitPublish ==> s.started)
    && (s.handler.SetMode? || s.handler.SetBitrate? || s.handler.Start? ==> !s.started)
    && (s.handler.Record? ==> s.started)
    && (Serving(s.handler) ==> s.ready)
    && (s.handler.Publish? ==> (s.handler.back ==> s.started))
  }

  /** Every frame answered ok, or about to be, is handed over, held, or queued, in order. */
  predicate FifoInv(s: State)
  {
    && s.okFrames + Unanswered(s.handler) == s.handed + Held(s.worker) + s.txQueue
    && |s.txQueue| <= CAN_TX_QUEUE_LEN
  }

  predicate FramesInv(s: State)
  {
    && (forall i :: 0 <= i < |s.txQueue| ==> ValidFrame(s.txQueue[i]))
    && (forall i :: 0 <= i < |s.okFrames| ==> ValidFrame(s.okFrames[i]))
    && (forall i :: 0 <= i < |s.handed| ==> ValidFrame(s.handed[i]))
    && (forall f :: f in Held(s.worker) ==> ValidFrame(f))
    && (s.handler.Put? || s.handler.Accepted? ==> ValidFrame(s.handler.frame))
  }

  /** What a step of a thread must keep, given that the driver and the mutex let it happen. */
  predicate Keeps(s: State, t: State)
  {
    && (LockInv(s) ==> LockInv(t))
    && (LockInv(s) && ReadyInv(s) ==> ReadyInv(t))
    && (LockInv(s) && FramesInv(s) ==> FramesInv(t))
  }

  function Apply(s: State, e: Event): State
    requires Enabled(s, e)
  {
    match e
    case InitStep(ret, running) => ApplyInit(s, ret, running)
    case Text(request) => ApplyText(s, request)
    case HandlerStep(ret, running) => ApplyHandler(s, ret, running)
    case WorkerStep => ApplyWorker(s)
  }

  function ApplyInit(s: State, ret: Ret, running: bool): (t: State)
    requires Enabled(s, InitStep(ret, running))
    ensures Keeps(s, t) && (LockInv(s) ==> SameFrames(s, t))
    ensures t.replies == s.replies && t.okFrames == s.okFrames
  {
    hide ValidFrame;
    match s.init
    case InitMode =>
      if ret == Error then s.(init := InitFailed)
      else s.(init := InitStart, actual := s.actual.(mode := s.recorded.mode))
    case InitStart =>
      var t := s.(started := AfterStart(s, ret, running));
      if ret == Error then t.(init := InitFailed) else t.(init := InitFilter)
    case InitFilter => s.(init := if ret == Error then InitFailed else InitPublish)
    case InitPublish => s.(init := InitSpawn, ready := true)
    case InitSpawn => s.(init := InitDone, worker := Waiting)
    case _ => s
  }

  /** can_bridge_handle_ws_text up to its first access after the ready test. */
  function ApplyText(s: State, request: Request): (t: State)
    requires Enabled(s, Text(request))
    ensures Keeps(s, t)
  {
    if !s.ready then s.(replies := Snoc(s.replies, NotReady))
    else match request
      case Transmit(f) => s.(handler := Put(f))
      case Configure(want) => s.(handler := Clear(want, s.recorded))
      case Query => s.(handler := Asking)
      case Bad(code) => s.(replies := Snoc(s.replies, Refused(code)))
  }

  function ApplyHandler(s: State, ret: Ret, running: bool): (t: State)
    requires Enabled(s, HandlerStep(ret, running))
    ensures Keeps(s, t)
  {
    if s.handler.Put? || s.handler.Accepted? then ApplyTransmit(s)
    else if Calling(s.handler) then ApplyCall(s, ret, running)
    else if Failing(s.handler) then ApplyRestart(s, ret, running)
    else if Reporting(s.handler) then ApplyStatus(s, ret)
    else ApplyConfig(s)
  }

  /** k_msgq_put and the answer to a frame. */
  function ApplyTransmit(s: State): (t: State)
    requires s.handler.Put? || s.handler.Accepted?
    ensures Keeps(s, t)
  {
    var f := s.handler.frame;
    if s.handler.Accepted? then
      s.(handler := Idle, replies := Snoc(s.replies, TxOk(f)), okFrames := s.okFrames + [f])
    else if |s.txQueue| >= CAN_TX_QUEUE_LEN then s.(handler := Idle, replies := Snoc(s.replies, QueueFull))
    else s.(handler := Accepted(f), txQueue := s.txQueue + [f])
  }

  /** The four driver calls of handle_can_config_set. */
  predicate Calling(h: HandlerPc)
  {
    h.Stop? || h.SetMode? || h.SetBitrate? || h.Start?
  }

  function ApplyCall(s: State, ret: Ret, running: bool): (t: State)
    requires Enabled(s, HandlerStep(ret, running)) && Calling(s.handler)
    ensures Keeps(s, t) && SameFrames(s, t) && t.replies == s.replies
  {
    if s.handler.Stop? || s.handler.Start? then ApplySwitch(s, ret, running) else ApplySetting(s, ret)
  }

  function ApplySwitch(s: State, ret: Ret, running: bool): (t: State)
    requires s.handler.Stop? || s.handler.Start?
    ensures Keeps(s, t) && SameFrames(s, t) && t.replies == s.replies
  {
    var w, p := s.handler.want, s.handler.was;
    if s.handler.Stop? then
      s.(handler := if ret == Error then UnlockFailed(w, p, AtStop) else SetMode(w, p),
         started := AfterStop(s, ret, running))
    else
      s.(handler := if ret == Error then UnlockFailed(w, p, AtStart) else Record(w, p),
         started := AfterStart(s, ret, running))
  }

  function ApplySetting(s: State, ret: Ret): (t: State)
    requires s.handler.SetMode? || s.handler.SetBitrate?
    ensures Keeps(s, t) && SameFrames(s, t) && t.replies == s.replies
  {
    var w, p := s.handler.want, s.handler.was;
    if s.handler.SetMode? then
      if ret == Error then s.(handler := UnlockFailed(w, p, AtSetMode))
      else s.(handler := SetBitrate(w, p), actual := s.actual.(mode := w.mode))
    else
      if ret == Error then s.(handler := UnlockFailed(w, p, AtSetBitrate))
      else s.(handler := Start(w, p), actual := s.actual.(bitrate := w.bitrate))
  }

  /** The rest of handle_can_config_set as long as nothing fails. */
  function ApplyConfig(s: State): (t: State)
    requires s.handler.Lock? ==> s.lock == Nobody
    requires !s.handler.Put? && !s.handler.Accepted?
    requires !Calling(s.handler) && !Failing(s.handler) && !Reporting(s.handler)
    ensures Keeps(s, t) && SameFrames(s, t) && t.replies == s.replies
  {
    match s.handler
    case Clear(w, p) => s.(handler := Lock(w, p), ready := false)
    case Lock(w, p) => s.(handler := Stop(w, p), lock := Handler)
    case Record(w, p) => s.(handler := Unlock(w, p), recorded := w, ready := true)
    case Unlock(w, p) => s.(handler := Status(w, p), lock := Nobody)
    case _ => s
  }

  /** can_bridge_format_status: can_get_state under the mutex, and the answer. */
  predicate Reporting(h: HandlerPc)
  {
    h.Status? || h == Asking
  }

  function ApplyStatus(s: State, ret: Ret): (t: State)
    requires Reporting(s.handler) && s.lock == Nobody
    ensures Keeps(s, t) && SameFrames(s, t) && RepliesGrow(s, t)
  {
    var r :=
      match s.handler
      case Status(w, p) => ConfigApplied(w, p, s.recorded, s.actual, ret != Error)
      case _ => StatusText(ret != Error);
    s.(handler := Idle, replies := Snoc(s.replies, r))
  }

  /** The error exit of handle_can_config_set, from its `out` label on. */
  predicate Failing(h: HandlerPc)
  {
    h.UnlockFailed? || h.LockAgain? || h.Restart? || h.Publish?
  }

  function ApplyRestart(s: State, ret: Ret, running: bool): (t: State)
    requires Enabled(s, HandlerStep(ret, running)) && Failing(s.handler)
    ensures Keeps(s, t) && SameFrames(s, t)
    ensures RepliesGrow(s, t)
  {
    match s.handler
    case UnlockFailed(w, p, at) => s.(handler := LockAgain(w, p, at), lock := Nobody)
    case LockAgain(w, p, at) => s.(handler := Restart(w, p, at), lock := Handler)
    case Restart(w, p, at) =>
      s.(handler := Publish(w, p, at, ret != Error), started := AfterStart(s, ret, running))
    case Publish(w, p, at, back) =>
      var r := s.ready || back;
      s.(handler := Idle, ready := r, lock := Nobody,
         replies := Snoc(s.replies, ConfigFailed(w, p, s.recorded, s.actual, at, r)))
    case _ => s
  }

  function ApplyWorker(s: State): (t: State)
    requires Enabled(s, WorkerStep)
    ensures Keeps(s, t)
    ensures t == s.(worker := t.worker, txQueue := t.txQueue, handed := t.handed, lock := t.lock)
  {
    match s.worker
    case Unborn => s
    case Waiting => if |s.txQueue| == 0 then s else s.(worker := Holding(s.txQueue[0]), txQueue := s.txQueue[1..])
    case Holding(f) => s.(worker := Sending(f), lock := Worker)
    case Sending(f) => s.(worker := Done, handed := s.handed + [f])
    case Done => s.(worker := Waiting, lock := Nobody)
  }

  /** The ok answers are exactly the frames answered ok. */
  function OkFrames(replies: seq<Reply>): seq<CanFrame>
  {
    if |replies| == 0 then []
    else
      var r := replies[|replies| - 1];
      OkFrames(replies[..|replies| - 1]) + if r.TxOk? then [r.frame] else []
  }

  predicate Inv(s: State)
  {
    LockInv(s) && ReadyInv(s) && FifoInv(s) && FramesInv(s) && s.okFrames == OkFrames(s.replies)
  }

  lemma OkFramesSnoc(replies: seq<Reply>, r: Reply)
    ensures OkFrames(replies + [r]) == OkFrames(replies) + if r.TxOk? then [r.frame] else []
  {
    assert (replies + [r])[..|replies|] == replies;
  }

  lemma InvInitially(s: State)
    requires Initial(s)
    ensures Inv(s)
  {
    assert s.okFrames + Unanswered(s.handler) == s.handed + Held(s.worker) + s.txQueue;
  }

  /** Only five kinds of step move a frame. */
  predicate MovesFrame(s: State, e: Event)
  {
    match e
    case InitStep(_, _) => false
    case Text(r) => r.Transmit? && s.ready
    case HandlerStep(_, _) => s.handler.Put? || s.handler.Accepted?
    case WorkerStep => s.worker == Waiting || s.worker.Sending?
  }

  lemma OthersSameFrames(s: State, e: Event)
    requires LockInv(s) && Enabled(s, e) && !MovesFrame(s, e)
    ensures SameFrames(s, Apply(s, e))
  {
    hide SameFrames, LockInv, ValidFrame, ApplyInit, ApplyText, ApplyHandler, ApplyWorker;
    match e
    case InitStep(_, _) =>
    case HandlerStep(ret, running) => HandlerSameFrames(s, ret, running);
    case Text(request) => TextSameFrames(s, request);
    case WorkerStep => WorkerSameFrames(s);
  }

  lemma TextSameFrames(s: State, request: Request)
    requires Enabled(s, Text(request)) && (request.Transmit? ==> !s.ready)
    ensures SameFrames(s, ApplyText(s, request))
  {
  }

  lemma WorkerSameFrames(s: State)
    requires Enabled(s, WorkerStep) && s.worker != Waiting && !s.worker.Sending?
    ensures SameFrames(s, ApplyWorker(s))
  {
  }

  lemma HandlerSameFrames(s: State, ret: Ret, running: bool)
    requires Enabled(s, HandlerStep(ret, running)) && !s.handler.Put? && !s.handler.Accepted?
    ensures SameFrames(s, ApplyHandler(s, ret, running))
  {
    hide ApplyConfig, ApplyCall, ApplyRestart, ApplyStatus, ApplyTransmit, SameFrames;
  }

  lemma FifoKept(s: State, e: Event)
    requires LockInv(s) && FifoInv(s) && Enabled(s, e)
    ensures FifoInv(Apply(s, e))
  {
    if !MovesFrame(s, e) {
      OthersSameFrames(s, e);
      hide Apply, MovesFrame, Enabled;
    } else if e.HandlerStep? {
      FifoKeptByHandler(s, e);
    } else if e.WorkerStep? {
      FifoKeptByWorker(s);
    }
  }

  lemma FifoKeptByHandler(s: State, e: Event)
    requires FifoInv(s) && Enabled(s, e) && e.HandlerStep? && (s.handler.Put? || s.handler.Accepted?)
    ensures FifoInv(Apply(s, e))
  {
    hide Held, ValidFrame;
    var f := s.handler.frame;
    var t := Apply(s, e);
    var before := s.handed + Held(s.worker);
    if t.handler.Accepted? {
      assert s.okFrames + [] == s.okFrames;
      assert t.okFrames + [f] == before + (s.txQueue + [f]);
    } else {
      assert t.okFrames + [] == t.okFrames;
      assert s.handler.Put? ==> s.okFrames + [] == s.okFrames;
    }
  }

  lemma FifoKeptByWorker(s: State)
    requires FifoInv(s) && Enabled(s, WorkerStep) && (s.worker == Waiting || s.worker.Sending?)
    ensures FifoInv(Apply(s, WorkerStep))
  {
    hide Unanswered;
    var t := Apply(s, WorkerStep);
    if s.worker == Waiting {
      assert s.txQueue == [s.txQueue[0]] + s.txQueue[1..];
      assert s.handed + [] + s.txQueue == s.handed + [s.txQueue[0]] + t.txQueue;
    } else {
      assert t.handed + [] == t.handed;
    }
  }

  lemma StepAnswers(s: State, e: Event)
    requires Enabled(s, e)
    ensures RepliesGrow(s, Apply(s, e))
  {
    hide ValidFrame, ApplyInit, ApplyHandler;
    match e
    case HandlerStep(ret, running) => HandlerAnswers(s, ret, running);
    case _ =>
  }

  lemma HandlerAnswers(s: State, ret: Ret, running: bool)
    requires Enabled(s, HandlerStep(ret, running))
    ensures RepliesGrow(s, ApplyHandler(s, ret, running))
  {
    hide ApplyConfig, ApplyCall, ApplyRestart, ApplyStatus;
  }

  lemma RepliesKept(s: State, e: Event)
    requires s.okFrames == OkFrames(s.replies) && Enabled(s, e)
    ensures Apply(s, e).okFrames == OkFrames(Apply(s, e).replies)
  {
    hide RepliesGrow, Apply, Enabled, OkFrames;
    StepAnswers(s, e);
    RepliesGrown(s, Apply(s, e));
  }

  lemma RepliesGrown(s: State, t: State)
    requires s.okFrames == OkFrames(s.replies) && RepliesGrow(s, t)
    ensures t.okFrames == OkFrames(t.replies)
  {
    if t.replies != s.replies {
      OkFramesSnoc(s.replies, t.replies[|s.replies|]);
      assert t.replies == s.replies + [t.replies[|s.replies|]];
      assert s.okFrames + [] == s.okFrames;
    }
  }

  lemma InvKept(s: State, e: Event)
    requires Inv(s) && Enabled(s, e)
    ensures Inv(Apply(s, e))
  {
    FifoKept(s, e);
    RepliesKept(s, e);
    hide LockInv, ReadyInv, FramesInv, FifoInv, ApplyInit, ApplyText, ApplyHandler, ApplyWorker;
  }

  /** A run: any list of enabled steps of the four threads, in any interleaving. */
  predicate CanRun(s: State, es: seq<Event>)
    decreases |es|, 0
  {
    |es| == 0 || (CanRun(s, es[..|es| - 1]) && Enabled(Run(s, es[..|es| - 1]), es[|es| - 1]))
  }

  function Run(s: State, es: seq<Event>): State
    requires CanRun(s, es)
    decreases |es|, 1
  {
    if |es| == 0 then s else Apply(Run(s, es[..|es| - 1]), es[|es| - 1])
  }

  lemma {:induction false} InvAlways(s: State, es: seq<Event>)
    requires Initial(s) && CanRun(s, es)
    ensures Inv(Run(s, es))
  {
    if |es| == 0 {
      InvInitially(s);
    } else {
      InvAlways(s, es[..|es| - 1]);
      InvKept(Run(s, es[..|es| - 1]), es[|es| - 1]);
    }
  }
}
