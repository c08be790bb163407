/** What holds over every run of the CAN bridge. */
module CanRuns {
  import opened CanFrames
  import opened CanMachine

  /** Conservation and order: at every moment of every run the frames answered ok (and the one
      whose answer is on its way) are those handed to the driver, the one the worker holds, and
      the queue, in this order; the queue holds at most eight; every one of these frames obeys the
      rules. */
  lemma FramesConserved(s: State, es: seq<Event>)
    requires Initial(s) && CanRun(s, es)
    ensures var t := Run(s, es);
      && OkFrames(t.replies) + Unanswered(t.handler) == t.handed + Held(t.worker) + t.txQueue
      && |t.txQueue| <= 8
      && (forall i :: 0 <= i < |t.handed| ==> ValidFrame(t.handed[i]))
      && (forall f :: f in Held(t.worker) ==> ValidFrame(f))
      && (forall i :: 0 <= i < |t.txQueue| ==> ValidFrame(t.txQueue[i]))
  {
    hide ValidFrame, LockInv, ReadyInv, Run, CanRun;
    InvAlways(s, es);
  }

  /** No frame is given to the driver inside a reconfiguration section, and a set ready flag means
      a running controller. */
  lemma SectionsExclude(s: State, es: seq<Event>)
    requires Initial(s) && CanRun(s, es)
    ensures var t := Run(s, es);
      && !(WorkerLocks(t.worker) && HandlerLocks(t.handler))
      && (t.ready ==> t.started)
      && (t.ready ==> !Reconfiguring(t.handler))
  {
    InvAlways(s, es);
  }

  /** The second start of a reconfiguration never finds the controller running. */
  lemma StartNeverAlready(s: State, es: seq<Event>, ret: Ret, running: bool)
    requires Initial(s) && CanRun(s, es)
    requires Run(s, es).handler.Start? && Enabled(Run(s, es), HandlerStep(ret, running))
    ensures ret != Already
  {
    InvAlways(s, es);
  }

  /** The pair the controller has reached when a reconfiguration fails at a stage. */
  function Reached(want: Config, before: Config, at: Stage): Config
  {
    match at
    case AtStop => before
    case AtSetMode => before
    case AtSetBitrate => Config(want.mode, before.bitrate)
    case AtStart => want
  }

  /** The pair of the last request answered as applied, or else the initial one. */
  function LastApplied(replies: seq<Reply>, initial: Config): Config
  {
    if |replies| == 0 then initial
    else
      var r := replies[|replies| - 1];
      if r.ConfigApplied? then r.want else LastApplied(replies[..|replies| - 1], initial)
  }

  /** The pair the driver calls of all requests answered have left the controller with. */
  function LastActual(replies: seq<Reply>, initial: Config): Config
  {
    if |replies| == 0 then initial
    else
      var r := replies[|replies| - 1];
      var before := LastActual(replies[..|replies| - 1], initial);
      if r.ConfigApplied? then r.want else if r.ConfigFailed? then Reached(r.want, before, r.at) else before
  }

  /** An answer to a configuration request tells the truth, given the recorded and the
      controller's pair before it. */
  predicate Truthful(r: Reply, recorded: Config, actual: Config)
  {
    && (r.ConfigApplied? ==> r.was == recorded && r.recorded == r.want && r.actual == r.want)
    && (r.ConfigFailed? ==> r.was == recorded && r.recorded == recorded && r.actual == Reached(r.want, actual, r.at))
  }

  predicate AllTruthful(replies: seq<Reply>, initial: Config)
  {
    forall i :: 0 <= i < |replies| ==>
      Truthful(replies[i], LastApplied(replies[..i], initial), LastActual(replies[..i], initial))
  }

  /** The recorded and the controller's pair as far as the handler has come, given those after the
      last answer. */
  predicate PairOk(s: State, r: Config, a: Config)
  {
    match s.handler
    case SetBitrate(w, p) => s.recorded == p == r && s.actual == Config(w.mode, a.bitrate)
    case Start(w, p) => s.recorded == p == r && s.actual == w
    case Record(w, p) => s.recorded == p == r && s.actual == w
    case Unlock(w, p) => s.recorded == w && s.actual == w && p == r
    case Status(w, p) => s.recorded == w && s.actual == w && p == r
    case UnlockFailed(w, p, at) => s.recorded == p == r && s.actual == Reached(w, a, at)
    case LockAgain(w, p, at) => s.recorded == p == r && s.actual == Reached(w, a, at)
    case Restart(w, p, at) => s.recorded == p == r && s.actual == Reached(w, a, at)
    case Publish(w, p, at, _) => s.recorded == p == r && s.actual == Reached(w, a, at)
    case Clear(_, p) => s.recorded == p == r && s.actual == a
    case Lock(_, p) => s.recorded == p == r && s.actual == a
    case Stop(_, p) => s.recorded == p == r && s.actual == a
    case SetMode(_, p) => s.recorded == p == r && s.actual == a
    case _ => s.recorded == r && (s.init != InitMode && s.init != InitFailed ==> s.actual == a)
  }

  predicate PairInv(s: State, initial: Config)
  {
    PairOk(s, LastApplied(s.replies, initial), LastActual(s.replies, initial))
  }

  /** Before the first message can be answered with a configuration, the initial pair stands. */
  predicate EarlyInv(s: State, initial: Config)
  {
    && (s.init == InitMode ==>
        s.recorded.bitrate == s.actual.bitrate && LastActual(s.replies, initial) == s.recorded)
    && (s.init == InitMode || s.init == InitFailed ==> s.handler == Idle)
  }

  predicate ConfigInv(s: State, initial: Config)
  {
    PairInv(s, initial) && EarlyInv(s, initial) && AllTruthful(s.replies, initial)
  }

  lemma LastSnoc(replies: seq<Reply>, r: Reply, initial: Config)
    ensures var rs := Snoc(replies, r);
      && LastApplied(rs, initial) == (if r.ConfigApplied? then r.want else LastApplied(replies, initial))
      && LastActual(rs, initial) ==
         (if r.ConfigApplied? then r.want
          else if r.ConfigFailed? then Reached(r.want, LastActual(replies, initial), r.at)
          else LastActual(replies, initial))
  {
    assert (replies + [r])[..|replies|] == replies;
  }

  lemma TruthfulSnoc(replies: seq<Reply>, r: Reply, initial: Config)
    requires AllTruthful(replies, initial)
    requires Truthful(r, LastApplied(replies, initial), LastActual(replies, initial))
    ensures AllTruthful(Snoc(replies, r), initial)
  {
    var all := replies + [r];
    forall i | 0 <= i < |all|
      ensures Truthful(all[i], LastApplied(all[..i], initial), LastActual(all[..i], initial))
    {
      if i < |replies| {
        assert all[..i] == replies[..i];
      } else {
        assert all[..i] == replies;
      }
    }
  }

  /** An answer that is not about a configuration leaves the account as it was. */
  lemma OtherReply(replies: seq<Reply>, r: Reply, initial: Config)
    requires AllTruthful(replies, initial) && !r.ConfigApplied? && !r.ConfigFailed?
    ensures AllTruthful(Snoc(replies, r), initial)
    ensures LastApplied(Snoc(replies, r), initial) == LastApplied(replies, initial)
    ensures LastActual(Snoc(replies, r), initial) == LastActual(replies, initial)
  {
    LastSnoc(replies, r, initial);
    TruthfulSnoc(replies, r, initial);
  }

  lemma ConfigKeptByInit(s: State, ret: Ret, running: bool, initial: Config)
    requires ReadyInv(s) && ConfigInv(s, initial) && Enabled(s, InitStep(ret, running))
    ensures ConfigInv(ApplyInit(s, ret, running), initial)
  {
    hide AllTruthful, LastApplied, LastActual, Reached, Keeps, SameFrames;
  }

  lemma ConfigKeptByText(s: State, r: Request, initial: Config)
    requires ReadyInv(s) && ConfigInv(s, initial) && Enabled(s, Text(r))
    ensures ConfigInv(ApplyText(s, r), initial)
  {
    OtherReply(s.replies, NotReady, initial);
    if r.Bad? {
      OtherReply(s.replies, Refused(r.code), initial);
    }
    hide AllTruthful, LastApplied, LastActual, Reached, Keeps, ValidFrame, Snoc;
  }

  lemma ConfigKeptByTransmit(s: State, initial: Config)
    requires ReadyInv(s) && ConfigInv(s, initial) && (s.handler.Put? || s.handler.Accepted?)
    ensures ConfigInv(ApplyTransmit(s), initial)
  {
    OtherReply(s.replies, QueueFull, initial);
    OtherReply(s.replies, TxOk(s.handler.frame), initial);
    hide AllTruthful, LastApplied, LastActual, Reached, Keeps, Snoc;
  }

  lemma ConfigKeptByCall(s: State, ret: Ret, running: bool, initial: Config)
    requires ConfigInv(s, initial) && Enabled(s, HandlerStep(ret, running)) && Calling(s.handler)
    ensures ConfigInv(ApplyCall(s, ret, running), initial)
  {
    hide AllTruthful, LastApplied, LastActual, Keeps, SameFrames;
  }

  lemma ConfigKeptByConfig(s: State, initial: Config)
    requires ReadyInv(s) && ConfigInv(s, initial) && (s.handler.Lock? ==> s.lock == Nobody)
    requires !s.handler.Put? && !s.handler.Accepted?
    requires !Calling(s.handler) && !Failing(s.handler) && !Reporting(s.handler)
    ensures ConfigInv(ApplyConfig(s), initial)
  {
    hide AllTruthful, LastApplied, LastActual, Reached, Keeps, SameFrames;
  }

  lemma ConfigKeptByStatus(s: State, ret: Ret, initial: Config)
    requires ReadyInv(s) && ConfigInv(s, initial) && Reporting(s.handler) && s.lock == Nobody
    ensures ConfigInv(ApplyStatus(s, ret), initial)
  {
    if s.handler.Status? {
      ConfigKeptByApplied(s, ret, initial);
    } else {
      OtherReply(s.replies, StatusText(ret != Error), initial);
      hide AllTruthful, LastApplied, LastActual, Reached, Keeps, SameFrames, RepliesGrow, Snoc;
    }
  }

  lemma ConfigKeptByApplied(s: State, ret: Ret, initial: Config)
    requires ReadyInv(s) && ConfigInv(s, initial) && s.handler.Status? && s.lock == Nobody
    ensures ConfigInv(ApplyStatus(s, ret), initial)
  {
    hide AllTruthful, LastApplied, LastActual, Reached, Keeps, SameFrames, RepliesGrow, Snoc;
    var r := ConfigApplied(s.handler.want, s.handler.was, s.recorded, s.actual, ret != Error);
    LastSnoc(s.replies, r, initial);
    TruthfulSnoc(s.replies, r, initial);
  }

  lemma ConfigKeptByRestart(s: State, ret: Ret, running: bool, initial: Config)
    requires ReadyInv(s) && ConfigInv(s, initial) && Enabled(s, HandlerStep(ret, running)) && Failing(s.handler)
    ensures ConfigInv(ApplyRestart(s, ret, running), initial)
  {
    hide AllTruthful, LastApplied, LastActual, Reached, Keeps, SameFrames, RepliesGrow, Snoc;
    if s.handler.Publish? {
      var h := s.handler;
      var r := ConfigFailed(h.want, h.was, s.recorded, s.actual, h.at, s.ready || h.back);
      LastSnoc(s.replies, r, initial);
      TruthfulSnoc(s.replies, r, initial);
    }
  }

  lemma ConfigKeptByWorker(s: State, initial: Config)
    requires ConfigInv(s, initial) && Enabled(s, WorkerStep)
    ensures ConfigInv(ApplyWorker(s), initial)
  {
    hide AllTruthful, LastApplied, LastActual, Keeps;
  }

  lemma ConfigKept(s: State, e: Event, initial: Config)
    requires ReadyInv(s) && ConfigInv(s, initial) && Enabled(s, e)
    ensures ConfigInv(Apply(s, e), initial)
  {
    hide ReadyInv, ConfigInv, ApplyInit, ApplyText, ApplyTransmit, ApplyCall, ApplyConfig, ApplyStatus,
         ApplyRestart, ApplyWorker;
    match e
    case InitStep(ret, running) => ConfigKeptByInit(s, ret, running, initial);
    case Text(r) => ConfigKeptByText(s, r, initial);
    case HandlerStep(ret, running) => ConfigKeptByHandler(s, ret, running, initial);
    case WorkerStep => ConfigKeptByWorker(s, initial);
  }

  lemma ConfigKeptByHandler(s: State, ret: Ret, running: bool, initial: Config)
    requires ReadyInv(s) && ConfigInv(s, initial) && Enabled(s, HandlerStep(ret, running))
    ensures ConfigInv(ApplyHandler(s, ret, running), initial)
  {
    hide ReadyInv, ConfigInv, ApplyTransmit, ApplyCall, ApplyConfig, ApplyStatus, ApplyRestart;
    if s.handler.Put? || s.handler.Accepted? {
      ConfigKeptByTransmit(s, initial);
    } else if Calling(s.handler) {
      ConfigKeptByCall(s, ret, running, initial);
    } else if Failing(s.handler) {
      ConfigKeptByRestart(s, ret, running, initial);
    } else if Reporting(s.handler) {
      ConfigKeptByStatus(s, ret, initial);
    } else {
      ConfigKeptByConfig(s, initial);
    }
  }

  lemma {:induction false} ConfigAlways(s: State, es: seq<Event>)
    requires Initial(s) && CanRun(s, es)
    ensures ConfigInv(Run(s, es), s.recorded)
  {
    hide ConfigInv, Inv, Apply, Enabled;
    if |es| == 0 {
      ConfigInitially(s);
    } else {
      var front := es[..|es| - 1];
      ConfigAlways(s, front);
      InvAlways(s, front);
      ReadyOfInv(Run(s, front));
      ConfigKept(Run(s, front), es[|es| - 1], s.recorded);
    }
  }

  lemma ReadyOfInv(s: State)
    requires Inv(s)
    ensures ReadyInv(s)
  {
  }

  lemma ConfigInitially(s: State)
    requires Initial(s)
    ensures ConfigInv(s, s.recorded)
  {
  }

  /** Every answer to a configuration request, in every run: its `was` is the pair of the last
      success before it; after a success the requested pair is recorded and the controller's; after
      `can_config_failed` the recorded pair is untouched, and the controller has what the calls that
      succeeded made of the pair it really had before. */
  lemma {:induction false} AnswersTruthful(s: State, es: seq<Event>)
    requires Initial(s) && CanRun(s, es)
    ensures AllTruthful(Run(s, es).replies, s.recorded)
  {
    ConfigAlways(s, es);
  }

  /** In every run the recorded pair is that of the last request answered as applied, or the
      initial one, but for the moment between recording a pair and answering; and between two
      requests the controller's pair is the one all requests so far have left it with. */
  lemma {:induction false} RecordedIsLastApplied(s: State, es: seq<Event>)
    requires Initial(s) && CanRun(s, es)
    ensures var t := Run(s, es);
      && t.recorded ==
         (if t.handler.Unlock? || t.handler.Status? then t.handler.want else LastApplied(t.replies, s.recorded))
      && (t.handler == Idle && t.init != InitMode && t.init != InitFailed ==>
          t.actual == LastActual(t.replies, s.recorded))
  {
    hide LastApplied, LastActual, AllTruthful, Reached, Run, CanRun;
    ConfigAlways(s, es);
  }

  /** If recorded and actual pair agreed before a failed request, they still agree exactly when it
      failed before the mode was set, or the calls that succeeded changed nothing. */
  lemma AgreementAfterFailure(s: State, es: seq<Event>, i: nat)
    requires Initial(s) && CanRun(s, es)
    requires var rs := Run(s, es).replies;
      i < |rs| && rs[i].ConfigFailed? && LastApplied(rs[..i], s.recorded) == LastActual(rs[..i], s.recorded)
    ensures var r := Run(s, es).replies[i];
      r.recorded == r.actual <==>
      r.at == AtStop || r.at == AtSetMode ||
      (r.at == AtSetBitrate && r.want.mode == r.was.mode) || (r.at == AtStart && r.want == r.was)
  {
    AnswersTruthful(s, es);
    hide LastApplied, LastActual, Run, CanRun;
    var rs := Run(s, es).replies;
    assert Truthful(rs[i], LastApplied(rs[..i], s.recorded), LastActual(rs[..i], s.recorded));
  }

  lemma RunSnoc(s: State, es: seq<Event>, e: Event)
    requires CanRun(s, es) && Enabled(Run(s, es), e)
    ensures CanRun(s, es + [e]) && Run(s, es + [e]) == Apply(Run(s, es), e)
  {
    assert (es + [e])[..|es|] == es;
  }

  /** A run from the end of a run is one run. */
  lemma {:induction false} RunAppend(s: State, es: seq<Event>, more: seq<Event>)
    requires CanRun(s, es) && CanRun(Run(s, es), more)
    ensures CanRun(s, es + more) && Run(s, es + more) == Run(Run(s, es), more)
  {
    hide Apply, Enabled;
    if |more| == 0 {
      assert es + more == es;
    } else {
      var front := more[..|more| - 1];
      RunAppend(s, es, front);
      RunSnoc(s, es + front, more[|more| - 1]);
      assert es + more == es + front + [more[|more| - 1]];
    }
  }

  /** The handler works on a request for the pair want, begun when was was recorded. */
  predicate WorksOn(h: HandlerPc, want: Config, was: Config)
  {
    (Calling(h) || Failing(h) || h.Clear? || h.Lock? || h.Record? || h.Unlock? || h.Status?) &&
    h.want == want && h.was == was
  }

  predicate AnswerTo(r: Reply, want: Config, was: Config)
  {
    (r.ConfigApplied? || r.ConfigFailed?) && r.want == want && r.was == was
  }

  /** Since n answers had been given, the request has been worked on, or answered as number n. */
  predicate Served(t: State, n: nat, want: Config, was: Config)
  {
    (|t.replies| == n && WorksOn(t.handler, want, was)) || (|t.replies| > n && AnswerTo(t.replies[n], want, was))
  }

  lemma ServedKept(t: State, e: Event, n: nat, want: Config, was: Config)
    requires Served(t, n, want, was) && Enabled(t, e)
    ensures Served(Apply(t, e), n, want, was)
  {
    hide ValidFrame, Keeps, SameFrames, ApplyHandler, ApplyWorker;
    if |t.replies| > n {
      StepAnswers(t, e);
      hide Apply, Enabled;
    } else if e.HandlerStep? {
      WorkServed(t, e.ret, e.running, want, was);
    }
  }

  /** The handler's next step on the request stays on it or answers it. */
  lemma WorkServed(t: State, ret: Ret, running: bool, want: Config, was: Config)
    requires WorksOn(t.handler, want, was) && Enabled(t, HandlerStep(ret, running))
    ensures Served(ApplyHandler(t, ret, running), |t.replies|, want, was)
  {
    hide ValidFrame, Keeps, SameFrames, RepliesGrow;
  }

  /** A run can go on with a request for the pair want and then the steps es. */
  predicate CanAsk(s: State, want: Config, es: seq<Event>)
  {
    CanRun(s, [Text(Configure(want))] + es)
  }

  lemma {:induction false} ServedAlways(s: State, want: Config, es: seq<Event>)
    requires s.handler == Idle && s.ready && CanAsk(s, want, es)
    ensures Served(Run(s, [Text(Configure(want))] + es), |s.replies|, want, s.recorded)
  {
    var ask := Text(Configure(want));
    if |es| == 0 {
      RunSnoc(s, [], ask);
      assert [] + [ask] == [ask] + es;
    } else {
      var front, e := es[..|es| - 1], es[|es| - 1];
      assert ([ask] + es)[..|es|] == [ask] + front;
      hide Apply, Enabled, Served;
      ServedAlways(s, want, front);
      ServedKept(Run(s, [ask] + front), e, |s.replies|, want, s.recorded);
    }
  }

  /** The answer is `can_config_failed` exactly if the pair recorded with it is the given one. */
  predicate FailedIsUnchanged(r: Reply, was: Config)
  {
    (r.ConfigFailed? || r.ConfigApplied?) && (r.ConfigFailed? <==> r.recorded == was)
  }

  /** In every run that goes on with a request for the pair want, its answer is `can_config_failed`
      exactly if the pair recorded at the answer is the one recorded before. */
  ghost predicate FailedMeansUnchanged(s: State, want: Config)
  {
    forall es :: CanAsk(s, want, es) ==>
      var replies := Run(s, [Text(Configure(want))] + es).replies;
      |replies| > |s.replies| ==> FailedIsUnchanged(replies[|s.replies|], s.recorded)
  }

  /** `can_config_failed` tells the sender that the recorded pair is unchanged exactly when the
      sender asks for a pair other than the recorded one. */
  lemma FailedIffUnchanged(start: State, before: seq<Event>, want: Config)
    requires Initial(start) && CanRun(start, before)
    requires Run(start, before).handler == Idle && Run(start, before).ready
    ensures FailedMeansUnchanged(Run(start, before), want) <==> want != Run(start, before).recorded
  {
    hide Apply, Enabled, Run, CanRun, Initial, Inv;
    var s := Run(start, before);
    if want != s.recorded {
      forall es | CanAsk(s, want, es)
        ensures var replies := Run(s, [Text(Configure(want))] + es).replies;
          |replies| > |s.replies| ==> FailedIsUnchanged(replies[|s.replies|], s.recorded)
      {
        AnswerRecords(start, before, want, es);
      }
    } else {
      InvAlways(start, before);
      var es := RequestApplied(s, want, Success);
      assert CanAsk(s, want, es);
    }
  }

  /** The answer to the request: what it says was recorded, and what it says the controller has. */
  lemma AnswerRecords(start: State, before: seq<Event>, want: Config, es: seq<Event>)
    requires Initial(start) && CanRun(start, before)
    requires var s := Run(start, before); s.handler == Idle && s.ready && CanAsk(s, want, es)
    ensures var s := Run(start, before);
      var replies := Run(s, [Text(Configure(want))] + es).replies;
      |replies| > |s.replies| ==>
      var r := replies[|s.replies|];
      && AnswerTo(r, want, s.recorded) && r.recorded == (if r.ConfigFailed? then s.recorded else want)
      && r.actual == (if r.ConfigFailed? then Reached(want, s.actual, r.at) else want)
  {
    hide Apply, Enabled, Initial, LastApplied, LastActual, Reached;
    ActualBefore(start, before);
    var s, all := Run(start, before), [Text(Configure(want))] + es;
    RunAppend(start, before, all);
    ServedAlways(s, want, es);
    AnswersTruthful(start, before + all);
    EarlierStay(s, all);
    hide Run, CanRun;
    var replies := Run(s, all).replies;
    assert replies[..|s.replies|] == s.replies;
  }

  lemma ActualBefore(start: State, before: seq<Event>)
    requires Initial(start) && CanRun(start, before)
    requires Run(start, before).handler == Idle && Run(start, before).ready
    ensures Run(start, before).actual == LastActual(Run(start, before).replies, start.recorded)
  {
    hide LastApplied, LastActual;
    InvAlways(start, before);
    RecordedIsLastApplied(start, before);
    hide Run, CanRun;
  }

  /** Answers are only added. */
  lemma {:induction false} EarlierStay(s: State, es: seq<Event>)
    requires CanRun(s, es)
    ensures s.replies <= Run(s, es).replies
  {
    hide Apply, Enabled;
    if |es| > 0 {
      EarlierStay(s, es[..|es| - 1]);
      StepAnswers(Run(s, es[..|es| - 1]), es[|es| - 1]);
    }
  }

  /** The machine has made n of the steps of a request for the pair want, all calls succeeding. */
  predicate OnTheWay(s: State, t: State, want: Config, n: nat)
    requires n <= 8
  {
    var c := s.recorded;
    && t.handler == [Clear(want, c), Lock(want, c), Stop(want, c), SetMode(want, c), SetBitrate(want, c),
                     Start(want, c), Record(want, c), Unlock(want, c), Status(want, c)][n]
    && t.replies == s.replies && t.recorded == (if n <= 6 then c else want)
    && t.lock == (if 2 <= n <= 7 then Handler else Nobody)
    && (t.started <==> !(3 <= n <= 5)) && (n >= 4 ==> t.actual.mode == want.mode) && (n >= 5 ==> t.actual == want)
  }

  lemma Advance(s: State, t: State, want: Config, n: nat)
    requires n < 8 && OnTheWay(s, t, want, n)
    ensures var go := HandlerStep(Success, true); Enabled(t, go) && OnTheWay(s, Apply(t, go), want, n + 1)
  {
    hide Keeps, SameFrames, RepliesGrow;
  }

  lemma LastAnswer(s: State, t: State, want: Config, ret: Ret)
    requires OnTheWay(s, t, want, 8) && ret != Already
    ensures var go := HandlerStep(ret, true);
      Enabled(t, go) && Apply(t, go).recorded == want &&
      Apply(t, go).replies == s.replies + [ConfigApplied(want, s.recorded, want, want, ret != Error)]
  {
    hide Keeps, SameFrames, RepliesGrow;
  }

  /** The start has failed, and n of the steps of the error exit are made. */
  predicate OnTheWayBack(s: State, t: State, want: Config, n: nat)
    requires n <= 3
  {
    var c := s.recorded;
    && t.handler == [UnlockFailed(want, c, AtStart), LockAgain(want, c, AtStart), Restart(want, c, AtStart),
                     Publish(want, c, AtStart, true)][n]
    && t.replies == s.replies && t.recorded == c && t.actual == want
    && t.lock == (if n == 1 then Nobody else Handler) && (t.started <==> n == 3)
  }

  lemma StartFails(s: State, t: State, want: Config)
    requires OnTheWay(s, t, want, 5)
    ensures var e := HandlerStep(Error, false); Enabled(t, e) && OnTheWayBack(s, Apply(t, e), want, 0)
  {
    hide Keeps, SameFrames, RepliesGrow;
  }

  lemma AdvanceBack(s: State, t: State, want: Config, n: nat)
    requires n < 3 && OnTheWayBack(s, t, want, n)
    ensures var go := HandlerStep(Success, true); Enabled(t, go) && OnTheWayBack(s, Apply(t, go), want, n + 1)
  {
    hide Keeps, SameFrames, RepliesGrow;
  }

  lemma LastAnswerBack(s: State, t: State, want: Config)
    requires OnTheWayBack(s, t, want, 3)
    ensures var go := HandlerStep(Success, true);
      Enabled(t, go) &&
      Apply(t, go).replies == s.replies + [ConfigFailed(want, s.recorded, s.recorded, want, AtStart, true)]
  {
    hide Keeps, SameFrames, RepliesGrow;
  }

  /** The request is taken; the worker may still be in its section. */
  predicate Asked(s: State, t: State, want: Config)
  {
    t.handler == Clear(want, s.recorded) && t.replies == s.replies && t.recorded == s.recorded && t.started &&
    t.lock == if WorkerLocks(t.worker) then Worker else Nobody
  }

  lemma TakesRequest(s: State, want: Config)
    requires LockInv(s) && ReadyInv(s) && s.ready && s.handler == Idle
    ensures var ask := Text(Configure(want)); Enabled(s, ask) && Asked(s, Apply(s, ask), want)
  {
    hide Keeps;
  }

  lemma WorkerLeaves(s: State, t: State, want: Config)
    requires Asked(s, t, want) && WorkerLocks(t.worker)
    ensures Enabled(t, WorkerStep) && Asked(s, Apply(t, WorkerStep), want)
    ensures WorkerLocks(Apply(t, WorkerStep).worker) ==> t.worker.Sending? && Apply(t, WorkerStep).worker == Done
  {
    hide Keeps;
  }

  /** A list of steps that begins with the request is a way to ask. */
  predicate AsksFor(s: State, want: Config, all: seq<Event>)
  {
    |all| > 0 && all[0] == Text(Configure(want)) && CanRun(s, all)
  }

  lemma GoOn(s: State, want: Config, all: seq<Event>, e: Event)
    requires AsksFor(s, want, all) && Enabled(Run(s, all), e)
    ensures AsksFor(s, want, all + [e]) && Run(s, all + [e]) == Apply(Run(s, all), e)
  {
    hide Apply, Enabled;
    RunSnoc(s, all, e);
  }

  lemma AfterAsking(s: State, want: Config, all: seq<Event>) returns (es: seq<Event>)
    requires AsksFor(s, want, all)
    ensures CanAsk(s, want, es) && Run(s, [Text(Configure(want))] + es) == Run(s, all)
  {
    es := all[1..];
    assert all == [Text(Configure(want))] + es;
  }

  /** The request taken, and the worker out of its section. */
  lemma AskAndWait(s: State, want: Config) returns (all: seq<Event>)
    requires Inv(s) && s.ready && s.handler == Idle
    ensures AsksFor(s, want, all) && OnTheWay(s, Run(s, all), want, 0)
  {
    TakesRequest(s, want);
    RunSnoc(s, [], Text(Configure(want)));
    all := [] + [Text(Configure(want))];
    hide Inv, Apply, Enabled, Run, CanRun;
    if WorkerLocks(Run(s, all).worker) {
      WorkerLeaves(s, Run(s, all), want);
      GoOn(s, want, all, WorkerStep);
      all := all + [WorkerStep];
    }
    if WorkerLocks(Run(s, all).worker) {
      WorkerLeaves(s, Run(s, all), want);
      GoOn(s, want, all, WorkerStep);
      all := all + [WorkerStep];
    }
  }

  lemma Succeed(s: State, want: Config, upTo: nat) returns (all: seq<Event>)
    requires Inv(s) && s.ready && s.handler == Idle && upTo <= 8
    ensures AsksFor(s, want, all) && OnTheWay(s, Run(s, all), want, upTo)
  {
    hide OnTheWay, Apply, Enabled, Inv, Run, CanRun;
    all := AskAndWait(s, want);
    for n := 0 to upTo
      invariant AsksFor(s, want, all) && OnTheWay(s, Run(s, all), want, n)
    {
      Advance(s, Run(s, all), want, n);
      GoOn(s, want, all, HandlerStep(Success, true));
      all := all + [HandlerStep(Success, true)];
    }
  }

  /** From every state reached, a request may be applied, with the status shown or not: the driver
      calls need only succeed. */
  lemma RequestApplied(s: State, want: Config, ret: Ret) returns (es: seq<Event>)
    requires Inv(s) && s.ready && s.handler == Idle && ret != Already
    ensures CanAsk(s, want, es)
    ensures var t := Run(s, [Text(Configure(want))] + es);
      t.recorded == want &&
      t.replies == s.replies + [ConfigApplied(want, s.recorded, want, want, ret != Error)]
  {
    hide OnTheWay, Apply, Enabled, Inv, Run, CanRun;
    var all := Succeed(s, want, 8);
    LastAnswer(s, Run(s, all), want, ret);
    GoOn(s, want, all, HandlerStep(ret, true));
    es := AfterAsking(s, want, all + [HandlerStep(ret, true)]);
  }

  /** From every state reached, a request may fail with the controller left at the requested pair:
      the start fails, and the restart works. */
  lemma StartMayFail(s: State, want: Config) returns (es: seq<Event>)
    requires Inv(s) && s.ready && s.handler == Idle
    ensures CanAsk(s, want, es)
    ensures var t := Run(s, [Text(Configure(want))] + es);
      t.replies == s.replies + [ConfigFailed(want, s.recorded, s.recorded, want, AtStart, true)]
  {
    hide OnTheWay, OnTheWayBack, Apply, Enabled, Inv, Run, CanRun;
    var go := HandlerStep(Success, true);
    var all := Succeed(s, want, 5);
    StartFails(s, Run(s, all), want);
    GoOn(s, want, all, HandlerStep(Error, false));
    all := all + [HandlerStep(Error, false)];
    for n := 0 to 3
      invariant AsksFor(s, want, all) && OnTheWayBack(s, Run(s, all), want, n)
    {
      AdvanceBack(s, Run(s, all), want, n);
      GoOn(s, want, all, go);
      all := all + [go];
    }
    LastAnswerBack(s, Run(s, all), want);
    GoOn(s, want, all, go);
    es := AfterAsking(s, want, all + [go]);
  }

  /** In every run that goes on with a request for the pair want, its answer leaves recorded and
      controller's pair equal. */
  ghost predicate AlwaysAgree(s: State, want: Config)
  {
    forall es :: CanAsk(s, want, es) ==>
      var replies := Run(s, [Text(Configure(want))] + es).replies;
      |replies| > |s.replies| ==> Agreed(replies[|s.replies|])
  }

  predicate Agreed(r: Reply)
  {
    (r.ConfigFailed? || r.ConfigApplied?) && r.recorded == r.actual
  }

  /** Where the two pairs agree, a request is sure to leave them so exactly if it asks for the pair
      they have. */
  lemma AgreeIffSame(start: State, before: seq<Event>, want: Config)
    requires Initial(start) && CanRun(start, before)
    requires var s := Run(start, before); s.handler == Idle && s.ready && s.recorded == s.actual
    ensures AlwaysAgree(Run(start, before), want) <==> want == Run(start, before).recorded
  {
    hide Apply, Enabled, Run, CanRun, Initial, Inv;
    var s := Run(start, before);
    if want == s.recorded {
      forall es | CanAsk(s, want, es)
        ensures var replies := Run(s, [Text(Configure(want))] + es).replies;
          |replies| > |s.replies| ==> Agreed(replies[|s.replies|])
      {
        AnswerRecords(start, before, want, es);
      }
    } else {
      InvAlways(start, before);
      var es := StartMayFail(s, want);
      assert CanAsk(s, want, es);
    }
  }

  /** An answer with an error code: `can_config_failed`, or `can_status_failed` for a pair applied. */
  predicate IsError(r: Reply)
  {
    r.ConfigFailed? || (r.ConfigApplied? && !r.shown)
  }

  /** In every run that goes on with a request for the pair want, an error answer means that the
      recorded pair is unchanged. */
  ghost predicate ErrorMeansUnchanged(s: State, want: Config)
  {
    forall es :: CanAsk(s, want, es) ==>
      var replies := Run(s, [Text(Configure(want))] + es).replies;
      |replies| > |s.replies| ==> NoSilentChange(replies[|s.replies|], s.recorded)
  }

  predicate NoSilentChange(r: Reply, was: Config)
  {
    (r.ConfigFailed? || r.ConfigApplied?) && (IsError(r) ==> r.recorded == was)
  }

  /** An error answer tells the sender that the recorded pair is unchanged exactly when it asks for
      the recorded pair: the status may be unreadable after the pair was applied. */
  lemma ErrorIffSame(start: State, before: seq<Event>, want: Config)
    requires Initial(start) && CanRun(start, before)
    requires Run(start, before).handler == Idle && Run(start, before).ready
    ensures ErrorMeansUnchanged(Run(start, before), want) <==> want == Run(start, before).recorded
  {
    hide Apply, Enabled, Run, CanRun, Initial, Inv;
    var s := Run(start, before);
    if want == s.recorded {
      forall es | CanAsk(s, want, es)
        ensures var replies := Run(s, [Text(Configure(want))] + es).replies;
          |replies| > |s.replies| ==> NoSilentChange(replies[|s.replies|], s.recorded)
      {
        AnswerRecords(start, before, want, es);
      }
    } else {
      InvAlways(start, before);
      var es := RequestApplied(s, want, Error);
      assert CanAsk(s, want, es);
    }
  }

  /** The states these lemmas speak of are reached: by an initialization whose calls succeed. */
  lemma ReadyReached(start: State) returns (es: seq<Event>)
    requires Initial(start)
    ensures CanRun(start, es)
    ensures var s := Run(start, es); s.ready && s.handler == Idle && s.recorded == start.recorded == s.actual
  {
    hide Keeps, SameFrames;
    var e1, e2 := InitStep(Success, true), InitStep(if start.started then Already else Success, true);
    RunSnoc(start, [], e1);
    RunSnoc(start, [] + [e1], e2);
    RunSnoc(start, [] + [e1] + [e2], e1);
    RunSnoc(start, [] + [e1] + [e2] + [e1], e1);
    es := [] + [e1] + [e2] + [e1] + [e1];
  }

  /** Between two messages, after initialization, with the ready flag clear. */
  predicate Dead(s: State)
  {
    !s.ready && s.handler == Idle && (s.init == InitSpawn || s.init == InitDone || s.init == InitFailed)
  }

  /** The frames of t are the last ones of s. */
  predicate IsRest(t: seq<CanFrame>, s: seq<CanFrame>)
  {
    |t| <= |s| && t == s[|s| - |t|..]
  }

  lemma IsRestTransitive(u: seq<CanFrame>, t: seq<CanFrame>, s: seq<CanFrame>)
    requires IsRest(u, t) && IsRest(t, s)
    ensures IsRest(u, s)
  {
  }

  /** Nothing is enqueued, answered ok or recorded between the two states. */
  predicate NothingNew(s: State, t: State)
  {
    t.recorded == s.recorded && t.actual == s.actual && t.okFrames == s.okFrames && IsRest(t.txQueue, s.txQueue)
  }

  /** Dead is for ever: no step sets the flag again, changes a pair or enqueues a frame. */
  lemma DeadStays(s: State, e: Event)
    requires Dead(s) && Enabled(s, e)
    ensures Dead(Apply(s, e)) && NothingNew(s, Apply(s, e))
  {
    hide Keeps, ValidFrame;
  }

  lemma {:induction false} DeadForEver(s: State, es: seq<Event>)
    requires Dead(s) && CanRun(s, es)
    ensures Dead(Run(s, es)) && NothingNew(s, Run(s, es))
  {
    if |es| > 0 {
      var t := Run(s, es[..|es| - 1]);
      DeadForEver(s, es[..|es| - 1]);
      DeadStays(t, es[|es| - 1]);
      IsRestTransitive(Run(s, es).txQueue, t.txQueue, s.txQueue);
      hide Apply, Enabled, IsRest;
    }
  }

  /** The ways in: a failed initialization, or a failed reconfiguration whose restart failed too. */
  predicate Dies(s: State, e: Event)
  {
    || (e.InitStep? && e.ret == Error && (s.init == InitMode || s.init == InitStart || s.init == InitFilter))
    || (e.HandlerStep? && s.handler.Publish? && !s.handler.back)
  }

  lemma DeadExactlyBy(s: State, e: Event)
    requires Inv(s) && !Dead(s) && Enabled(s, e)
    ensures Dead(Apply(s, e)) <==> Dies(s, e)
  {
    hide FifoInv, FramesInv, LockInv, OkFrames, Keeps, ValidFrame;
  }
}
