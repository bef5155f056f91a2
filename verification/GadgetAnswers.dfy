/** The answer to a request, read off what happened before it: every callback carries the status
    that its teardown, its verdict and its pull-up call for. */
module GadgetAnswers {
  import opened Common
  import opened Histories
  import opened Gadget
  import opened GadgetSafety
  import opened GadgetTheorems

  /** Request `r`, which is `q`, answered after `h`. */
  function AnswerTo(h: History<Event>, r: nat, q: Request): Status {
    if !Happened(h, TornDown(r)) then Error
    else if q.functions == Functions(false, false, false, false, false, false, false) then Success
    else if Happened(h, Judged(r, NotSupported)) then NotSupported
    else if Happened(h, Judged(r, Error)) then Error
    else if Happened(h, Refused(r)) then Error
    else if q.functions.mtp || q.functions.ptp || q.functions.adb then
      if Happened(h, PullUp(r)) then Success else Error
    else if Happened(h, DirectUp(r)) then Success else Error
  }

  /** Every callback was the answer called for, and no request was pulled up directly for which
      the answer could have been another. */
  predicate AllAnswered(h: History<Event>, requests: seq<Request>) {
    match h
    case Start => true
    case Then(before, e) =>
      && AllAnswered(before, requests)
      && (e.Callback? ==>
            && e.request < |requests| && e.status == AnswerTo(before, e.request, requests[e.request])
            && (Happened(before, DirectUp(e.request)) ==> e.status == Success)
            && (Happened(before, Refused(e.request)) ==> e.status != Success))
  }

  /** Requests heard of are among the first `n`. */
  predicate RequestsBelow(h: History<Event>, n: nat) {
    match h
    case Start => true
    case Then(before, e) =>
      RequestsBelow(before, n) && (e.TornDown? || e.Judged? || e.Refused? || e.DirectUp? ==> e.request < n)
  }

  lemma {:induction false} NothingHeard(h: History<Event>, n: nat, r: nat)
    requires RequestsBelow(h, n) && n <= r
    ensures RequestsBelow(h, r) && RequestsBelow(h, r + 1)
    ensures !Happened(h, TornDown(r)) && NoObjection(h, r) && !Happened(h, DirectUp(r))
  {
    if h.Then? {
      NothingHeard(h.before, n, r);
    }
  }

  /** Neither the validation nor the kernel has turned the request down. */
  predicate NoObjection(h: History<Event>, r: nat) {
    !Happened(h, Judged(r, Error)) && !Happened(h, Judged(r, NotSupported)) && !Happened(h, Refused(r))
  }

  /** How far the current request `c`, which is `q`, has come. */
  predicate Stage(pc: RequestPc, h: History<Event>, c: nat, q: Request) {
    match pc
    case Idle => true
    case TearPull | TearFiles | TearSignal | TearJoin | TearClose =>
      !Happened(h, TornDown(c)) && NoObjection(h, c) && !Happened(h, DirectUp(c))
    case Dispatch => Happened(h, TornDown(c)) && NoObjection(h, c) && !Happened(h, DirectUp(c))
    case LockSetup | Linking(_) | PullNow | StartMonitor =>
      Happened(h, TornDown(c)) && NoObjection(h, c) && !Happened(h, DirectUp(c)) && !q.functions.None()
    case CheckFlag | Blocked(_) | Reacquire(_) | Answer =>
      Happened(h, TornDown(c)) && NoObjection(h, c) && !Happened(h, DirectUp(c)) && q.functions.Ffs()
    case Answered =>
      && Happened(h, TornDown(c)) && NoObjection(h, c) && Happened(h, DirectUp(c))
      && !q.functions.None() && !q.functions.Ffs()
    case Failing(status) => status == AnswerTo(h, c, q) && !Happened(h, DirectUp(c)) && status != Success
  }

  predicate AnswerInv(s: State) {
    && RequestsBelow(s.history, |s.requests|)
    && AllAnswered(s.history, s.requests)
    && (|s.requests| > 0 ==> Stage(s.pc, s.history, Current(s), s.requests[Current(s)]))
  }

  lemma {:induction false} AnsweredMore(h: History<Event>, requests: seq<Request>, r: Request)
    requires AllAnswered(h, requests)
    ensures AllAnswered(h, requests + [r])
  {
    if h.Then? {
      AnsweredMore(h.before, requests, r);
    }
  }

  lemma AnswerInvRequest(s: State, t: RequestStep)
    requires RequestEnabled(s, t) && AnswerInv(s) && ThreadInv(s) && FlagInv(s)
    ensures AnswerInv(RequestNext(s, t))
  {
    match t
    case Begin(r) =>
      AnsweredMore(s.history, s.requests, r);
      NothingHeard(s.history, |s.requests|, |s.requests|);
    case Validate(_) => NothingAbove(s.history, Current(s), Current(s));
    case RespondFailure =>
  }

  lemma AnswerInvTear(s: State, t: TearStep)
    requires TearEnabled(s, t) && AnswerInv(s)
    ensures AnswerInv(TearNext(s, t))
  {}

  lemma RefusedMeansError(h: History<Event>, r: nat, q: Request)
    requires Happened(h, TornDown(r)) && !q.functions.None() && NoObjection(h, r)
    ensures AnswerTo(Then(h, Refused(r)), r, q) == Error
  {}

  lemma HeardSetup(s: State, t: SetupStep)
    requires SetupEnabled(s, t) && AnswerInv(s)
    ensures var n := SetupNext(s, t);
            RequestsBelow(n.history, |n.requests|) && AllAnswered(n.history, n.requests)
  {
    SetupHistory(s, t);
    hide AnswerTo, Stage, SetupNext;
  }

  lemma StageSetup(s: State, t: SetupStep)
    requires SetupEnabled(s, t) && ThreadInv(s) && SetupInv(s)
    requires Stage(s.pc, s.history, Current(s), s.requests[Current(s)])
    ensures var n := SetupNext(s, t);
            Stage(n.pc, n.history, Current(n), n.requests[Current(n)])
  {
    RefusedMeansError(s.history, Current(s), s.requests[Current(s)]);
    hide AnswerTo, Serving, MonitorInv;
  }

  lemma AnswerInvSetup(s: State, t: SetupStep)
    requires SetupEnabled(s, t) && AnswerInv(s) && ThreadInv(s) && SetupInv(s)
    ensures AnswerInv(SetupNext(s, t))
  {
    HeardSetup(s, t);
    StageSetup(s, t);
    hide SetupNext, SetupEnabled, Stage, ThreadInv, SetupInv, RequestsBelow, AllAnswered;
  }

  lemma AnswerInvWait(s: State, t: WaitStep)
    requires WaitEnabled(s, t) && AnswerInv(s) && FlagInv(s)
    ensures AnswerInv(WaitNext(s, t))
  {}

  lemma HeardMonitor(s: State, t: MonitorStep)
    requires MonitorEnabled(s, t) && AnswerInv(s)
    ensures var n := MonitorNext(s, t);
            RequestsBelow(n.history, |n.requests|) && AllAnswered(n.history, n.requests)
  {
    hide AnswerTo, Stage;
  }

  lemma AnswerStays(h: History<Event>, e: Event, r: nat, q: Request)
    requires e.Found? || e.Absent? || e.UdcUp? || (e.PullUp? && e.mon != r)
    ensures AnswerTo(Then(h, e), r, q) == AnswerTo(h, r, q)
  {}

  lemma StageMonitor(s: State, t: MonitorStep)
    requires MonitorEnabled(s, t) && ThreadInv(s) && |s.requests| > 0
    requires Stage(s.pc, s.history, Current(s), s.requests[Current(s)])
    ensures var n := MonitorNext(s, t);
            Stage(n.pc, n.history, Current(n), n.requests[Current(n)])
  {
    var h, c := s.history, Current(s);
    if s.pc.Failing? && MonitorNext(s, t).history != h {
      AnswerStays(h, MonitorNext(s, t).history.last, c, s.requests[c]);
    }
    hide AnswerTo, Endpoints, MonitorOk;
  }

  lemma AnswerInvMonitor(s: State, t: MonitorStep)
    requires MonitorEnabled(s, t) && AnswerInv(s) && ThreadInv(s)
    ensures AnswerInv(MonitorNext(s, t))
  {
    HeardMonitor(s, t);
    if |s.requests| > 0 {
      StageMonitor(s, t);
    }
    hide MonitorNext, MonitorEnabled, Stage, ThreadInv, RequestsBelow, AllAnswered;
  }

  lemma AnswerInvKept(s: State, t: Step)
    requires Enabled(s, t) && Inv(s) && AnswerInv(s)
    ensures AnswerInv(Next(s, t))
  {
    hide RequestNext, TearNext, SetupNext, WaitNext, MonitorNext;
    hide RequestEnabled, TearEnabled, SetupEnabled, WaitEnabled, MonitorEnabled;
    hide ThreadInv, SetupInv, LinksInv, FlagInv, DeadlineInv, MonitorHistory, HistoryInv;
    match t
    case Tick(_) =>
    case Req(r) => AnswerInvRequest(s, r);
    case Tear(d) => AnswerInvTear(s, d);
    case Setup(u) => AnswerInvSetup(s, u);
    case Await(w) => AnswerInvWait(s, w);
    case Mon(m) => AnswerInvMonitor(s, m);
  }

  lemma {:induction false} AnswerInvOnRun(s: State, steps: seq<Step>)
    requires Inv(s) && Valid(s, steps) && AnswerInv(s)
    ensures AnswerInv(Run(s, steps))
    decreases |steps|
  {
    hide Inv, Next, Enabled, AnswerInv;
    if steps != [] {
      AnswerInvKept(s, steps[0]);
      InvKept(s, steps[0]);
      AnswerInvOnRun(Next(s, steps[0]), steps[1..]);
    }
  }

  lemma {:induction false} AnsweredBefore(p: History<Event>, h: History<Event>, requests: seq<Request>)
    requires Precedes(p, h) && AllAnswered(h, requests)
    ensures AllAnswered(p, requests)
  {
    if p != h {
      AnsweredBefore(p, h.before, requests);
    }
  }

  /** Whatever the request asks for and whatever fails, its callback carries the status that the
      history before it calls for. */
  lemma CallbackCarries(steps: seq<Step>, p: History<Event>, r: nat, status: Status)
    requires Valid(INIT, steps)
    requires Precedes(Then(p, Callback(r, status)), Run(INIT, steps).history)
    ensures r < |Run(INIT, steps).requests|
    ensures status == AnswerTo(p, r, Run(INIT, steps).requests[r])
    ensures Happened(p, DirectUp(r)) ==> status == Success
    ensures Happened(p, Refused(r)) || !Happened(p, TornDown(r)) ==> status != Success
  {
    var s := Run(INIT, steps);
    Reached([]);
    AnswerInvOnRun(INIT, steps);
    AnsweredBefore(Then(p, Callback(r, status)), s.history, s.requests);
  }

  /** A request for functions none of which needs a monitor is answered with success exactly when
      it has written the UDC itself. */
  lemma DirectAnswerIff(steps: seq<Step>, p: History<Event>, r: nat, status: Status)
    requires Valid(INIT, steps)
    requires Precedes(Then(p, Callback(r, status)), Run(INIT, steps).history)
    requires r < |Run(INIT, steps).requests|
    requires var f := Run(INIT, steps).requests[r].functions;
             (f.midi || f.accessory || f.audioSource || f.rndis) && !f.mtp && !f.ptp && !f.adb
    ensures status == Success <==> Happened(p, DirectUp(r))
  {
    CallbackCarries(steps, p, r, status);
  }

  /** A request for no functions is answered with success exactly when its teardown succeeded. */
  lemma EmptyAnswerIff(steps: seq<Step>, p: History<Event>, r: nat, status: Status)
    requires Valid(INIT, steps)
    requires Precedes(Then(p, Callback(r, status)), Run(INIT, steps).history)
    requires r < |Run(INIT, steps).requests|
    requires Run(INIT, steps).requests[r].functions == Functions(false, false, false, false, false, false, false)
    ensures status == Success <==> Happened(p, TornDown(r))
  {
    CallbackCarries(steps, p, r, status);
  }

  /** A monitor cannot change the flags between the decision on a request and its answer. */
  lemma FlagsStableUnderLock(steps: seq<Step>, m: MonitorStep)
    requires Valid(INIT, steps) && Enabled(Run(INIT, steps), Mon(m))
    ensures var s := Run(INIT, steps);
            var n := Next(s, Mon(m));
            s.pc.Linking? || s.pc.PullNow? || s.pc.StartMonitor? || s.pc.CheckFlag? || s.pc.Answer? || s.pc.Answered?
            ==> n.flag == s.flag && n.applied == s.applied
  {
    Reached(steps);
  }
}
