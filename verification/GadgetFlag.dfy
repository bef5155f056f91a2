/** How far `mCurrentUsbFunctionsApplied` follows the requests: exactly when no monitor was
    left over from an earlier one. */
module GadgetFlag {
  import opened Common
  import opened Histories
  import opened Gadget
  import opened GadgetSafety
  import opened GadgetTheorems
  import opened GadgetRuns

  /** Request `id` pulled the gadget up, directly or through the monitor it created. */
  predicate PulledUpItself(h: History<Event>, id: nat) {
    Happened(h, PullUp(id)) || Happened(h, DirectUp(id))
  }

  // ---------- Only requests for functions pull up ----------

  predicate AsksForFunctions(requests: seq<Request>, id: nat) {
    id < |requests| && !requests[id].functions.None()
  }

  predicate UpsRequested(h: History<Event>, requests: seq<Request>) {
    match h
    case Start => true
    case Then(before, e) =>
      && UpsRequested(before, requests)
      && (e.PullUp? ==> AsksForFunctions(requests, e.mon))
      && (e.DirectUp? ==> AsksForFunctions(requests, e.request))
  }

  lemma {:induction false} UpsMore(h: History<Event>, requests: seq<Request>, r: Request)
    requires UpsRequested(h, requests)
    ensures UpsRequested(h, requests + [r])
  {
    if h.Then? {
      UpsMore(h.before, requests, r);
    }
  }

  lemma {:induction false} NotPulledUp(h: History<Event>, requests: seq<Request>, id: nat)
    requires UpsRequested(h, requests) && !AsksForFunctions(requests, id)
    ensures !PulledUpItself(h, id)
  {
    if h.Then? {
      NotPulledUp(h.before, requests, id);
    }
  }

  lemma UpsRequest(s: State, t: RequestStep)
    requires RequestEnabled(s, t) && UpsRequested(s.history, s.requests)
    ensures UpsRequested(RequestNext(s, t).history, RequestNext(s, t).requests)
  {
    if t.Begin? {
      UpsMore(s.history, s.requests, t.request);
    }
  }

  lemma UpsSetup(s: State, t: SetupStep)
    requires SetupEnabled(s, t) && UpsRequested(s.history, s.requests)
    requires t.PullUpNow? ==> AsksForFunctions(s.requests, Current(s))
    ensures UpsRequested(SetupNext(s, t).history, SetupNext(s, t).requests)
  {
    SetupHistory(s, t);
    hide SetupNext, SetupEnabled;
  }

  lemma SetupAsks(s: State, t: SetupStep)
    requires SetupEnabled(s, t) && SetupInv(s)
    ensures t.PullUpNow? ==> AsksForFunctions(s.requests, Current(s))
  {
    hide Names, Endpoints;
  }

  lemma UpsWait(s: State, t: WaitStep)
    requires WaitEnabled(s, t) && UpsRequested(s.history, s.requests)
    ensures UpsRequested(WaitNext(s, t).history, WaitNext(s, t).requests)
  {}

  lemma UpsMonitor(s: State, t: MonitorStep)
    requires MonitorEnabled(s, t) && ThreadInv(s) && UpsRequested(s.history, s.requests)
    ensures UpsRequested(MonitorNext(s, t).history, MonitorNext(s, t).requests)
  {}

  lemma UpsTear(s: State, t: TearStep)
    requires TearEnabled(s, t) && UpsRequested(s.history, s.requests)
    ensures UpsRequested(TearNext(s, t).history, TearNext(s, t).requests)
  {}

  lemma UpsKept(s: State, t: Step)
    requires Enabled(s, t) && Inv(s) && UpsRequested(s.history, s.requests)
    ensures UpsRequested(Next(s, t).history, Next(s, t).requests)
  {
    hide RequestNext, TearNext, SetupNext, WaitNext, MonitorNext, UpsRequested;
    hide RequestEnabled, TearEnabled, SetupEnabled, WaitEnabled, MonitorEnabled;
    hide ThreadInv, SetupInv, LinksInv, FlagInv, DeadlineInv, MonitorHistory, HistoryInv;
    match t
    case Tick(_) =>
    case Req(r) => UpsRequest(s, r);
    case Tear(d) => UpsTear(s, d);
    case Setup(u) =>
      SetupAsks(s, u);
      UpsSetup(s, u);
    case Await(w) => UpsWait(s, w);
    case Mon(m) => UpsMonitor(s, m);
  }

  lemma {:induction false} UpsOnRun(s: State, steps: seq<Step>)
    requires Inv(s) && Valid(s, steps) && UpsRequested(s.history, s.requests)
    ensures UpsRequested(Run(s, steps).history, Run(s, steps).requests)
    decreases |steps|
  {
    hide Inv, Next, Enabled;
    if steps != [] {
      UpsKept(s, steps[0]);
      InvKept(s, steps[0]);
      UpsOnRun(Next(s, steps[0]), steps[1..]);
    }
  }

  // ---------- Without a left-over monitor the flag is right ----------

  /** During request `id`: the flag says whether it has pulled up itself, and no other's monitor lives. */
  predicate OwnInv(s: State, id: nat) {
    && |s.requests| == id + 1
    && (s.monitor.Some? ==> s.monitor.value.id == id)
    && (s.applied <==> PulledUpItself(s.history, id))
  }

  lemma OwnRequest(s: State, t: RequestStep, id: nat)
    requires RequestEnabled(s, t) && OwnInv(s, id) && !t.Begin?
    ensures OwnInv(RequestNext(s, t), id)
  {}

  lemma OwnTear(s: State, t: TearStep, id: nat)
    requires TearEnabled(s, t) && OwnInv(s, id)
    ensures OwnInv(TearNext(s, t), id)
  {}

  lemma OwnSetup(s: State, t: SetupStep, id: nat)
    requires SetupEnabled(s, t) && OwnInv(s, id)
    ensures OwnInv(SetupNext(s, t), id)
  {}

  lemma OwnWait(s: State, t: WaitStep, id: nat)
    requires WaitEnabled(s, t) && OwnInv(s, id)
    ensures OwnInv(WaitNext(s, t), id)
  {}

  lemma OwnMonitor(s: State, t: MonitorStep, id: nat)
    requires MonitorEnabled(s, t) && OwnInv(s, id)
    ensures OwnInv(MonitorNext(s, t), id)
  {}

  lemma OwnKept(s: State, t: Step, id: nat)
    requires Enabled(s, t) && OwnInv(s, id) && |Next(s, t).requests| == id + 1
    ensures OwnInv(Next(s, t), id)
  {
    match t
    case Tick(_) =>
    case Req(r) => if !r.Begin? { OwnRequest(s, r, id); }
    case Tear(d) => OwnTear(s, d, id);
    case Setup(u) => OwnSetup(s, u, id);
    case Await(w) => OwnWait(s, w, id);
    case Mon(m) => OwnMonitor(s, m, id);
  }

  lemma {:induction false} OwnOnRun(s: State, steps: seq<Step>, id: nat)
    requires Valid(s, steps) && OwnInv(s, id) && |Run(s, steps).requests| == id + 1
    ensures OwnInv(Run(s, steps), id)
    decreases |steps|
  {
    hide Next, Enabled;
    if steps != [] {
      RequestsStay(Next(s, steps[0]), steps[1..]);
      OwnKept(s, steps[0], id);
      OwnOnRun(Next(s, steps[0]), steps[1..], id);
    }
  }

  /** Idle without a monitor: nothing can happen but time passing and a request beginning. */
  predicate Quiet(s: State) {
    s.pc.Idle? && s.monitor.None? && UpsRequested(s.history, s.requests)
  }

  lemma QuietStep(s: State, t: Step)
    requires Quiet(s) && Enabled(s, t)
    ensures t.Tick? ==> Quiet(Next(s, t)) && Next(s, t).requests == s.requests
    ensures !t.Tick? ==> OwnInv(Next(s, t), |s.requests|)
  {
    NotPulledUp(s.history, s.requests, |s.requests|);
  }

  lemma {:induction false} QuietRun(s: State, steps: seq<Step>)
    requires Quiet(s) && Valid(s, steps) && |Run(s, steps).requests| == |s.requests| + 1
    ensures OwnInv(Run(s, steps), |s.requests|)
    decreases |steps|
  {
    hide Next, Enabled, Quiet;
    var s1 := Next(s, steps[0]);
    QuietStep(s, steps[0]);
    if steps[0].Tick? {
      QuietRun(s1, steps[1..]);
    } else {
      OwnOnRun(s1, steps[1..], |s.requests|);
    }
  }

  // ---------- With one it can be wrong ----------

  lemma JoinAndAnswer(s1: State) returns (more: seq<Step>)
    requires s1.pc.TearJoin? && s1.monitor.Some? && s1.monitor.value.pc.Done?
    requires |s1.requests| > 0 && s1.requests[|s1.requests| - 1].functions.None()
    ensures Valid(s1, more)
    ensures var s := Run(s1, more);
            s.pc.Idle? && s.monitor.None? && s.applied == s1.applied && s.requests == s1.requests
  {
    var s2 := Next(s1, Tear(Join));
    var s3 := Next(s2, Tear(Close));
    more := [Req(Validate(Success))];
    Then1(s3, Req(Validate(Success)), []);
    Then1(s2, Tear(Close), more);
    more := [Tear(Close)] + more;
    Then1(s1, Tear(Join), more);
    more := [Tear(Join)] + more;
  }

  /** A request for no functions, from its teardown to its answer, with the monitor asleep in poll. */
  lemma TearDownIdleMonitor(s1: State) returns (more: seq<Step>)
    requires s1.pc.TearPull? && s1.monitor.Some? && s1.monitor.value.pc.Wait? && s1.created
    requires |s1.requests| > 0 && s1.requests[|s1.requests| - 1].functions.None()
    ensures Valid(s1, more)
    ensures var s := Run(s1, more);
            s.pc.Idle? && s.monitor.None? && s.applied == s1.applied && s.requests == s1.requests
  {
    var s2 := Next(s1, Tear(WriteNone));
    var s3 := Next(s2, Tear(ClearFiles(true, {})));
    var s4 := Next(s3, Tear(Signal(true)));
    more := JoinAndAnswer(Next(s4, Mon(StopEvent)));
    Then1(s4, Mon(StopEvent), more);
    more := [Mon(StopEvent)] + more;
    Then1(s3, Tear(Signal(true)), more);
    more := [Tear(Signal(true))] + more;
    Then1(s2, Tear(ClearFiles(true, {})), more);
    more := [Tear(ClearFiles(true, {}))] + more;
    Then1(s1, Tear(WriteNone), more);
    more := [Tear(WriteNone)] + more;
  }

  /** The monitor writes the UDC and sets the flag before the teardown stops it. */
  lemma SetFlagAndAnswer(s: State) returns (more: seq<Step>)
    requires Overtaking(s) && s.monitor.value.pc.WriteUdc?
    requires |s.requests| > 0 && s.requests[|s.requests| - 1].functions.None()
    ensures Valid(s, more)
    ensures var e := Run(s, more);
            e.pc.Idle? && e.monitor.None? && e.applied && e.requests == s.requests
  {
    var s1 := Next(s, Mon(PullUpGadget(true)));
    more := TearDownIdleMonitor(Next(s1, Mon(SetFlag)));
    Then1(s1, Mon(SetFlag), more);
    more := [Mon(SetFlag)] + more;
    Then1(s, Mon(PullUpGadget(true)), more);
    more := [Mon(PullUpGadget(true))] + more;
  }

  /** Whenever the service is idle with a monitor, the next request for no functions can be
      answered with the flag set, wherever the monitor is. */
  lemma AppliedOutlivesRequest(steps: seq<Step>, r: Request) returns (more: seq<Step>)
    requires Valid(INIT, steps) && WellFormed(r) && r.functions.None()
    requires Run(INIT, steps).pc.Idle? && Run(INIT, steps).created
    ensures Valid(Run(INIT, steps), more)
    ensures var s := Run(Run(INIT, steps), more);
            && s.pc.Idle? && s.requests == Run(INIT, steps).requests + [r]
            && s.monitor.None? && s.applied
  {
    more := OvertakeRequest(steps, r);
    var rest := SetFlagAndAnswer(Run(Run(INIT, steps), more));
    RunConcat(Run(INIT, steps), more, rest);
    more := more + rest;
  }

  // ---------- When the flag can be trusted ----------

  /** Whatever happens until the request after next, the flag says whether the next request has
      pulled the gadget up itself. */
  ghost predicate FlagFollows(s: State) {
    forall steps: seq<Step> :: Valid(s, steps) && |Run(s, steps).requests| == |s.requests| + 1 ==>
      (Run(s, steps).applied <==> PulledUpItself(Run(s, steps).history, |s.requests|))
  }

  lemma UpsReached(steps: seq<Step>)
    requires Valid(INIT, steps)
    ensures UpsRequested(Run(INIT, steps).history, Run(INIT, steps).requests)
  {
    Reached([]);
    UpsOnRun(INIT, steps);
  }

  const NO_FUNCTIONS := Request(Functions(false, false, false, false, false, false, false), [], [], true, 0)

  /** In any idle state `mCurrentUsbFunctionsApplied` will follow the next request, whatever it
      asks for and however the threads interleave, if and only if `mMonitorCreated` is false. */
  lemma AppliedFollowsIff(steps: seq<Step>)
    requires Valid(INIT, steps) && Run(INIT, steps).pc.Idle?
    ensures FlagFollows(Run(INIT, steps)) <==> !Run(INIT, steps).created
  {
    var s := Run(INIT, steps);
    Reached(steps);
    UpsReached(steps);
    if s.created {
      assert VendorLinks([]) == [];
      var more := AppliedOutlivesRequest(steps, NO_FUNCTIONS);
      RunConcat(INIT, steps, more);
      UpsReached(steps + more);
      NotPulledUp(Run(s, more).history, Run(s, more).requests, |s.requests|);
      assert !FlagFollows(s);
    } else {
      forall run: seq<Step> | Valid(s, run) && |Run(s, run).requests| == |s.requests| + 1
        ensures Run(s, run).applied <==> PulledUpItself(Run(s, run).history, |s.requests|)
      {
        QuietRun(s, run);
      }
    }
  }

  /** In particular a request for no functions then leaves the flag clear throughout. */
  lemma NoFunctionsNoFlag(steps: seq<Step>, more: seq<Step>)
    requires Valid(INIT, steps) && Run(INIT, steps).pc.Idle? && !Run(INIT, steps).created
    requires Valid(Run(INIT, steps), more)
    requires var before, after := Run(INIT, steps).requests, Run(Run(INIT, steps), more).requests;
             |after| == |before| + 1 && after[|before|].functions.None()
    ensures !Run(Run(INIT, steps), more).applied
  {
    var s := Run(INIT, steps);
    AppliedFollowsIff(steps);
    RunConcat(INIT, steps, more);
    UpsReached(steps + more);
    NotPulledUp(Run(s, more).history, Run(s, more).requests, |s.requests|);
  }

  /** From a fresh start: an adb request without a callback, then one for no functions. */
  lemma AppliedCanOutliveFunctions() returns (steps: seq<Step>)
    ensures Valid(INIT, steps)
    ensures var s := Run(INIT, steps);
            && s.pc.Idle? && |s.requests| > 0 && s.requests[|s.requests| - 1].functions.None()
            && s.monitor.None? && s.applied
  {
    steps := ReachesMonitored();
    assert VendorLinks([]) == [];
    var more := AppliedOutlivesRequest(steps, NO_FUNCTIONS);
    RunConcat(INIT, steps, more);
    steps := steps + more;
  }
}
