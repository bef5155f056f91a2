/** Runs of the gadget service put together step by step: to a started monitor, and from there to
    the moment at which the monitor overtakes the next request. */
module GadgetRuns {
  import opened Common
  import opened Histories
  import opened Gadget
  import opened GadgetPlans
  import opened GadgetSafety
  import opened GadgetTheorems

  lemma Then1(s: State, t: Step, rest: seq<Step>)
    requires Enabled(s, t) && Valid(Next(s, t), rest)
    ensures Valid(s, [t] + rest) && Run(s, [t] + rest) == Run(Next(s, t), rest)
  {
    assert ([t] + rest)[1..] == rest;
  }

  // ---------- A monitor that overtakes the next request ----------

  /** A request has begun, its teardown has not, and the monitor left over still runs. */
  predicate Overtaking(s: State) {
    s.pc.TearPull? && !s.locked && s.created && s.monitor.Some? && s.endpoints != []
  }

  /** The steps lead to that monitor being about to write the UDC, and change nothing for the request. */
  predicate Overtakes(s: State, steps: seq<Step>) {
    Valid(s, steps) &&
    var end := Run(s, steps);
    && Overtaking(end) && end.monitor.value.pc.WriteUdc?
    && end.requests == s.requests && end.links == s.links
  }

  /** A step of the monitor, or of the clock. */
  predicate Aside(s: State, t: Step) {
    t.Tick? || (t.Mon? && MonitorEnabled(s, t.m))
  }

  lemma OvertakesFrom(s: State, t: Step, rest: seq<Step>)
    requires Overtaking(s) && Aside(s, t) && Overtakes(Next(s, t), rest)
    ensures Overtakes(s, [t] + rest)
  {
    Then1(s, t, rest);
  }

  lemma StaysOvertaking(s: State, t: Step)
    requires Overtaking(s) && Aside(s, t)
    ensures Overtaking(Next(s, t)) && Next(s, t).endpoints == s.endpoints
    ensures Next(s, t).monitor.value == if t.Mon? then Moved(s.monitor.value, t.m, s.now) else s.monitor.value
    ensures Next(s, t).now == s.now + if t.Tick? then t.elapsed else 0
  {}

  lemma AtTheWrite(s: State)
    requires Overtaking(s) && s.monitor.value.pc.WriteUdc?
    ensures Overtakes(s, [])
  {}

  lemma FromSleep(s: State) returns (steps: seq<Step>)
    requires Overtaking(s) && s.monitor.value.pc.Sleep?
    ensures Overtakes(s, steps)
  {
    hide Next, Overtakes;
    var tick := Tick(s.monitor.value.pc.until);
    StaysOvertaking(s, tick);
    var s1 := Next(s, tick);
    StaysOvertaking(s1, Mon(WakeUp));
    AtTheWrite(Next(s1, Mon(WakeUp)));
    OvertakesFrom(s1, Mon(WakeUp), []);
    var rest := [Mon(WakeUp)] + [];
    steps := [tick] + rest;
    OvertakesFrom(s, tick, rest);
  }

  /** All endpoints left to look at are there. */
  lemma {:induction false} FromArmedScan(s: State) returns (steps: seq<Step>)
    requires Overtaking(s) && s.monitor.value.pc.Scan? && s.monitor.value.writeUdc
    ensures Overtakes(s, steps)
    decreases |s.endpoints| - s.monitor.value.pc.j
  {
    hide Next, Overtakes;
    var t := Mon(if s.monitor.value.pc.j < |s.endpoints| then Access(true) else ScanDone);
    StaysOvertaking(s, t);
    var rest;
    if t.m.Access? {
      rest := FromArmedScan(Next(s, t));
    } else if Next(s, t).monitor.value.pc.Sleep? {
      rest := FromSleep(Next(s, t));
    } else {
      rest := [];
      AtTheWrite(Next(s, t));
    }
    steps := [t] + rest;
    OvertakesFrom(s, t, rest);
  }

  /** An event comes; if the monitor is not to write the UDC it first finds an endpoint missing. */
  lemma FromWait(s: State) returns (steps: seq<Step>)
    requires Overtaking(s) && s.monitor.value.pc.Wait?
    ensures Overtakes(s, steps)
    decreases !s.monitor.value.writeUdc
  {
    hide Next, Overtakes;
    var event := Mon(InotifyEvent);
    StaysOvertaking(s, event);
    var s1 := Next(s, event);
    var rest;
    if s.monitor.value.writeUdc {
      rest := FromArmedScan(s1);
    } else {
      StaysOvertaking(s1, Mon(Access(false)));
      rest := FromWait(Next(s1, Mon(Access(false))));
      OvertakesFrom(s1, Mon(Access(false)), rest);
      rest := [Mon(Access(false))] + rest;
    }
    steps := [event] + rest;
    OvertakesFrom(s, event, rest);
  }

  lemma FromLockFlag(s: State) returns (steps: seq<Step>)
    requires Overtaking(s) && s.monitor.value.pc.LockFlag?
    ensures Overtakes(s, steps)
  {
    hide Next, Overtakes;
    StaysOvertaking(s, Mon(SetFlag));
    var rest := FromWait(Next(s, Mon(SetFlag)));
    steps := [Mon(SetFlag)] + rest;
    OvertakesFrom(s, Mon(SetFlag), rest);
  }

  lemma FromScan(s: State) returns (steps: seq<Step>)
    requires Overtaking(s) && s.monitor.value.pc.Scan?
    ensures Overtakes(s, steps)
  {
    if s.monitor.value.writeUdc {
      steps := FromArmedScan(s);
    } else {
      hide Next, Overtakes;
      var t := Mon(if s.monitor.value.pc.j < |s.endpoints| then Access(false) else ScanDone);
      StaysOvertaking(s, t);
      var rest;
      if Next(s, t).monitor.value.pc.Wait? {
        rest := FromWait(Next(s, t));
      } else {
        rest := FromSleep(Next(s, t));
      }
      steps := [t] + rest;
      OvertakesFrom(s, t, rest);
    }
  }

  /** Wherever the monitor is, it can still come to write the UDC. */
  lemma FromAnywhere(s: State) returns (steps: seq<Step>)
    requires Overtaking(s) && !s.monitor.value.pc.Done?
    ensures Overtakes(s, steps)
  {
    hide Overtakes;
    match s.monitor.value.pc
    case Scan(_, _) => steps := FromScan(s);
    case Sleep(_) => steps := FromSleep(s);
    case WriteUdc =>
      steps := [];
      AtTheWrite(s);
    case LockFlag => steps := FromLockFlag(s);
    case Wait => steps := FromWait(s);
  }

  lemma {:induction false} EndpointsOf(plan: seq<Link>, k: nat, i: nat)
    requires i < k <= |plan| && plan[i].endpoints != []
    ensures Endpoints(plan, k) != []
  {
    if i < k - 1 {
      EndpointsOf(plan, k - 1, i);
    }
  }

  lemma FfsHasEndpoints(r: Request)
    requires WellFormed(r) && r.functions.Ffs()
    ensures Endpoints(r.plan, |r.plan|) != []
  {
    var i := if r.functions.adb then |r.plan| - 1 else 0;
    assert r.plan[i].endpoints != [];
    EndpointsOf(r.plan, |r.plan|, i);
  }

  /** Whenever the service is idle with a monitor, that monitor can write the UDC after the next
      request has begun and before its teardown. */
  lemma OvertakeRequest(steps: seq<Step>, r: Request) returns (more: seq<Step>)
    requires Valid(INIT, steps) && WellFormed(r)
    requires Run(INIT, steps).pc.Idle? && Run(INIT, steps).created
    ensures Valid(Run(INIT, steps), more)
    ensures var s := Run(Run(INIT, steps), more);
            && Overtaking(s) && s.monitor.value.pc.WriteUdc?
            && s.requests == Run(INIT, steps).requests + [r]
  {
    var s0 := Run(INIT, steps);
    Reached(steps);
    PlansOnRun(INIT, steps);
    FfsHasEndpoints(s0.requests[s0.monitor.value.id]);
    var s1 := Next(s0, Req(Begin(r)));
    var rest := FromAnywhere(s1);
    Then1(s0, Req(Begin(r)), rest);
    more := [Req(Begin(r))] + rest;
  }

  // ---------- From the start to a monitor ----------

  const ADB := Functions(false, false, false, false, false, false, true)
  const ADB_REQUEST := Request(ADB, [], [ADB_LINK], false, 0)

  lemma AdbWellFormed()
    ensures WellFormed(ADB_REQUEST)
  {
    assert VendorLinks([]) == [];
  }

  const DISPATCHING := INIT.(
    requests := [ADB_REQUEST], pc := Dispatch, history := Then(Then(Start, Began(0)), TornDown(0)))

  const MONITORED := DISPATCHING.(
    pc := Idle, endpoints := ADB_LINK.endpoints, links := map[0 := ADB_LINK.name], fds := Some(0), created := true,
    monitor := Some(Monitor(0, Scan(0, true), true, 0)),
    history := Then(DISPATCHING.history, Judged(0, Success)))

  lemma ReachesDispatch() returns (steps: seq<Step>)
    ensures Valid(INIT, steps) && Run(INIT, steps) == DISPATCHING
  {
    AdbWellFormed();
    hide WellFormed;
    var s1 := Next(INIT, Req(Begin(ADB_REQUEST)));
    var s2 := Next(s1, Tear(WriteNone));
    var s3 := Next(s2, Tear(ClearFiles(true, {})));
    var s4 := Next(s3, Tear(Signal(true)));
    steps := [Tear(Close)];
    Then1(s4, Tear(Close), []);
    Then1(s3, Tear(Signal(true)), steps);
    steps := [Tear(Signal(true))] + steps;
    Then1(s2, Tear(ClearFiles(true, {})), steps);
    steps := [Tear(ClearFiles(true, {}))] + steps;
    Then1(s1, Tear(WriteNone), steps);
    steps := [Tear(WriteNone)] + steps;
    Then1(INIT, Req(Begin(ADB_REQUEST)), steps);
    steps := [Req(Begin(ADB_REQUEST))] + steps;
  }

  lemma ReachesMonitor() returns (steps: seq<Step>)
    ensures Valid(DISPATCHING, steps) && Run(DISPATCHING, steps) == MONITORED
  {
    var s1 := Next(DISPATCHING, Req(Validate(Success)));
    var s2 := Next(s1, Setup(TakeLock(true)));
    var s3 := Next(s2, Setup(MakeLink(true)));
    var s4 := Next(s3, Setup(LinksDone));
    assert Next(s4, Setup(Spawn(true))) == MONITORED;
    steps := [Setup(Spawn(true))];
    Then1(s4, Setup(Spawn(true)), []);
    Then1(s3, Setup(LinksDone), steps);
    steps := [Setup(LinksDone)] + steps;
    Then1(s2, Setup(MakeLink(true)), steps);
    steps := [Setup(MakeLink(true))] + steps;
    Then1(s1, Setup(TakeLock(true)), steps);
    steps := [Setup(TakeLock(true))] + steps;
    Then1(DISPATCHING, Req(Validate(Success)), steps);
    steps := [Req(Validate(Success))] + steps;
  }

  /** From a fresh start: an adb request without a callback, and its monitor. */
  lemma ReachesMonitored() returns (steps: seq<Step>)
    ensures Valid(INIT, steps) && Run(INIT, steps) == MONITORED
  {
    steps := ReachesDispatch();
    var more := ReachesMonitor();
    RunConcat(INIT, steps, more);
    steps := steps + more;
  }
}
