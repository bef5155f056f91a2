/** Whether a request comes to its callback: always, unless the write that was to stop the monitor
    has failed. */
module GadgetProgress {
  import opened Common
  import opened Histories
  import opened Gadget
  import opened GadgetSafety
  import opened GadgetTheorems
  import opened GadgetRuns
  import opened GadgetFlag
  import opened GadgetPlans

  /** The request thread joins a monitor that nobody has told to stop. */
  predicate Hung(s: State) {
    s.pc.TearJoin? && !s.stop
  }

  /** The steps end the current request. */
  predicate Finishes(s: State, steps: seq<Step>) {
    Valid(s, steps) && Run(s, steps).pc.Idle? && Run(s, steps).requests == s.requests
  }

  /** The kernel grants what the step asks of it. */
  predicate Succeeds(t: Step) {
    match t
    case Req(Validate(verdict)) => verdict == Success
    case Tear(ClearFiles(ok, _)) => ok
    case Tear(Signal(written)) => written
    case Setup(TakeLock(inotify)) => inotify
    case Setup(MakeLink(ok)) => ok
    case Setup(PullUpNow(ok)) => ok
    case Setup(Spawn(ok)) => ok
    case Mon(PullUpGadget(ok)) => ok
    case _ => true
  }

  predicate AllSucceed(steps: seq<Step>) {
    forall i :: 0 <= i < |steps| ==> Succeeds(steps[i])
  }

  predicate FinishesWell(s: State, steps: seq<Step>) {
    Finishes(s, steps) && AllSucceed(steps)
  }

  // ---------- From each place of the request thread to the answer ----------

  lemma FinishFrom(s: State, t: Step, rest: seq<Step>)
    requires Enabled(s, t) && Succeeds(t) && Next(s, t).requests == s.requests && FinishesWell(Next(s, t), rest)
    ensures FinishesWell(s, [t] + rest)
  {
    Then1(s, t, rest);
  }

  lemma FinishAtOnce(s: State, t: Step)
    requires Enabled(s, t) && Succeeds(t) && Next(s, t).requests == s.requests && Next(s, t).pc.Idle?
    ensures FinishesWell(s, [t])
  {
    hide Next, Enabled, Succeeds;
    assert FinishesWell(Next(s, t), []);
    FinishFrom(s, t, []);
    assert [t] + [] == [t];
  }

  lemma FinishFailing(s: State) returns (steps: seq<Step>)
    requires s.pc.Failing? && |s.requests| > 0
    ensures FinishesWell(s, steps)
  {
    hide FinishesWell;
    steps := [Req(RespondFailure)];
    FinishAtOnce(s, Req(RespondFailure));
  }

  lemma FinishAnswer(s: State) returns (steps: seq<Step>)
    requires (s.pc.Answer? || s.pc.Answered?) && |s.requests| > 0
    ensures FinishesWell(s, steps)
  {
    hide FinishesWell;
    steps := [Await(Respond)];
    FinishAtOnce(s, Await(Respond));
  }

  /** Nobody has pulled up; the wait runs into its timeout. */
  lemma FinishBlocked(s: State) returns (steps: seq<Step>)
    requires s.pc.Blocked? && !s.locked && |s.requests| > 0
    ensures FinishesWell(s, steps)
  {
    hide FinishesWell;
    var s1 := Next(s, Tick(s.deadline));
    var s2 := Next(s1, Await(TimeOut));
    var rest := FinishAnswer(Next(s2, Await(TakeLockBack)));
    FinishFrom(s2, Await(TakeLockBack), rest);
    rest := [Await(TakeLockBack)] + rest;
    FinishFrom(s1, Await(TimeOut), rest);
    rest := [Await(TimeOut)] + rest;
    FinishFrom(s, Tick(s.deadline), rest);
    steps := [Tick(s.deadline)] + rest;
  }

  lemma FinishCheckFlag(s: State) returns (steps: seq<Step>)
    requires s.pc.CheckFlag? && |s.requests| > 0
    ensures FinishesWell(s, steps)
  {
    hide FinishesWell;
    var s1 := Next(s, Await(TestFlag));
    var rest;
    if s.flag {
      rest := FinishAnswer(s1);
    } else {
      rest := FinishBlocked(s1);
    }
    FinishFrom(s, Await(TestFlag), rest);
    steps := [Await(TestFlag)] + rest;
  }

  lemma FinishReacquire(s: State) returns (steps: seq<Step>)
    requires s.pc.Reacquire? && !s.locked && |s.requests| > 0
    ensures FinishesWell(s, steps)
  {
    hide FinishesWell;
    var s1 := Next(s, Await(TakeLockBack));
    var rest;
    if s.pc.timedOut {
      rest := FinishAnswer(s1);
    } else {
      rest := FinishCheckFlag(s1);
    }
    FinishFrom(s, Await(TakeLockBack), rest);
    steps := [Await(TakeLockBack)] + rest;
  }

  lemma FinishStart(s: State) returns (steps: seq<Step>)
    requires s.pc.StartMonitor? && |s.requests| > 0
    ensures FinishesWell(s, steps)
  {
    hide FinishesWell;
    var t := Setup(Spawn(true));
    if s.requests[Current(s)].callback {
      var rest := FinishCheckFlag(Next(s, t));
      FinishFrom(s, t, rest);
      steps := [t] + rest;
    } else {
      FinishAtOnce(s, t);
      steps := [t];
    }
  }

  lemma FinishPullNow(s: State) returns (steps: seq<Step>)
    requires s.pc.PullNow? && |s.requests| > 0
    ensures FinishesWell(s, steps)
  {
    hide FinishesWell;
    var t := Setup(PullUpNow(true));
    var rest := FinishAnswer(Next(s, t));
    FinishFrom(s, t, rest);
    steps := [t] + rest;
  }

  lemma LinkOne(s: State)
    requires s.pc.Linking? && Serving(s, s.pc.k) && s.pc.k < |s.requests[Current(s)].plan|
    ensures Enabled(s, Setup(MakeLink(true)))
    ensures var n := Next(s, Setup(MakeLink(true)));
            n.pc == Linking(s.pc.k + 1) && n.requests == s.requests && Serving(n, s.pc.k + 1)
  {
    if s.pc.k in s.links {
      NamesAt(s.requests[Current(s)].plan, s.pc.k, s.pc.k);
    }
  }

  lemma FinishLinked(s: State) returns (steps: seq<Step>)
    requires s.pc.Linking? && Serving(s, s.pc.k) && s.pc.k == |s.requests[Current(s)].plan|
    ensures FinishesWell(s, steps)
  {
    hide FinishesWell, Serving;
    var t := Setup(LinksDone);
    var rest;
    if s.requests[Current(s)].functions.Ffs() {
      rest := FinishStart(Next(s, t));
    } else {
      rest := FinishPullNow(Next(s, t));
    }
    FinishFrom(s, t, rest);
    steps := [t] + rest;
  }

  lemma {:induction false} FinishLinking(s: State) returns (steps: seq<Step>)
    requires s.pc.Linking? && Serving(s, s.pc.k)
    ensures FinishesWell(s, steps)
    decreases |s.requests[Current(s)].plan| - s.pc.k
  {
    if s.pc.k < |s.requests[Current(s)].plan| {
      LinkOne(s);
      hide FinishesWell, Next, Enabled, Serving;
      var t := Setup(MakeLink(true));
      var rest := FinishLinking(Next(s, t));
      FinishFrom(s, t, rest);
      steps := [t] + rest;
    } else {
      steps := FinishLinked(s);
    }
  }

  lemma FinishLockSetup(s: State) returns (steps: seq<Step>)
    requires s.pc.LockSetup? && !s.locked && Serving(s, 0)
    ensures FinishesWell(s, steps)
  {
    hide FinishesWell;
    var t := Setup(TakeLock(true));
    var rest := FinishLinking(Next(s, t));
    FinishFrom(s, t, rest);
    steps := [t] + rest;
  }

  lemma FinishDispatch(s: State) returns (steps: seq<Step>)
    requires s.pc.Dispatch? && !s.locked && |s.requests| > 0 && s.links == map[] && s.endpoints == []
    ensures FinishesWell(s, steps)
  {
    hide FinishesWell;
    var t := Req(Validate(Success));
    if s.requests[Current(s)].functions.None() {
      FinishAtOnce(s, t);
      steps := [t];
    } else {
      var rest := FinishLockSetup(Next(s, t));
      FinishFrom(s, t, rest);
      steps := [t] + rest;
    }
  }

  // ---------- Through the teardown ----------

  /** Somewhere in the teardown, with every link removed. */
  predicate Unlinked(s: State) {
    !s.locked && |s.requests| > 0 && s.links == map[]
  }

  lemma FinishClose(s: State) returns (steps: seq<Step>)
    requires s.pc.TearClose? && Unlinked(s)
    ensures FinishesWell(s, steps)
  {
    hide FinishesWell;
    var rest := FinishDispatch(Next(s, Tear(Close)));
    FinishFrom(s, Tear(Close), rest);
    steps := [Tear(Close)] + rest;
  }

  /** The monitor has been told to stop and the request thread is waiting for it to end. */
  predicate Stopping(s: State) {
    && s.pc.TearJoin? && s.stop && Unlinked(s)
    && s.monitor.Some? && MonitorOk(s.monitor.value, s.now, |s.endpoints|)
  }

  /** How many more steps the monitor can be made to end in, beside the passing of time. */
  function StepsToEnd(pc: MonitorPc): nat {
    match pc
    case Done => 0
    case Wait => 1
    case LockFlag => 2
    case WriteUdc => 3
    case Sleep(_) => 4
    case Scan(_, _) => 5
  }

  lemma FinishDone(s: State) returns (steps: seq<Step>)
    requires Stopping(s) && s.monitor.value.pc.Done?
    ensures FinishesWell(s, steps)
  {
    hide FinishesWell;
    var rest := FinishClose(Next(s, Tear(Join)));
    FinishFrom(s, Tear(Join), rest);
    steps := [Tear(Join)] + rest;
  }

  /** What the monitor does next on its shortest way to its end, once it has slept enough. */
  function TowardsEnd(s: State): MonitorStep
    requires s.monitor.Some? && !s.monitor.value.pc.Done?
  {
    match s.monitor.value.pc
    case Wait => StopEvent
    case LockFlag => SetFlag
    case WriteUdc => PullUpGadget(true)
    case Sleep(_) => WakeUp
    case Scan(j, _) => if j < |s.endpoints| then Access(false) else ScanDone
  }

  lemma StepTowardsEnd(s: State)
    requires Stopping(s) && !s.monitor.value.pc.Done?
    requires s.monitor.value.pc.Sleep? ==> s.now >= s.monitor.value.pc.until
    ensures var t := Mon(TowardsEnd(s));
            && Enabled(s, t) && Succeeds(t) && Next(s, t).requests == s.requests
            && Stopping(Next(s, t))
            && StepsToEnd(Next(s, t).monitor.value.pc) < StepsToEnd(s.monitor.value.pc)
  {
    hide RequestNext, TearNext, SetupNext, WaitNext, RequestEnabled, TearEnabled, SetupEnabled, WaitEnabled, MonitorOk;
    MonitorMoves(s, TowardsEnd(s));
  }

  lemma {:induction false} FinishJoin(s: State) returns (steps: seq<Step>)
    requires Stopping(s)
    ensures FinishesWell(s, steps)
    decreases StepsToEnd(s.monitor.value.pc)
  {
    if s.monitor.value.pc.Done? {
      steps := FinishDone(s);
    } else {
      var tick := Tick(if s.monitor.value.pc.Sleep? then s.monitor.value.pc.until else 0);
      var s1 := Next(s, tick);
      hide FinishesWell;
      StepTowardsEnd(s1);
      var t := Mon(TowardsEnd(s1));
      hide Next;
      steps := FinishJoin(Next(s1, t));
      FinishFrom(s1, t, steps);
      steps := [t] + steps;
      FinishFrom(s, tick, steps);
      steps := [tick] + steps;
    }
  }

  lemma FinishSignal(s: State) returns (steps: seq<Step>)
    requires s.pc.TearSignal? && Unlinked(s) && s.created == s.monitor.Some?
    requires s.monitor.Some? ==> MonitorOk(s.monitor.value, s.now, |s.endpoints|)
    ensures FinishesWell(s, steps)
  {
    hide FinishesWell;
    var t := Tear(Signal(true));
    var rest;
    if s.created {
      rest := FinishJoin(Next(s, t));
    } else {
      rest := FinishClose(Next(s, t));
    }
    FinishFrom(s, t, rest);
    steps := [t] + rest;
  }

  lemma FinishTeardown(s: State) returns (steps: seq<Step>)
    requires s.pc.TearPull? || s.pc.TearFiles?
    requires !s.locked && |s.requests| > 0 && s.created == s.monitor.Some?
    requires s.monitor.Some? ==> MonitorOk(s.monitor.value, s.now, |s.endpoints|)
    ensures FinishesWell(s, steps)
    decreases s.pc.TearPull?
  {
    hide FinishesWell;
    if s.pc.TearPull? {
      var rest := FinishTeardown(Next(s, Tear(WriteNone)));
      FinishFrom(s, Tear(WriteNone), rest);
      steps := [Tear(WriteNone)] + rest;
    } else {
      var t := Tear(ClearFiles(true, {}));
      var rest := FinishSignal(Next(s, t));
      FinishFrom(s, t, rest);
      steps := [t] + rest;
    }
  }

  lemma FinishAnywhere(s: State) returns (steps: seq<Step>)
    requires ThreadInv(s) && SetupInv(s) && !s.pc.Idle? && !Hung(s)
    ensures FinishesWell(s, steps)
  {
    hide FinishesWell;
    match s.pc
    case TearPull | TearFiles => steps := FinishTeardown(s);
    case TearSignal => steps := FinishSignal(s);
    case TearJoin => steps := FinishJoin(s);
    case TearClose => steps := FinishClose(s);
    case Dispatch => steps := FinishDispatch(s);
    case LockSetup => steps := FinishLockSetup(s);
    case Linking(_) => steps := FinishLinking(s);
    case PullNow => steps := FinishPullNow(s);
    case StartMonitor => steps := FinishStart(s);
    case CheckFlag => steps := FinishCheckFlag(s);
    case Blocked(_) => steps := FinishBlocked(s);
    case Reacquire(_) => steps := FinishReacquire(s);
    case Answer | Answered => steps := FinishAnswer(s);
    case Failing(_) => steps := FinishFailing(s);
  }

  // ---------- A hung request ----------

  lemma StaysHung(s: State, t: Step)
    requires Enabled(s, t) && ThreadInv(s) && Hung(s)
    ensures Hung(Next(s, t)) && Next(s, t).requests == s.requests
  {}

  lemma {:induction false} HungForever(s: State, steps: seq<Step>)
    requires Valid(s, steps) && Inv(s) && Hung(s)
    ensures Hung(Run(s, steps)) && Run(s, steps).requests == s.requests
    decreases |steps|
  {
    if steps != [] {
      StaysHung(s, steps[0]);
      InvKept(s, steps[0]);
      hide Next, Inv, Enabled, Hung;
      HungForever(Next(s, steps[0]), steps[1..]);
    }
  }

  lemma HangRequest(s: State, r: Request) returns (more: seq<Step>)
    requires s.pc.Idle? && s.created && WellFormed(r) && !s.stop
    ensures Valid(s, more)
    ensures Hung(Run(s, more)) && Run(s, more).requests == s.requests + [r]
  {
    hide WellFormed;
    var s1 := Next(s, Req(Begin(r)));
    var s2 := Next(s1, Tear(WriteNone));
    var s3 := Next(s2, Tear(ClearFiles(true, {})));
    more := [Tear(Signal(false))];
    Then1(s3, Tear(Signal(false)), []);
    Then1(s2, Tear(ClearFiles(true, {})), more);
    more := [Tear(ClearFiles(true, {}))] + more;
    Then1(s1, Tear(WriteNone), more);
    more := [Tear(WriteNone)] + more;
    Then1(s, Req(Begin(r)), more);
    more := [Req(Begin(r))] + more;
  }

  // ---------- When a request is answered ----------

  /** A request that has begun can come to its end if and only if the request thread is not
      joining a monitor it has failed to signal; and then nothing need fail on the way. */
  lemma FinishesIff(steps: seq<Step>)
    requires Valid(INIT, steps) && !Run(INIT, steps).pc.Idle?
    ensures var s := Run(INIT, steps);
            && ((exists more :: Finishes(s, more)) <==> !Hung(s))
            && ((exists more :: FinishesWell(s, more)) <==> !Hung(s))
  {
    var s := Run(INIT, steps);
    Reached(steps);
    if Hung(s) {
      forall more | Valid(s, more)
        ensures !Finishes(s, more)
      {
        HungForever(s, more);
      }
    } else {
      var more := FinishAnywhere(s);
    }
  }

  /** The steps lead to request `r` having had its callback, exactly once. */
  predicate CallsBack(s: State, more: seq<Step>, r: nat) {
    Valid(s, more) && Callbacks(Run(s, more).history, r) == 1
  }

  /** A request with a callback that has not finished can still get its one callback under the
      same condition, and otherwise never gets it. */
  lemma CallbackIff(steps: seq<Step>)
    requires Valid(INIT, steps) && !Run(INIT, steps).pc.Idle?
    requires var s := Run(INIT, steps); |s.requests| > 0 && s.requests[Current(s)].callback
    ensures var s := Run(INIT, steps);
            (exists more :: CallsBack(s, more, Current(s))) <==> !Hung(s)
  {
    var s := Run(INIT, steps);
    Reached(steps);
    if Hung(s) {
      forall more | Valid(s, more)
        ensures !CallsBack(s, more, Current(s))
      {
        HungForever(s, more);
        RunConcat(INIT, steps, more);
        OneCallback(steps + more, Current(s));
      }
    } else {
      var more := FinishAnywhere(s);
      RunConcat(INIT, steps, more);
      OneCallback(steps + more, Current(s));
      assert CallsBack(s, more, Current(s));
    }
  }

  /** Whatever happens until the request after next, the next request does not hang. */
  ghost predicate NeverHangs(s: State) {
    forall steps: seq<Step> ::
      Valid(s, steps) && |Run(s, steps).requests| == |s.requests| + 1 ==> !Hung(Run(s, steps))
  }

  /** In any idle state the next request is sure to stay able to finish, whatever it asks for and
      whatever fails, if and only if `mMonitorCreated` is false. */
  lemma NeverHangsIff(steps: seq<Step>)
    requires Valid(INIT, steps) && Run(INIT, steps).pc.Idle?
    ensures NeverHangs(Run(INIT, steps)) <==> !Run(INIT, steps).created
  {
    var s := Run(INIT, steps);
    Reached(steps);
    if s.created {
      AdbWellFormed();
      var more := HangRequest(s, ADB_REQUEST);
      assert !NeverHangs(s);
    } else {
      UpsReached(steps);
      forall run: seq<Step> | Valid(s, run) && |Run(s, run).requests| == |s.requests| + 1
        ensures !Hung(Run(s, run))
      {
        QuietRun(s, run);
        RunConcat(INIT, steps, run);
        Reached(steps + run);
      }
    }
  }

  /** From a fresh start: an adb request and its monitor, then a request that fails to signal it
      and is never answered. */
  lemma UnsignalledHangs(r: Request) returns (steps: seq<Step>)
    requires WellFormed(r)
    ensures Valid(INIT, steps)
    ensures var s := Run(INIT, steps);
            && Hung(s) && s.requests == [ADB_REQUEST, r]
            && forall more :: Valid(s, more) ==> !Run(s, more).pc.Idle? && Callbacks(Run(s, more).history, 1) == 0
  {
    steps := ReachesMonitored();
    var more := HangRequest(MONITORED, r);
    RunConcat(INIT, steps, more);
    steps := steps + more;
    var s := Run(INIT, steps);
    Reached(steps);
    forall rest | Valid(s, rest)
      ensures !Run(s, rest).pc.Idle? && Callbacks(Run(s, rest).history, 1) == 0
    {
      HungForever(s, rest);
      RunConcat(INIT, steps, rest);
      OneCallback(steps + rest, 1);
    }
  }
}
