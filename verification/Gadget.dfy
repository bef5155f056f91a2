/** The USB gadget service (`UsbGadget.cpp`): one request thread, serialised by
    `mLockSetCurrentFunction`, and the monitor thread it starts and joins.  A step is one
    access to what the two share; everything the kernel decides is a parameter of the step. */
module Gadget {

  import opened Common
  import opened Histories

  // ---------- Requests ----------

  /** The bits of the `functions` argument. */
  datatype Functions = Functions(mtp: bool, ptp: bool, midi: bool, accessory: bool,
                                 audioSource: bool, rndis: bool, adb: bool) {
    predicate None() {
      !(mtp || ptp || midi || accessory || audioSource || rndis || adb)
    }

    /** `ffsEnabled`. */
    predicate Ffs() {
      mtp || ptp || adb
    }
  }

  /** A symbolic link to create in the configuration, and the endpoints it makes the monitor watch. */
  datatype Link = Link(name: string, endpoints: seq<string>)

  /** `vendor` is the token list of the vendor functions property, `plan` the links that follow
      from it and from the functions (`PlanOf`), `timeout` is in nanoseconds. */
  datatype Request = Request(functions: Functions, vendor: seq<string>, plan: seq<Link>,
                             callback: bool, timeout: nat)

  function VendorLinks(tokens: seq<string>): seq<Link> {
    if tokens == [] then []
    else
      var rest := VendorLinks(tokens[1..]);
      if tokens[0] == "diag" then [Link("diag.diag", [])] + rest
      else if tokens[0] == "serial_cdev" then [Link("cser.dun.0", [])] + rest
      else if tokens[0] == "rmnet_gsi" then [Link("gsi.rmnet", [])] + rest
      else rest
  }

  /** The links `setupFunctions` creates, in order. */
  function PlanOf(functions: Functions, vendor: seq<string>): seq<Link> {
    (if functions.mtp then
       [Link("ffs.mtp", ["/dev/usb-ffs/mtp/ep1", "/dev/usb-ffs/mtp/ep2", "/dev/usb-ffs/mtp/ep3"])]
     else if functions.ptp then
       [Link("ffs.ptp", ["/dev/usb-ffs/ptp/ep1", "/dev/usb-ffs/ptp/ep2", "/dev/usb-ffs/ptp/ep3"])]
     else [])
    + (if functions.midi then [Link("midi.gs5", [])] else [])
    + (if functions.accessory then [Link("accessory.gs2", [])] else [])
    + (if functions.audioSource then [Link("audio_source.gs3", [])] else [])
    + (if functions.rndis then [Link("gsi.rndis", [])] else [])
    + VendorLinks(vendor)
    + (if functions.adb then
         [Link("ffs.adb", ["/dev/usb-ffs/adb/ep1", "/dev/usb-ffs/adb/ep2"])]
       else [])
  }

  predicate WellFormed(r: Request) {
    r.plan == PlanOf(r.functions, r.vendor)
  }

  /** The endpoints, and the numbered link names, of the first `k` entries of a plan. */
  function Endpoints(plan: seq<Link>, k: nat): seq<string>
    requires k <= |plan|
  {
    if k == 0 then [] else Endpoints(plan, k - 1) + plan[k - 1].endpoints
  }

  function Names(plan: seq<Link>, k: nat): map<nat, string>
    requires k <= |plan|
  {
    if k == 0 then map[] else Names(plan, k - 1)[k - 1 := plan[k - 1].name]
  }

  // ---------- State ----------

  datatype Status = Success | Error | NotSupported

  datatype RequestPc =
    | Idle
    | TearPull | TearFiles | TearSignal | TearJoin | TearClose
    | Dispatch
    | LockSetup | Linking(k: nat) | PullNow | StartMonitor
    | CheckFlag | Blocked(notified: bool) | Reacquire(timedOut: bool) | Answer
    | Answered                                 // pulled up directly, callback still to come
    | Failing(status: Status)

  datatype MonitorPc =
    | Scan(j: nat, initial: bool)
    | Sleep(until: nat)
    | WriteUdc
    | LockFlag
    | Wait
    | Done

  /** A monitor thread that has not been joined; `id` is the request that created it. */
  datatype Monitor = Monitor(id: nat, pc: MonitorPc, writeUdc: bool, disconnect: nat)

  datatype Event =
    | Began(request: nat)
    | TornDown(request: nat)                     // its teardown has succeeded
    | Judged(request: nat, verdict: Status)      // what validateAndSetVidPid said
    | Refused(request: nat)                      // the kernel has refused it something
    | Found(mon: nat, endpoint: nat)             // an endpoint was found present
    | Absent(mon: nat, at: nat)                  // an endpoint was found missing
    | UdcUp(mon: nat)                            // the monitor wrote the UDC successfully
    | PullUp(mon: nat)                           // the monitor set gadgetPullup under mLock
    | DirectUp(request: nat)                     // the request wrote the UDC itself
    | Callback(request: nat, status: Status)

  datatype State = State(
    requests: seq<Request>, pc: RequestPc, locked: bool, started: nat, deadline: nat,
    endpoints: seq<string>, links: map<nat, string>, fds: Option<nat>, created: bool,
    stop: bool, flag: bool, applied: bool,
    monitor: Option<Monitor>, terminated: bool,
    now: nat, history: History<Event>)

  const INIT := State([], Idle, false, 0, 0, [], map[], None, false, false, false, false, None, false, 0, Start)

  /** PULL_UP_DELAY in nanoseconds. */
  const PULL_UP_DELAY: nat := 500_000_000

  function Current(s: State): nat
    requires |s.requests| > 0
  {
    |s.requests| - 1
  }

  /** The request has created its monitor and has not answered yet. */
  predicate Waiting(pc: RequestPc) {
    pc.CheckFlag? || pc.Blocked? || pc.Reacquire? || pc.Answer?
  }

  // ---------- setCurrentUsbFunctions ----------

  /** The callback of the current request, if it asked for one. */
  function Reply(s: State, status: Status): History<Event>
    requires |s.requests| > 0
  {
    if s.requests[Current(s)].callback then Then(s.history, Callback(Current(s), status)) else s.history
  }

  datatype RequestStep =
    | Begin(request: Request)
    | Validate(verdict: Status)
    | RespondFailure

  predicate RequestEnabled(s: State, t: RequestStep) {
    match t
    case Begin(_) => s.pc.Idle?
    case Validate(_) => s.pc.Dispatch? && |s.requests| > 0
    case RespondFailure => s.pc.Failing? && |s.requests| > 0
  }

  function RequestNext(s: State, t: RequestStep): (n: State)
    requires RequestEnabled(s, t)
    ensures s.requests <= n.requests
  {
    match t
    case Begin(r) =>
      s.(requests := s.requests + [r], applied := false, pc := TearPull,
         history := Then(s.history, Began(|s.requests|)))
    case Validate(verdict) =>
      var none := s.requests[Current(s)].functions.None();
      s.(pc := if none then Idle else if verdict != Success then Failing(verdict) else LockSetup,
         history := if none then Reply(s, Success) else Then(s.history, Judged(Current(s), verdict)))
    case RespondFailure => s.(pc := Idle, history := Reply(s, s.pc.status))
  }

  // ---------- tearDownGadget ----------

  datatype TearStep =
    | WriteNone                                // a failed "none" write is only logged
    | ClearFiles(ok: bool, kept: set<nat>)     // four attribute writes, then unlinkFunctions
    | Signal(written: bool)
    | Join
    | Close

  predicate TearEnabled(s: State, t: TearStep) {
    match t
    case WriteNone => s.pc.TearPull?
    case ClearFiles(_, _) => s.pc.TearFiles?
    case Signal(_) => s.pc.TearSignal?
    case Join => s.pc.TearJoin? && s.monitor.Some? && s.monitor.value.pc.Done?
    case Close => s.pc.TearClose? && |s.requests| > 0
  }

  function TearNext(s: State, t: TearStep): (n: State)
    requires TearEnabled(s, t)
    ensures n.requests == s.requests
  {
    match t
    case WriteNone => s.(pc := TearFiles)
    case ClearFiles(ok, kept) =>
      s.(links := if ok then map[] else map k | k in s.links && k in kept :: s.links[k],
         pc := if ok then TearSignal else Failing(Error))
    case Signal(written) =>
      s.(stop := s.stop || (s.created && written), pc := if s.created then TearJoin else TearClose)
    case Join => s.(monitor := None, created := false, pc := TearClose)
    case Close =>
      s.(fds := None, stop := false, endpoints := [], pc := Dispatch,
         history := Then(s.history, TornDown(Current(s))))
  }

  // ---------- setupFunctions, up to the wait ----------

  datatype SetupStep =
    | TakeLock(inotify: bool)
    | MakeLink(ok: bool)
    | LinksDone
    | PullUpNow(ok: bool)
    | Spawn(ok: bool)

  predicate SetupEnabled(s: State, t: SetupStep) {
    |s.requests| > 0 &&
    match t
    case TakeLock(_) => s.pc.LockSetup? && !s.locked
    case MakeLink(ok) =>
      s.pc.Linking? && s.pc.k < |s.requests[Current(s)].plan| && (ok ==> s.pc.k !in s.links)
    case LinksDone => s.pc.Linking? && s.pc.k >= |s.requests[Current(s)].plan|
    case PullUpNow(_) => s.pc.PullNow?
    case Spawn(_) => s.pc.StartMonitor?
  }

  /** The history after a step that succeeded, or that the kernel refused. */
  function Outcome(s: State, ok: bool, after: History<Event>): History<Event>
    requires |s.requests| > 0
  {
    if ok then after else Then(s.history, Refused(Current(s)))
  }

  function SetupNext(s: State, t: SetupStep): (n: State)
    requires SetupEnabled(s, t)
    ensures n.requests == s.requests
  {
    var r := s.requests[Current(s)];
    match t
    case TakeLock(inotify) =>
      s.(locked := inotify, pc := if inotify then Linking(0) else Failing(Error),
         history := Outcome(s, inotify, s.history))
    case MakeLink(ok) =>
      var k := s.pc.k;
      s.(links := if ok then s.links[k := r.plan[k].name] else s.links,
         endpoints := if ok then s.endpoints + r.plan[k].endpoints else s.endpoints,
         locked := ok, pc := if ok then Linking(k + 1) else Failing(Error),
         history := Outcome(s, ok, s.history))
    case LinksDone => s.(pc := if r.functions.Ffs() then StartMonitor else PullNow)
    case PullUpNow(ok) =>
      s.(applied := s.applied || ok, locked := ok, pc := if ok then Answered else Failing(Error),
         history := Outcome(s, ok, Then(s.history, DirectUp(Current(s)))))
    case Spawn(ok) =>
      s.(fds := if ok then Some(Current(s)) else s.fds,
         stop := s.stop && !ok, flag := s.flag && !ok, created := s.created || ok,
         monitor := if ok then Some(Monitor(Current(s), Scan(0, true), true, 0)) else s.monitor,
         terminated := s.terminated || (ok && s.monitor.Some?), started := s.now,
         deadline := s.now + r.timeout,
         locked := ok && r.callback, history := Outcome(s, ok, s.history),
         pc := if !ok then Failing(Error) else if r.callback then CheckFlag else Idle)
  }

  // ---------- The wait for the first pull-up, and the answer ----------

  datatype WaitStep =
    | TestFlag
    | Wake                                     // notified or spurious
    | TimeOut
    | TakeLockBack
    | Respond

  predicate WaitEnabled(s: State, t: WaitStep) {
    match t
    case TestFlag => s.pc.CheckFlag?
    case Wake => s.pc.Blocked?
    case TimeOut => s.pc.Blocked? && s.now >= s.deadline
    case TakeLockBack => s.pc.Reacquire? && !s.locked
    case Respond => (s.pc.Answer? || s.pc.Answered?) && |s.requests| > 0
  }

  function WaitNext(s: State, t: WaitStep): (n: State)
    requires WaitEnabled(s, t)
    ensures n.requests == s.requests
  {
    match t
    case TestFlag => s.(locked := s.flag, pc := if s.flag then Answer else Blocked(false))
    case Wake => s.(pc := Reacquire(false))
    case TimeOut => s.(pc := Reacquire(true))
    case TakeLockBack => s.(locked := true, pc := if s.pc.timedOut then Answer else CheckFlag)
    case Respond =>
      s.(locked := false, pc := Idle,
         history := Reply(s, if s.pc.Answered? || s.flag then Success else Error))
  }

  // ---------- monitorFfs ----------

  datatype MonitorStep =
    | Access(present: bool)
    | ScanDone
    | WakeUp
    | PullUpGadget(ok: bool)
    | SetFlag
    | InotifyEvent
    | StopEvent

  predicate MonitorEnabled(s: State, t: MonitorStep) {
    s.monitor.Some? &&
    var pc := s.monitor.value.pc;
    match t
    case Access(_) => pc.Scan? && pc.j < |s.endpoints|
    case ScanDone => pc.Scan? && pc.j >= |s.endpoints|
    case WakeUp => pc.Sleep? && s.now >= pc.until
    case PullUpGadget(_) => pc.WriteUdc?
    case SetFlag => pc.LockFlag? && !s.locked
    case InotifyEvent => pc.Wait?
    case StopEvent => pc.Wait? && s.stop
  }

  /** The monitor's own variables. */
  function Moved(m: Monitor, t: MonitorStep, now: nat): Monitor
    requires t.Access? || t.ScanDone? ==> m.pc.Scan?
  {
    match t
    case Access(present) =>
      if present then m.(pc := Scan(m.pc.j + 1, m.pc.initial))
      else if m.pc.initial || m.writeUdc then m.(pc := Wait)
      else m.(pc := Wait, writeUdc := true, disconnect := now)
    case ScanDone =>
      if m.pc.initial then m.(pc := Sleep(now + PULL_UP_DELAY))
      else if !m.writeUdc then m.(pc := Wait)
      else if now < m.disconnect + PULL_UP_DELAY then m.(pc := Sleep(now + PULL_UP_DELAY))
      else m.(pc := WriteUdc)
    case WakeUp => m.(pc := WriteUdc)
    case PullUpGadget(ok) => m.(pc := if ok then LockFlag else Wait)
    case SetFlag => m.(pc := Wait, writeUdc := false)
    case InotifyEvent => m.(pc := Scan(0, false))
    case StopEvent => m.(pc := Done)
  }

  function Noted(h: History<Event>, m: Monitor, t: MonitorStep, now: nat): History<Event>
    requires t.Access? ==> m.pc.Scan?
  {
    if t.Access? then Then(h, if t.present then Found(m.id, m.pc.j) else Absent(m.id, now))
    else if t == PullUpGadget(true) then Then(h, UdcUp(m.id))
    else if t == SetFlag then Then(h, PullUp(m.id))
    else h
  }

  function MonitorNext(s: State, t: MonitorStep): (n: State)
    requires MonitorEnabled(s, t)
    ensures n.requests == s.requests
  {
    var m := s.monitor.value;
    s.(monitor := Some(Moved(m, t, s.now)), history := Noted(s.history, m, t, s.now),
       applied := s.applied || t.SetFlag?, flag := s.flag || t.SetFlag?,
       pc := if t.SetFlag? && s.pc.Blocked? then Blocked(true) else s.pc)
  }

  // ---------- Steps of the whole service ----------

  datatype Step =
    | Tick(elapsed: nat)
    | Req(r: RequestStep)
    | Tear(d: TearStep)
    | Setup(u: SetupStep)
    | Await(w: WaitStep)
    | Mon(m: MonitorStep)

  predicate Enabled(s: State, t: Step) {
    match t
    case Tick(_) => true
    case Req(r) => RequestEnabled(s, r) && (r.Begin? ==> WellFormed(r.request))
    case Tear(d) => TearEnabled(s, d)
    case Setup(u) => SetupEnabled(s, u)
    case Await(w) => WaitEnabled(s, w)
    case Mon(m) => MonitorEnabled(s, m)
  }

  function Next(s: State, t: Step): (n: State)
    requires Enabled(s, t)
    ensures s.requests <= n.requests
  {
    match t
    case Tick(elapsed) => s.(now := s.now + elapsed)
    case Req(r) => RequestNext(s, r)
    case Tear(d) => TearNext(s, d)
    case Setup(u) => SetupNext(s, u)
    case Await(w) => WaitNext(s, w)
    case Mon(m) => MonitorNext(s, m)
  }

  // ---------- Runs ----------

  predicate Valid(s: State, steps: seq<Step>)
    decreases |steps|
  {
    steps == [] || (Enabled(s, steps[0]) && Valid(Next(s, steps[0]), steps[1..]))
  }

  /** The state after a run: any interleaving of both threads and the kernel's answers. */
  function Run(s: State, steps: seq<Step>): State
    requires Valid(s, steps)
    decreases |steps|
  {
    if steps == [] then s else Run(Next(s, steps[0]), steps[1..])
  }
}
