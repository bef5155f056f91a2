/** What holds over every run of the gadget service: the monitor's life cycle, what a callback
    means, how often it comes, and how the monitor spaces its pull-ups. */
module GadgetSafety {
  import opened Common
  import opened Histories
  import opened Gadget

  // ---------- Reading a history ----------

  /** Since monitor `r` last wrote the UDC it has found an endpoint missing (or never wrote). */
  predicate Armed(h: History<Event>, r: nat) {
    match h
    case Start => true
    case Then(before, e) => e != UdcUp(r) && ((e.Absent? && e.mon == r) || Armed(before, r))
  }

  /** Every successful UDC write of a monitor found it armed. */
  predicate Spaced(h: History<Event>) {
    h.Start? || (Spaced(h.before) && (h.last.UdcUp? ==> Armed(h.before, h.last.mon)))
  }

  /** When an event may come: a recorded pull-up follows its monitor's UDC write, and the answer
      to an FFS request is a success exactly when its own monitor's pull-up came first. */
  predicate Justified(e: Event, before: History<Event>, requests: seq<Request>) {
    match e
    case PullUp(r) => Happened(before, UdcUp(r))
    case Callback(r, status) =>
      r < |requests| && requests[r].callback
      && (requests[r].functions.Ffs() ==> (status == Success <==> Happened(before, PullUp(r))))
      && (status == Success ==>
            requests[r].functions.Ffs() || requests[r].functions.None() || Happened(before, DirectUp(r)))
    case _ => true
  }

  predicate AllJustified(h: History<Event>, requests: seq<Request>) {
    h.Start? || (AllJustified(h.before, requests) && Justified(h.last, h.before, requests))
  }

  function Callbacks(h: History<Event>, r: nat): nat {
    match h
    case Start => 0
    case Then(before, e) => Callbacks(before, r) + (if e.Callback? && e.request == r then 1 else 0)
  }

  /** All monitors heard of belong to the first `n` requests. */
  predicate MonitorsBelow(h: History<Event>, n: nat) {
    match h
    case Start => true
    case Then(before, e) => MonitorsBelow(before, n) && (e.Found? || e.Absent? || e.UdcUp? || e.PullUp? ==> e.mon < n)
  }

  // ---------- The invariant ----------

  /** The request thread is past the join of the previous monitor and has not started its own. */
  predicate Between(pc: RequestPc) {
    pc.TearClose? || pc.Dispatch? || pc.LockSetup? || pc.Linking? || pc.PullNow? || pc.StartMonitor?
    || pc.Answered?
  }

  predicate HoldsLock(pc: RequestPc) {
    pc.Linking? || pc.PullNow? || pc.StartMonitor? || pc.CheckFlag? || pc.Answer? || pc.Answered?
  }

  /** No monitor of the current request exists yet, or the service is idle. */
  function MonitorBound(s: State): nat {
    if s.pc.Idle? || Waiting(s.pc) || |s.requests| == 0 then |s.requests| else |s.requests| - 1
  }

  /** The monitor's own variables against the clock and the length of the endpoint list. */
  predicate MonitorOk(m: Monitor, now: nat, endpoints: nat) {
    && m.disconnect <= now
    && match m.pc
       case Scan(j, initial) => j <= endpoints && (initial ==> m.writeUdc)
       case Sleep(until) => m.writeUdc && until >= m.disconnect + PULL_UP_DELAY
       case WriteUdc => m.writeUdc && now >= m.disconnect + PULL_UP_DELAY
       case LockFlag => m.writeUdc
       case _ => true
  }

  predicate MonitorInv(s: State) {
    s.monitor.Some? ==>
      var m := s.monitor.value;
      && m.id < MonitorBound(s)
      && s.requests[m.id].functions.Ffs()
      && s.endpoints == Endpoints(s.requests[m.id].plan, |s.requests[m.id].plan|)
      && s.fds == Some(m.id)
      && !Between(s.pc)
      && MonitorOk(m, s.now, |s.endpoints|)
      && (m.pc.Done? ==> s.pc.TearJoin? && s.stop)
  }

  predicate ThreadInv(s: State) {
    && (s.pc.Idle? || |s.requests| > 0)
    && !s.terminated
    && s.created == s.monitor.Some?
    && s.locked == HoldsLock(s.pc)
    && (s.stop ==> s.pc.TearJoin? || s.pc.TearClose?)
    && (s.pc.TearJoin? ==> s.monitor.Some?)
    && (Waiting(s.pc) ==> s.monitor.Some? && s.monitor.value.id == Current(s)
                          && s.requests[Current(s)].callback)
    && MonitorInv(s)
  }

  /** The request thread has built the first `k` entries of the plan it serves. */
  predicate Serving(s: State, k: nat) {
    |s.requests| > 0 &&
    var r := s.requests[Current(s)];
    !r.functions.None() && k <= |r.plan| && s.endpoints == Endpoints(r.plan, k) && s.links == Names(r.plan, k)
  }

  predicate SetupInv(s: State) {
    match s.pc
    case TearSignal | TearJoin | TearClose => s.links == map[]
    case Dispatch => s.endpoints == [] && s.links == map[] && s.fds == None
    case LockSetup => s.fds == None && Serving(s, 0)
    case Linking(k) => s.fds == None && Serving(s, k)
    case PullNow =>
      |s.requests| > 0 && s.fds == None && Serving(s, |s.requests[Current(s)].plan|)
      && !s.requests[Current(s)].functions.Ffs()
    case StartMonitor =>
      |s.requests| > 0 && s.fds == None && Serving(s, |s.requests[Current(s)].plan|)
      && s.requests[Current(s)].functions.Ffs()
    case Failing(status) => status != Success
    case _ => true
  }

  /** Every link of `a` is one of `b`. */
  predicate Within(a: map<nat, string>, b: map<nat, string>) {
    forall k :: k in a ==> k in b && a[k] == b[k]
  }

  /** Under a living monitor no link is foreign to the request that created it, and none is
      missing until the next request begins. */
  predicate LinksInv(s: State) {
    s.monitor.Some? ==>
      s.monitor.value.id < |s.requests| &&
      var plan := s.requests[s.monitor.value.id].plan;
      && Within(s.links, Names(plan, |plan|))
      && (s.monitor.value.id + 1 == |s.requests| ==> s.links == Names(plan, |plan|))
  }

  /** How the flag, the waiter and the monitor's own variable agree with the history. */
  predicate FlagInv(s: State) {
    && MonitorsBelow(s.history, MonitorBound(s))
    && (Waiting(s.pc) && |s.requests| > 0 ==> (s.flag <==> Happened(s.history, PullUp(Current(s)))))
    && (s.pc == Blocked(false) ==> !s.flag)
    && (s.pc.Answered? && |s.requests| > 0 ==>
          Happened(s.history, DirectUp(Current(s))) && !s.requests[Current(s)].functions.Ffs())
  }

  /** The wait began when the monitor was started; only its timeout ends it without a pull-up. */
  predicate DeadlineInv(s: State) {
    Waiting(s.pc) && |s.requests| > 0 ==>
      && s.deadline == s.started + s.requests[Current(s)].timeout
      && (s.pc == Reacquire(true) || (s.pc.Answer? && !s.flag) ==> s.now >= s.deadline)
  }

  predicate MonitorHistory(s: State) {
    s.monitor.Some? ==>
      var m := s.monitor.value;
      && (m.pc.LockFlag? ==> Happened(s.history, UdcUp(m.id)))
      && (m.writeUdc && !m.pc.LockFlag? ==> Armed(s.history, m.id))
  }

  function Expected(s: State, r: nat): nat {
    if r < |s.requests| && (s.pc.Idle? || r < |s.requests| - 1) && s.requests[r].callback then 1 else 0
  }

  ghost predicate HistoryInv(s: State) {
    && Spaced(s.history)
    && AllJustified(s.history, s.requests)
    && forall r: nat :: Callbacks(s.history, r) == Expected(s, r)
  }

  ghost predicate Inv(s: State) {
    ThreadInv(s) && SetupInv(s) && LinksInv(s) && FlagInv(s) && DeadlineInv(s) && MonitorHistory(s) && HistoryInv(s)
  }

  // ---------- The invariant holds on every run ----------

  lemma MonitorMoves(s: State, t: MonitorStep)
    requires MonitorEnabled(s, t) && MonitorOk(s.monitor.value, s.now, |s.endpoints|)
    ensures MonitorOk(Moved(s.monitor.value, t, s.now), s.now, |s.endpoints|)
  {}

  lemma ThreadInvMonitor(s: State, t: MonitorStep)
    requires MonitorEnabled(s, t) && ThreadInv(s)
    ensures ThreadInv(MonitorNext(s, t))
  {
    MonitorMoves(s, t);
  }

  lemma ThreadInvRequest(s: State, t: RequestStep)
    requires RequestEnabled(s, t) && ThreadInv(s)
    ensures ThreadInv(RequestNext(s, t))
  {}

  lemma ThreadInvTear(s: State, t: TearStep)
    requires TearEnabled(s, t) && ThreadInv(s)
    ensures ThreadInv(TearNext(s, t))
  {}

  lemma ThreadInvSetup(s: State, t: SetupStep)
    requires SetupEnabled(s, t) && ThreadInv(s) && SetupInv(s)
    ensures ThreadInv(SetupNext(s, t))
  {}

  lemma ThreadInvWait(s: State, t: WaitStep)
    requires WaitEnabled(s, t) && ThreadInv(s)
    ensures ThreadInv(WaitNext(s, t))
  {}

  lemma SetupInvMonitor(s: State, t: MonitorStep)
    requires MonitorEnabled(s, t) && SetupInv(s)
    ensures SetupInv(MonitorNext(s, t))
  {}

  lemma SetupInvRequest(s: State, t: RequestStep)
    requires RequestEnabled(s, t) && SetupInv(s)
    ensures SetupInv(RequestNext(s, t))
  {}

  lemma SetupInvTear(s: State, t: TearStep)
    requires TearEnabled(s, t) && SetupInv(s)
    ensures SetupInv(TearNext(s, t))
  {}

  lemma SetupInvSetup(s: State, t: SetupStep)
    requires SetupEnabled(s, t) && SetupInv(s)
    ensures SetupInv(SetupNext(s, t))
  {}

  lemma SetupInvWait(s: State, t: WaitStep)
    requires WaitEnabled(s, t) && SetupInv(s)
    ensures SetupInv(WaitNext(s, t))
  {}

  lemma LinksInvMonitor(s: State, t: MonitorStep)
    requires MonitorEnabled(s, t) && LinksInv(s)
    ensures LinksInv(MonitorNext(s, t))
  {}

  lemma LinksInvRequest(s: State, t: RequestStep)
    requires RequestEnabled(s, t) && LinksInv(s)
    ensures LinksInv(RequestNext(s, t))
  {}

  lemma LinksInvTear(s: State, t: TearStep)
    requires TearEnabled(s, t) && ThreadInv(s) && LinksInv(s)
    ensures LinksInv(TearNext(s, t))
  {}

  lemma LinksInvSetup(s: State, t: SetupStep)
    requires SetupEnabled(s, t) && ThreadInv(s) && SetupInv(s)
    ensures LinksInv(SetupNext(s, t))
  {}

  lemma LinksInvWait(s: State, t: WaitStep)
    requires WaitEnabled(s, t) && LinksInv(s)
    ensures LinksInv(WaitNext(s, t))
  {}

  lemma {:induction false} NothingAbove(h: History<Event>, n: nat, r: nat)
    requires MonitorsBelow(h, n) && n <= r
    ensures Armed(h, r) && !Happened(h, PullUp(r))
  {
    if h.Then? {
      NothingAbove(h.before, n, r);
    }
  }

  lemma {:induction false} BelowMore(h: History<Event>, n: nat)
    requires MonitorsBelow(h, n)
    ensures MonitorsBelow(h, n + 1)
  {
    if h.Then? {
      BelowMore(h.before, n);
    }
  }

  lemma FlagInvRequest(s: State, t: RequestStep)
    requires RequestEnabled(s, t) && ThreadInv(s) && FlagInv(s)
    ensures FlagInv(RequestNext(s, t))
  {
    if !s.pc.Idle? {
      BelowMore(s.history, |s.requests| - 1);
    }
  }

  lemma MonitorHistoryRequest(s: State, t: RequestStep)
    requires RequestEnabled(s, t) && MonitorHistory(s)
    ensures MonitorHistory(RequestNext(s, t))
  {}

  lemma FlagInvTear(s: State, t: TearStep)
    requires TearEnabled(s, t) && ThreadInv(s) && FlagInv(s) && MonitorHistory(s)
    ensures FlagInv(TearNext(s, t)) && MonitorHistory(TearNext(s, t))
  {}

  /** What a setup step adds to the history. */
  lemma SetupHistory(s: State, t: SetupStep)
    requires SetupEnabled(s, t)
    ensures var n := SetupNext(s, t);
            && n.requests == s.requests
            && (n.history == s.history
                || n.history == Then(s.history, Refused(Current(s)))
                || (t.PullUpNow? && n.history == Then(s.history, DirectUp(Current(s)))))
  {}

  lemma FlagInvSetup(s: State, t: SetupStep)
    requires SetupEnabled(s, t) && ThreadInv(s) && SetupInv(s) && FlagInv(s) && MonitorHistory(s)
    ensures FlagInv(SetupNext(s, t)) && MonitorHistory(SetupNext(s, t))
  {
    hide Names, Endpoints;
    NothingAbove(s.history, Current(s), Current(s));
    BelowMore(s.history, Current(s));
    hide Serving, MonitorOk;
  }

  lemma FlagInvWait(s: State, t: WaitStep)
    requires WaitEnabled(s, t) && ThreadInv(s) && FlagInv(s) && MonitorHistory(s)
    ensures FlagInv(WaitNext(s, t)) && MonitorHistory(WaitNext(s, t))
  {
    if s.pc.Answered? {
      BelowMore(s.history, Current(s));
    }
  }

  lemma FlagInvMonitor(s: State, t: MonitorStep)
    requires MonitorEnabled(s, t) && ThreadInv(s) && FlagInv(s)
    ensures FlagInv(MonitorNext(s, t))
  {}

  lemma MonitorHistoryMonitor(s: State, t: MonitorStep)
    requires MonitorEnabled(s, t) && ThreadInv(s) && MonitorHistory(s)
    ensures MonitorHistory(MonitorNext(s, t))
  {}

  lemma {:induction false} JustifiedMore(h: History<Event>, requests: seq<Request>, r: Request)
    requires AllJustified(h, requests)
    ensures AllJustified(h, requests + [r])
  {
    if h.Then? {
      JustifiedMore(h.before, requests, r);
    }
  }

  lemma HistoryInvRequest(s: State, t: RequestStep)
    requires RequestEnabled(s, t) && ThreadInv(s) && SetupInv(s) && FlagInv(s) && HistoryInv(s)
    ensures HistoryInv(RequestNext(s, t))
  {
    match t
    case Begin(r) => JustifiedMore(s.history, s.requests, r);
    case Validate(_) =>
    case RespondFailure => NothingAbove(s.history, Current(s), Current(s));
  }

  lemma HistoryInvWait(s: State, t: WaitStep)
    requires WaitEnabled(s, t) && ThreadInv(s) && FlagInv(s) && HistoryInv(s)
    ensures HistoryInv(WaitNext(s, t))
  {}

  lemma HistoryInvSetup(s: State, t: SetupStep)
    requires SetupEnabled(s, t) && ThreadInv(s) && HistoryInv(s)
    ensures HistoryInv(SetupNext(s, t))
  {}

  lemma HistoryInvMonitor(s: State, t: MonitorStep)
    requires MonitorEnabled(s, t) && ThreadInv(s) && MonitorHistory(s) && HistoryInv(s)
    ensures HistoryInv(MonitorNext(s, t))
  {}

  lemma DeadlineInvRequest(s: State, t: RequestStep)
    requires RequestEnabled(s, t)
    ensures DeadlineInv(RequestNext(s, t))
  {}

  lemma DeadlineInvTear(s: State, t: TearStep)
    requires TearEnabled(s, t)
    ensures DeadlineInv(TearNext(s, t))
  {}

  lemma DeadlineInvSetup(s: State, t: SetupStep)
    requires SetupEnabled(s, t) && DeadlineInv(s)
    ensures DeadlineInv(SetupNext(s, t))
  {}

  lemma DeadlineInvWait(s: State, t: WaitStep)
    requires WaitEnabled(s, t) && DeadlineInv(s)
    ensures DeadlineInv(WaitNext(s, t))
  {}

  lemma DeadlineInvMonitor(s: State, t: MonitorStep)
    requires MonitorEnabled(s, t) && ThreadInv(s) && DeadlineInv(s)
    ensures DeadlineInv(MonitorNext(s, t))
  {}

  lemma InvTick(s: State, elapsed: nat)
    requires Inv(s)
    ensures Inv(s.(now := s.now + elapsed))
  {}

  lemma InvKept(s: State, t: Step)
    requires Enabled(s, t) && Inv(s)
    ensures Inv(Next(s, t))
  {
    hide RequestNext, TearNext, SetupNext, WaitNext, MonitorNext;
    hide ThreadInv, SetupInv, LinksInv, FlagInv, DeadlineInv, MonitorHistory, HistoryInv;
    match t
    case Tick(elapsed) => InvTick(s, elapsed);
    case Req(r) =>
      ThreadInvRequest(s, r);
      DeadlineInvRequest(s, r);
      SetupInvRequest(s, r);
      LinksInvRequest(s, r);
      FlagInvRequest(s, r);
      MonitorHistoryRequest(s, r);
      HistoryInvRequest(s, r);
    case Tear(d) =>
      ThreadInvTear(s, d);
      DeadlineInvTear(s, d);
      SetupInvTear(s, d);
      LinksInvTear(s, d);
      FlagInvTear(s, d);
      HistoryInvTear(s, d);
    case Setup(u) =>
      ThreadInvSetup(s, u);
      DeadlineInvSetup(s, u);
      SetupInvSetup(s, u);
      LinksInvSetup(s, u);
      FlagInvSetup(s, u);
      HistoryInvSetup(s, u);
    case Await(w) =>
      ThreadInvWait(s, w);
      DeadlineInvWait(s, w);
      SetupInvWait(s, w);
      LinksInvWait(s, w);
      FlagInvWait(s, w);
      HistoryInvWait(s, w);
    case Mon(m) =>
      ThreadInvMonitor(s, m);
      DeadlineInvMonitor(s, m);
      SetupInvMonitor(s, m);
      LinksInvMonitor(s, m);
      FlagInvMonitor(s, m);
      MonitorHistoryMonitor(s, m);
      HistoryInvMonitor(s, m);
  }

  lemma HistoryInvTear(s: State, t: TearStep)
    requires TearEnabled(s, t) && HistoryInv(s)
    ensures HistoryInv(TearNext(s, t))
  {}

  lemma {:induction false} InvOnRun(s: State, steps: seq<Step>)
    requires Inv(s) && Valid(s, steps)
    ensures Inv(Run(s, steps))
    decreases |steps|
  {
    if steps != [] {
      InvKept(s, steps[0]);
      InvOnRun(Next(s, steps[0]), steps[1..]);
    }
  }

  lemma Reached(steps: seq<Step>)
    requires Valid(INIT, steps)
    ensures Inv(Run(INIT, steps))
  {
    InvOnRun(INIT, steps);
  }
}
