/** What a monitor has seen when it writes the UDC: every endpoint in one scan, and a disconnect,
    if it is not the first time, that lies far enough back. */
module GadgetMonitor {
  import opened Common
  import opened Histories
  import opened Gadget
  import opened GadgetSafety
  import opened GadgetTheorems
  import opened GadgetRuns

  /** How many endpoints, from the first on, monitor `r` has found present in a row. */
  function Scanned(h: History<Event>, r: nat): nat {
    match h
    case Start => 0
    case Then(before, Found(mon, endpoint)) =>
      if mon != r then Scanned(before, r)
      else if endpoint == 0 then 1
      else if endpoint == Scanned(before, r) then endpoint + 1 else 0
    case Then(before, Absent(mon, _)) => if mon == r then 0 else Scanned(before, r)
    case Then(before, _) => Scanned(before, r)
  }

  /** When monitor `r` first found an endpoint missing since it last recorded a pull-up. */
  function Disconnected(h: History<Event>, r: nat): Option<nat> {
    match h
    case Start => None
    case Then(before, PullUp(mon)) => if mon == r then None else Disconnected(before, r)
    case Then(before, Absent(mon, at)) =>
      if mon == r && Disconnected(before, r).None? then Some(at) else Disconnected(before, r)
    case Then(before, _) => Disconnected(before, r)
  }

  predicate SeenInv(s: State) {
    s.monitor.Some? ==>
      var m := s.monitor.value;
      && (match m.pc
          case Scan(j, _) => j > 0 ==> Scanned(s.history, m.id) == j
          case Sleep(_) | WriteUdc => |s.endpoints| > 0 ==> Scanned(s.history, m.id) == |s.endpoints|
          case _ => true)
      && (!m.writeUdc ==> Happened(s.history, PullUp(m.id)) && Disconnected(s.history, m.id).None?)
      && (m.writeUdc && Happened(s.history, PullUp(m.id)) ==>
            Disconnected(s.history, m.id) == Some(m.disconnect))
  }

  lemma SeenInvRequest(s: State, t: RequestStep)
    requires RequestEnabled(s, t) && SeenInv(s)
    ensures SeenInv(RequestNext(s, t))
  {}

  lemma SeenInvTear(s: State, t: TearStep)
    requires TearEnabled(s, t) && ThreadInv(s) && SeenInv(s)
    ensures SeenInv(TearNext(s, t))
  {}

  lemma SeenInvSetup(s: State, t: SetupStep)
    requires SetupEnabled(s, t) && ThreadInv(s) && FlagInv(s) && SeenInv(s)
    ensures SeenInv(SetupNext(s, t))
  {
    NothingAbove(s.history, Current(s), Current(s));
  }

  lemma SeenInvWait(s: State, t: WaitStep)
    requires WaitEnabled(s, t) && SeenInv(s)
    ensures SeenInv(WaitNext(s, t))
  {}

  lemma SeenInvMonitor(s: State, t: MonitorStep)
    requires MonitorEnabled(s, t) && ThreadInv(s) && SeenInv(s)
    ensures SeenInv(MonitorNext(s, t))
  {}

  lemma SeenInvKept(s: State, t: Step)
    requires Enabled(s, t) && Inv(s) && SeenInv(s)
    ensures SeenInv(Next(s, t))
  {
    hide RequestNext, TearNext, SetupNext, WaitNext, MonitorNext;
    hide RequestEnabled, TearEnabled, SetupEnabled, WaitEnabled, MonitorEnabled;
    hide ThreadInv, SetupInv, LinksInv, FlagInv, DeadlineInv, MonitorHistory, HistoryInv;
    match t
    case Tick(_) =>
    case Req(r) => SeenInvRequest(s, r);
    case Tear(d) => SeenInvTear(s, d);
    case Setup(u) => SeenInvSetup(s, u);
    case Await(w) => SeenInvWait(s, w);
    case Mon(m) => SeenInvMonitor(s, m);
  }

  lemma {:induction false} SeenInvOnRun(s: State, steps: seq<Step>)
    requires Inv(s) && Valid(s, steps) && SeenInv(s)
    ensures SeenInv(Run(s, steps))
    decreases |steps|
  {
    hide Inv, Next, Enabled, SeenInv;
    if steps != [] {
      SeenInvKept(s, steps[0]);
      InvKept(s, steps[0]);
      SeenInvOnRun(Next(s, steps[0]), steps[1..]);
    }
  }

  /** The monitor writes the UDC only after finding all its endpoints present, one after the
      other from the first on, with none missing since. */
  lemma PullUpAfterScan(steps: seq<Step>, ok: bool)
    requires Valid(INIT, steps) && Enabled(Run(INIT, steps), Mon(PullUpGadget(ok)))
    ensures var s := Run(INIT, steps);
            Scanned(s.history, s.monitor.value.id) == |s.endpoints| > 0
  {
    var s := Run(INIT, steps);
    Reached(steps);
    PlansOnRun(INIT, steps);
    FfsHasEndpoints(s.requests[s.monitor.value.id]);
    Reached([]);
    SeenInvOnRun(INIT, steps);
  }

  /** A monitor that has pulled up before writes the UDC again only when it has found an endpoint
      missing since, the first time at least 500 ms ago. */
  lemma PullUpAgainDelayed(steps: seq<Step>, ok: bool)
    requires Valid(INIT, steps) && Enabled(Run(INIT, steps), Mon(PullUpGadget(ok)))
    requires Happened(Run(INIT, steps).history, PullUp(Run(INIT, steps).monitor.value.id))
    ensures var s := Run(INIT, steps);
            var since := Disconnected(s.history, s.monitor.value.id);
            since.Some? && s.now >= since.value + 500_000_000
  {
    Reached(steps);
    Reached([]);
    SeenInvOnRun(INIT, steps);
  }

  /** When the last endpoint has been found present: the first scan sleeps 500 ms before the
      write; a later one writes at once if the disconnect is 500 ms old, sleeps if it is not, and
      does nothing without one. */
  lemma ScanDecides(s: State)
    requires Enabled(s, Mon(ScanDone))
    ensures var m, n := s.monitor.value, Next(s, Mon(ScanDone)).monitor.value;
            && (n.pc.WriteUdc? <==> !m.pc.initial && m.writeUdc && s.now - m.disconnect >= 500_000_000)
            && (n.pc == Sleep(s.now + 500_000_000) <==>
                  m.pc.initial || (m.writeUdc && s.now - m.disconnect < 500_000_000))
            && (n.pc.Wait? <==> !m.pc.initial && !m.writeUdc)
  {}
}
