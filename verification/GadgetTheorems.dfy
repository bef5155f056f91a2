/** The guarantees of the gadget service, stated over all its runs. */
module GadgetTheorems {
  import opened Common
  import opened Histories
  import opened Gadget
  import opened GadgetSafety

  // ---------- Callbacks ----------

  lemma {:induction false} JustifiedBefore(p: History<Event>, h: History<Event>, requests: seq<Request>)
    requires Precedes(p, h) && AllJustified(h, requests)
    ensures AllJustified(p, requests)
  {
    if p != h {
      JustifiedBefore(p, h.before, requests);
    }
  }

  /** An FFS request is answered with success exactly when the monitor it created itself has
      recorded a pull-up by then, and that monitor's UDC write succeeded before. */
  lemma CallbackMeansPullUp(steps: seq<Step>, p: History<Event>, r: nat, status: Status)
    requires Valid(INIT, steps)
    requires Precedes(Then(p, Callback(r, status)), Run(INIT, steps).history)
    requires r < |Run(INIT, steps).requests| && Run(INIT, steps).requests[r].functions.Ffs()
    ensures status == Success <==> Happened(p, PullUp(r))
    ensures status == Success ==> Happened(p, UdcUp(r))
  {
    var s := Run(INIT, steps);
    Reached(steps);
    JustifiedBefore(Then(p, Callback(r, status)), s.history, s.requests);
    if status == Success {
      var q := HappenedAt(p, PullUp(r));
      JustifiedBefore(Then(q, PullUp(r)), p, s.requests);
      PrecedesBefore(q, PullUp(r), p);
      StillHappened(q, p, UdcUp(r));
    }
  }

  /** Every request with a callback gets exactly one, before the next begins; the others get none. */
  lemma OneCallback(steps: seq<Step>, r: nat)
    requires Valid(INIT, steps)
    ensures var s := Run(INIT, steps);
            Callbacks(s.history, r)
            == if r < |s.requests| && s.requests[r].callback && (s.pc.Idle? || r < |s.requests| - 1)
               then 1 else 0
  {
    Reached(steps);
  }

  /** A pull-up recorded while the request sleeps has woken it, and whenever it looks, the flag
      says whether its own monitor pulled up. */
  lemma PullUpNotLost(steps: seq<Step>)
    requires Valid(INIT, steps)
    ensures var s := Run(INIT, steps);
            Waiting(s.pc) && |s.requests| > 0 ==>
              && (s.flag <==> Happened(s.history, PullUp(|s.requests| - 1)))
              && (s.flag && s.pc.Blocked? ==> s.pc.notified)
  {
    Reached(steps);
  }

  /** A request that is about to be answered without a pull-up has waited for its whole timeout. */
  lemma FailureIsLate(steps: seq<Step>)
    requires Valid(INIT, steps)
    ensures var s := Run(INIT, steps);
            s.pc.Answer? && !s.flag && |s.requests| > 0 ==>
              s.now >= s.started + s.requests[|s.requests| - 1].timeout
  {
    Reached(steps);
  }

  // ---------- The monitor's life ----------

  predicate AllWellFormed(requests: seq<Request>) {
    forall i :: 0 <= i < |requests| ==> WellFormed(requests[i])
  }

  lemma PlansKept(s: State, t: Step)
    requires Enabled(s, t) && AllWellFormed(s.requests)
    ensures AllWellFormed(Next(s, t).requests)
  {
    hide WellFormed, RequestEnabled, TearEnabled, SetupEnabled, WaitEnabled, MonitorEnabled;
    hide TearNext, SetupNext, WaitNext, MonitorNext;
    match t
    case Tick(_) =>
    case Req(r) => assert r.Begin? || RequestNext(s, r).requests == s.requests;
    case Tear(_) =>
    case Setup(_) =>
    case Await(_) =>
    case Mon(_) =>
  }

  lemma {:induction false} PlansOnRun(s: State, steps: seq<Step>)
    requires Valid(s, steps) && AllWellFormed(s.requests)
    ensures AllWellFormed(Run(s, steps).requests)
    decreases |steps|
  {
    if steps != [] {
      PlansKept(s, steps[0]);
      PlansOnRun(Next(s, steps[0]), steps[1..]);
    }
  }

  /** At most one monitor is unjoined (a second would terminate the process), `mMonitorCreated`
      says whether there is one, and it watches the endpoints of the request that created it
      through that request's descriptors. */
  lemma MonitorOwnsItsEndpoints(steps: seq<Step>)
    requires Valid(INIT, steps)
    ensures var s := Run(INIT, steps);
            && !s.terminated
            && s.created == s.monitor.Some?
            && (s.monitor.Some? ==>
                  var id := s.monitor.value.id;
                  id < |s.requests| && s.requests[id].functions.Ffs() &&
                  var plan := PlanOf(s.requests[id].functions, s.requests[id].vendor);
                  && s.endpoints == Endpoints(plan, |plan|)
                  && s.fds == Some(id)
                  && (s.monitor.value.pc.Scan? ==> s.monitor.value.pc.j <= |s.endpoints|))
  {
    hide PlanOf, Endpoints;
    Reached(steps);
    PlansOnRun(INIT, steps);
  }

  lemma {:induction false} RequestsStay(s: State, steps: seq<Step>)
    requires Valid(s, steps)
    ensures s.requests <= Run(s, steps).requests
    decreases |steps|
  {
    if steps != [] {
      RequestsStay(Next(s, steps[0]), steps[1..]);
    }
  }

  lemma {:induction false} RunConcat(s: State, a: seq<Step>, b: seq<Step>)
    requires Valid(s, a) && Valid(Run(s, a), b)
    ensures Valid(s, a + b) && Run(s, a + b) == Run(Run(s, a), b)
    decreases |a|
  {
    if a == [] {
      assert a + b == b;
    } else {
      RunConcat(Next(s, a[0]), a[1..], b);
      assert (a + b)[1..] == a[1..] + b;
    }
  }

  /** While a monitor lives, whatever else happens, its endpoint list and descriptors stay. */
  lemma MonitorUndisturbed(steps: seq<Step>, more: seq<Step>)
    requires Valid(INIT, steps) && Valid(Run(INIT, steps), more)
    requires Run(INIT, steps).monitor.Some? && Run(Run(INIT, steps), more).monitor.Some?
    requires Run(INIT, steps).monitor.value.id == Run(Run(INIT, steps), more).monitor.value.id
    ensures Run(INIT, steps).endpoints == Run(Run(INIT, steps), more).endpoints
    ensures Run(INIT, steps).fds == Run(Run(INIT, steps), more).fds
  {
    MonitorOwnsItsEndpoints(steps);
    RunConcat(INIT, steps, more);
    MonitorOwnsItsEndpoints(steps + more);
    RequestsStay(Run(INIT, steps), more);
  }

  /** The request's own links, and no others, are in place, numbered from 0. */
  predicate HasLinksOf(s: State, r: Request) {
    var plan := PlanOf(r.functions, r.vendor);
    s.links == Names(plan, |plan|)
  }

  /** A UDC write that pulls the gadget up comes next, from either thread. */
  predicate PullingUp(s: State) {
    Enabled(s, Setup(PullUpNow(true))) || Enabled(s, Mon(PullUpGadget(true)))
  }

  /** No request has begun since the monitor, if there is one, was started. */
  predicate MonitorIsLatest(s: State) {
    s.monitor.Some? ==> s.monitor.value.id + 1 == |s.requests|
  }

  lemma WholePlan(s: State)
    requires ThreadInv(s) && SetupInv(s) && LinksInv(s) && MonitorIsLatest(s)
    requires s.pc.PullNow? || s.pc.StartMonitor? || s.monitor.Some?
    ensures |s.requests| > 0
    ensures var plan := s.requests[|s.requests| - 1].plan;
            s.links == Names(plan, |plan|) && s.endpoints == Endpoints(plan, |plan|)
  {}

  /** The gadget is pulled up, by the request itself or by the monitor, and a monitor is started,
      only over exactly the links and endpoints of the latest request, as long as the monitor is
      that request's. */
  lemma LinksMatchRequest(steps: seq<Step>, ok: bool)
    requires Valid(INIT, steps) && MonitorIsLatest(Run(INIT, steps))
    requires PullingUp(Run(INIT, steps)) || Enabled(Run(INIT, steps), Setup(Spawn(ok)))
    ensures var s := Run(INIT, steps);
            |s.requests| > 0 &&
            var r := s.requests[|s.requests| - 1];
            var plan := PlanOf(r.functions, r.vendor);
            HasLinksOf(s, r) && s.endpoints == Endpoints(plan, |plan|)
  {
    hide PlanOf, Names, Endpoints, SetupInv, ThreadInv, LinksInv, FlagInv, DeadlineInv, MonitorHistory, HistoryInv;
    Reached(steps);
    PlansOnRun(INIT, steps);
    WholePlan(Run(INIT, steps));
  }

  /** Whichever request is the latest, a monitor never pulls up links of any other request than
      the one that created it. */
  lemma NoForeignLinks(steps: seq<Step>)
    requires Valid(INIT, steps) && Run(INIT, steps).monitor.Some?
    ensures var s := Run(INIT, steps);
            s.monitor.value.id < |s.requests| &&
            var r := s.requests[s.monitor.value.id];
            var plan := PlanOf(r.functions, r.vendor);
            Within(s.links, Names(plan, |plan|))
  {
    hide PlanOf, Names, SetupInv, ThreadInv, FlagInv, DeadlineInv, MonitorHistory, HistoryInv;
    Reached(steps);
    PlansOnRun(INIT, steps);
  }

  // ---------- Pull-ups ----------

  lemma {:induction false} SpacedBefore(p: History<Event>, h: History<Event>)
    requires Precedes(p, h) && Spaced(h)
    ensures Spaced(p)
  {
    if p != h {
      SpacedBefore(p, h.before);
    }
  }

  lemma {:induction false} ArmedSince(q: History<Event>, p: History<Event>, r: nat)
    returns (at: nat)
    requires Precedes(Then(q, UdcUp(r)), p) && Armed(p, r)
    ensures HappenedAfter(p, Then(q, UdcUp(r)), Absent(r, at))
  {
    if p.last.Absent? && p.last.mon == r {
      at := p.last.at;
    } else {
      at := ArmedSince(q, p.before, r);
    }
  }

  /** Between two successful UDC writes of one monitor it found an endpoint missing. */
  lemma PullUpsSeparated(steps: seq<Step>, q: History<Event>, p: History<Event>, r: nat)
    returns (at: nat)
    requires Valid(INIT, steps)
    requires Precedes(Then(p, UdcUp(r)), Run(INIT, steps).history)
    requires Precedes(Then(q, UdcUp(r)), p)
    ensures HappenedAfter(p, Then(q, UdcUp(r)), Absent(r, at))
  {
    Reached(steps);
    SpacedBefore(Then(p, UdcUp(r)), Run(INIT, steps).history);
    at := ArmedSince(q, p, r);
  }

  /** Whenever the monitor writes the UDC, 500 ms have passed since the disconnect it recorded. */
  lemma PullUpDelayed(steps: seq<Step>, ok: bool)
    requires Valid(INIT, steps) && Enabled(Run(INIT, steps), Mon(PullUpGadget(ok)))
    ensures var s := Run(INIT, steps); s.now >= s.monitor.value.disconnect + 500_000_000
  {
    Reached(steps);
  }
}
