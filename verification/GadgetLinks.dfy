/** How far a pull-up is over the links of the latest request: exactly when no monitor was left
    over from an earlier one. */
module GadgetLinks {
  import opened Common
  import opened Gadget
  import opened GadgetPlans
  import opened GadgetSafety
  import opened GadgetTheorems
  import opened GadgetRuns
  import opened GadgetFlag

  /** Whatever happens until the request after next, the UDC is written only over exactly the
      links of the next request. */
  ghost predicate LinksFollow(s: State) {
    forall steps: seq<Step> ::
      Valid(s, steps) && |Run(s, steps).requests| == |s.requests| + 1 && PullingUp(Run(s, steps)) ==>
        HasLinksOf(Run(s, steps), Run(s, steps).requests[|s.requests|])
  }

  lemma UnlinkUnderMonitor(s: State) returns (more: seq<Step>)
    requires Overtaking(s) && s.monitor.value.pc.WriteUdc?
    ensures Valid(s, more)
    ensures var e := Run(s, more); PullingUp(e) && e.links == map[] && e.requests == s.requests
  {
    var s1 := Next(s, Tear(WriteNone));
    more := [Tear(ClearFiles(true, {}))];
    Then1(s1, Tear(ClearFiles(true, {})), []);
    Then1(s, Tear(WriteNone), more);
    more := [Tear(WriteNone)] + more;
  }

  /** Whenever the service is idle with a monitor, the next request, whatever it asks for, can
      find the gadget pulled up again after its teardown has removed every link. */
  lemma PullUpWithoutLinks(steps: seq<Step>, r: Request) returns (more: seq<Step>)
    requires Valid(INIT, steps) && WellFormed(r)
    requires Run(INIT, steps).pc.Idle? && Run(INIT, steps).created
    ensures Valid(Run(INIT, steps), more)
    ensures var s := Run(Run(INIT, steps), more);
            && s.requests == Run(INIT, steps).requests + [r]
            && PullingUp(s) && s.links == map[]
  {
    more := OvertakeRequest(steps, r);
    var rest := UnlinkUnderMonitor(Run(Run(INIT, steps), more));
    RunConcat(Run(INIT, steps), more, rest);
    more := more + rest;
  }

  lemma AdbHasLinks(s: State)
    requires s.links == map[]
    ensures !HasLinksOf(s, ADB_REQUEST)
  {
    AdbWellFormed();
    assert 0 in Names([ADB_LINK], 1);
  }

  lemma OwnMonitorWrites(steps: seq<Step>, run: seq<Step>)
    requires Valid(INIT, steps) && Run(INIT, steps).pc.Idle? && !Run(INIT, steps).created
    requires Valid(Run(INIT, steps), run) && PullingUp(Run(Run(INIT, steps), run))
    requires |Run(Run(INIT, steps), run).requests| == |Run(INIT, steps).requests| + 1
    ensures var s := Run(Run(INIT, steps), run);
            HasLinksOf(s, s.requests[|Run(INIT, steps).requests|])
  {
    Reached(steps);
    UpsReached(steps);
    QuietRun(Run(INIT, steps), run);
    RunConcat(INIT, steps, run);
    LinksMatchRequest(steps + run, true);
  }

  /** In any idle state every UDC write during the next request, its own or a monitor's, will be
      over exactly that request's links, however the threads interleave, if and only if
      `mMonitorCreated` is false. */
  lemma LinksFollowIff(steps: seq<Step>)
    requires Valid(INIT, steps) && Run(INIT, steps).pc.Idle?
    ensures LinksFollow(Run(INIT, steps)) <==> !Run(INIT, steps).created
  {
    hide PullingUp, HasLinksOf;
    var s := Run(INIT, steps);
    if s.created {
      AdbWellFormed();
      var more := PullUpWithoutLinks(steps, ADB_REQUEST);
      AdbHasLinks(Run(s, more));
      assert !LinksFollow(s);
    } else {
      forall run: seq<Step> | Valid(s, run) && |Run(s, run).requests| == |s.requests| + 1 && PullingUp(Run(s, run))
        ensures HasLinksOf(Run(s, run), Run(s, run).requests[|s.requests|])
      {
        OwnMonitorWrites(steps, run);
      }
    }
  }

  /** From a fresh start: an adb request, then a second one that the monitor of the first overtakes. */
  lemma StalePullUp() returns (steps: seq<Step>)
    ensures Valid(INIT, steps)
    ensures var s := Run(INIT, steps);
            && PullingUp(s) && s.links == map[]
            && s.requests == [ADB_REQUEST, ADB_REQUEST] && !HasLinksOf(s, ADB_REQUEST)
  {
    steps := ReachesMonitored();
    AdbWellFormed();
    var more := PullUpWithoutLinks(steps, ADB_REQUEST);
    RunConcat(INIT, steps, more);
    steps := steps + more;
    AdbHasLinks(Run(INIT, steps));
  }

  /** A teardown that fails leaves the links it has not come to remove, as they were. */
  lemma FailedTeardownKeeps(s: State, kept: set<nat>, k: nat)
    requires s.pc.TearFiles? && k in s.links && k in kept
    ensures var n := Next(s, Tear(ClearFiles(false, kept)));
            && n.pc == Failing(Error) && k in n.links && n.links[k] == s.links[k]
            && (forall j :: j in n.links <==> j in s.links && j in kept)
    ensures Next(s, Tear(ClearFiles(true, kept))).links == map[]
  {}
}
