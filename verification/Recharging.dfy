/** Battery level remapping (`BatteryRechargingControl`): once the battery is full, 100% is shown
    through recharge cycles, and when power goes away the shown level slides down to the real one
    within a transition time.  Levels are computed exactly and rounded half away from zero. */
module Recharging {
  import opened Common

  const TRANSITION := 900  // seconds
  const FULL := 100

  datatype ChargeState = WaitEoc | RechargingCycle | OverLoading | NoPowerSource | Inactive

  /** `start` is `None` until `start_time_` is first assigned; `target` is `recharge_soc_`. */
  datatype Control = Control(state: ChargeState, start: Option<int>, target: int)

  const INITIAL := Control(Inactive, None, 0)

  /** One call of `updateBatteryProperties`: the trimmed charger status, the raw level, the clock. */
  datatype Poll = Poll(status: string, level: int, now: int)

  predicate Timed(s: ChargeState) {
    s.OverLoading? || s.NoPowerSource?
  }

  /** C's `round` of `n / m`. */
  function Round(n: int, m: int): int
    requires m > 0
  {
    if n >= 0 then (2 * n + m) / (2 * m) else -((2 * (-n) + m) / (2 * m))
  }

  /** The level shown `elapsed` seconds into the transition. */
  function Remap(soc: int, elapsed: int): int {
    Round(soc * elapsed + FULL * (TRANSITION - elapsed), TRANSITION)
  }

  predicate Started(c: Control) {
    Timed(c.state) ==> c.start.Some?
  }

  function Update(c: Control, p: Poll): (r: (Control, int))
    requires Started(c)
    ensures Started(r.0)
  {
    match c.state
    case Inactive =>
      if p.level < FULL then (c, p.level) else AwaitEnd(Control(WaitEoc, c.start, 0), p)
    case WaitEoc => AwaitEnd(c, p)
    case RechargingCycle =>
      if p.status == "Full" then (c.(target := 0), FULL)
      else if p.status == "Charging" then
        if c.target == 0 then (c.(target := p.level), FULL)
        else if p.level < c.target then (Control(OverLoading, Some(p.now), c.target), Remap(p.level, 0))
        else (c, FULL)
      else (Control(NoPowerSource, Some(p.now), c.target), Remap(p.level, 0))
    case OverLoading | NoPowerSource => Slide(c, p)
  }

  /** The WAIT_EOC case. */
  function AwaitEnd(c: Control, p: Poll): (Control, int) {
    if p.level != FULL then (Control(Inactive, c.start, 0), p.level)
    else if p.status == "Full" then (c.(state := RechargingCycle), FULL)
    else if p.status != "Charging" then (Control(NoPowerSource, Some(p.now), c.target), Remap(p.level, 0))
    else (c, p.level)
  }

  /** The OVER_LOADING and NO_POWER_SOURCE case. */
  function Slide(c: Control, p: Poll): (Control, int)
    requires c.start.Some?
  {
    var elapsed := p.now - c.start.value;
    var shown := Remap(p.level, elapsed);
    if elapsed > TRANSITION then (c.(state := Inactive), p.level)
    else if shown == p.level && shown != FULL then (c.(state := Inactive), p.level)
    else if p.status == "Charging" && shown == FULL && p.level >= c.target then
      (Control(RechargingCycle, c.start, shown), shown)
    else (c, shown)
  }

  // ---------- The class ----------

  datatype BatteryStatus = Unknown | Charging | Discharging | NotCharging | Full

  const STATUSES: seq<(string, BatteryStatus)> :=
    [("Unknown", Unknown), ("Charging", Charging), ("Discharging", Discharging),
     ("Not charging", NotCharging), ("Full", Full)]

  class BatteryRechargingControl {
    var state: ChargeState
    var startTime: Option<int>
    var rechargeSoc: int

    function Value(): Control
      reads this
    {
      Control(state, startTime, rechargeSoc)
    }

    constructor ()
      ensures Value() == INITIAL
    {
      state, startTime, rechargeSoc := Inactive, None, 0;
    }

    /** `mapSysfsString`: the value of the first entry whose name the text starts with. */
    static method MapSysfsString(text: string, table: seq<(string, BatteryStatus)>)
      returns (r: Option<BatteryStatus>)
      ensures r.None? <==> forall i :: 0 <= i < |table| ==> !(table[i].0 <= text)
      ensures r.Some? ==> exists i :: 0 <= i < |table| && table[i].0 <= text && r.value == table[i].1
                                      && forall j :: 0 <= j < i ==> !(table[j].0 <= text)
    {
      for i := 0 to |table|
        invariant forall j :: 0 <= j < i ==> !(table[j].0 <= text)
      {
        if table[i].0 <= text { return Some(table[i].1); }
      }
      r := None;
    }

    /** `getBatteryStatus`. */
    static method GetBatteryStatus(text: string) returns (r: BatteryStatus)
      ensures r == StatusOf(text)
      ensures "Charging" <= text ==> r == BatteryStatus.Charging
      ensures "Discharging" <= text ==> r == BatteryStatus.Discharging
      ensures "Not charging" <= text ==> r == BatteryStatus.NotCharging
      ensures "Full" <= text ==> r == BatteryStatus.Full
      ensures !("Charging" <= text || "Discharging" <= text || "Not charging" <= text || "Full" <= text) ==>
                r == BatteryStatus.Unknown
    {
      OnePrefix(text);
      var found := MapSysfsString(text, STATUSES);
      if found.Some? {
        var i :| 0 <= i < |STATUSES| && STATUSES[i].0 <= text && found.value == STATUSES[i].1;
        StatusUnique(text, i);
        r := found.value;
      } else {
        assert !(STATUSES[0].0 <= text) && !(STATUSES[1].0 <= text) && !(STATUSES[2].0 <= text)
            && !(STATUSES[3].0 <= text) && !(STATUSES[4].0 <= text);
        r := Unknown;
      }
    }

    method RemapSoc(soc: int, now: int) returns (shown: int)
      requires startTime.Some?
      ensures shown == Remap(soc, now - startTime.value)
    {
      var elapsed := now - startTime.value;
      shown := Round(soc * elapsed + FULL * (TRANSITION - elapsed), TRANSITION);
    }

    /** `updateBatteryProperties`; `None` is a status file that cannot be read. */
    method UpdateBatteryProperties(chargerStatus: Option<string>, level: int, now: int)
      returns (batteryLevel: int, batteryStatus: Option<BatteryStatus>)
      requires Started(Value())
      modifies this
      ensures chargerStatus.None? ==>
                Value() == old(Value()) && batteryLevel == level && batteryStatus == None
      ensures chargerStatus.Some? ==>
                && (Value(), batteryLevel) == Update(old(Value()), Poll(chargerStatus.value, level, now))
                && batteryStatus == Some(StatusOf(chargerStatus.value))
      ensures Started(Value())
    {
      batteryLevel, batteryStatus := level, None;
      if chargerStatus.None? { return; }
      var status := chargerStatus.value;
      var known := GetBatteryStatus(status);
      batteryStatus := Some(known);
      if state == Inactive && batteryLevel < FULL { return; }
      if state == Inactive {
        state, rechargeSoc := WaitEoc, 0;
      }
      match state {
        case WaitEoc =>
          if batteryLevel != FULL {
            state, rechargeSoc := Inactive, 0;
          } else if status == "Full" {
            state, batteryLevel := RechargingCycle, FULL;
          } else if status != "Charging" {
            startTime, state := Some(now), NoPowerSource;
            batteryLevel := RemapSoc(batteryLevel, now);
          }
        case RechargingCycle =>
          if status == "Full" {
            rechargeSoc, batteryLevel := 0, FULL;
          } else if status == "Charging" {
            if rechargeSoc == 0 {
              rechargeSoc, batteryLevel := batteryLevel, FULL;
            } else if batteryLevel < rechargeSoc {
              startTime, state := Some(now), OverLoading;
              batteryLevel := RemapSoc(batteryLevel, now);
            } else {
              batteryLevel := FULL;
            }
          } else {
            startTime, state := Some(now), NoPowerSource;
            batteryLevel := RemapSoc(batteryLevel, now);
          }
        case OverLoading | NoPowerSource =>
          var curSoc := batteryLevel;
          if now - startTime.value > TRANSITION {
            state := Inactive;
          } else {
            var shown := RemapSoc(batteryLevel, now);
            if shown == batteryLevel && shown != FULL {
              state := Inactive;
            } else {
              batteryLevel := shown;
              if status == "Charging" && batteryLevel == FULL && curSoc >= rechargeSoc {
                state, rechargeSoc := RechargingCycle, batteryLevel;
              }
            }
          }
        case Inactive =>
          assert false;
      }
    }
  }

  /** The status whose name the text starts with. */
  function StatusOf(text: string): BatteryStatus {
    if "Charging" <= text then Charging
    else if "Discharging" <= text then Discharging
    else if "Not charging" <= text then NotCharging
    else if "Full" <= text then Full
    else Unknown
  }

  lemma OnePrefix(text: string)
    ensures "Charging" <= text ==> text[0] == 'C'
    ensures "Discharging" <= text ==> text[0] == 'D'
    ensures "Not charging" <= text ==> text[0] == 'N'
    ensures "Full" <= text ==> text[0] == 'F'
  {}

  /** No two names share a first letter, so at most one entry matches. */
  lemma StatusUnique(text: string, i: nat)
    requires i < |STATUSES| && STATUSES[i].0 <= text
    ensures StatusOf(text) == STATUSES[i].1
  {
    assert text[0] == STATUSES[i].0[0];
  }

  // ---------- Interpolation ----------

  /** How far the shown level has slid, in units of 1/900 of a percent. */
  function Slid(soc: int, elapsed: int): int {
    (FULL - soc) * elapsed
  }

  lemma RemapFloor(soc: int, elapsed: int)
    requires 0 <= soc <= FULL && 0 <= elapsed <= TRANSITION
    ensures 0 <= Slid(soc, elapsed) <= (FULL - soc) * TRANSITION
    ensures Remap(soc, elapsed) == (180900 - 2 * Slid(soc, elapsed)) / 1800
    ensures 1800 * Remap(soc, elapsed) <= 180900 - 2 * Slid(soc, elapsed) < 1800 * Remap(soc, elapsed) + 1800
  {
    SlidBounds(FULL - soc, elapsed);
    assert soc * elapsed + FULL * (TRANSITION - elapsed) == 90000 - Slid(soc, elapsed) by {
      assert (FULL - soc) * elapsed == FULL * elapsed - soc * elapsed;
    }
  }

  lemma SlidBounds(missing: int, elapsed: int)
    requires 0 <= missing && 0 <= elapsed <= TRANSITION
    ensures 0 <= missing * elapsed <= missing * TRANSITION
  {}

  lemma RemapBounds(soc: int, elapsed: int)
    requires 0 <= soc <= FULL && 0 <= elapsed <= TRANSITION
    ensures soc <= Remap(soc, elapsed) <= FULL
    ensures Remap(soc, 0) == FULL && Remap(soc, TRANSITION) == soc
  {
    RemapFloor(soc, elapsed);
    RemapFloor(soc, 0);
    RemapFloor(soc, TRANSITION);
  }

  /** A lower raw level and more time slide at least as far, and not faster than both allow. */
  lemma SlidGrows(soc1: int, elapsed1: int, soc2: int, elapsed2: int)
    requires 0 <= soc2 <= soc1 <= FULL && 0 <= elapsed1 <= elapsed2 && elapsed1 <= TRANSITION
    ensures Slid(soc1, elapsed1) <= Slid(soc2, elapsed2)
    ensures Slid(soc2, elapsed2) - Slid(soc1, elapsed1)
         <= (FULL - soc2) * (elapsed2 - elapsed1) + TRANSITION * (soc1 - soc2)
  {
    var missing, drop, gap := FULL - soc2, soc1 - soc2, elapsed2 - elapsed1;
    assert Slid(soc2, elapsed2) == missing * elapsed1 + missing * gap;
    assert Slid(soc1, elapsed1) == missing * elapsed1 - drop * elapsed1 by {
      assert FULL - soc1 == missing - drop;
    }
    SlidBounds(drop, elapsed1);
    assert missing * gap >= 0;
  }

  // ---------- Every reachable state ----------

  /** What holds between polls, `last` being the time of the latest. */
  predicate Reachable(c: Control, last: int) {
    match c.state
    case WaitEoc => c.target == 0
    case RechargingCycle => 0 <= c.target <= FULL
    case OverLoading => 1 <= c.target <= FULL && c.start.Some? && c.start.value <= last <= c.start.value + TRANSITION
    case NoPowerSource => 0 <= c.target <= FULL && c.start.Some? && c.start.value <= last <= c.start.value + TRANSITION
    case Inactive => true
  }

  predicate Plausible(p: Poll, last: int) {
    0 <= p.level <= FULL && last <= p.now
  }

  /** One poll: the state stays reachable, the shown level lies between the raw one and 100, an
      episode is over once 900 s have passed, and RECHARGING_CYCLE shows 100 while the status is
      Full or Charging and the raw level has not fallen below the target. */
  lemma PollKeeps(c: Control, p: Poll, last: int)
    requires Reachable(c, last) && Plausible(p, last)
    ensures var (after, shown) := Update(c, p);
            && Reachable(after, p.now)
            && p.level <= shown <= FULL
            && (Timed(c.state) && p.now > c.start.value + TRANSITION ==> after.state.Inactive? && shown == p.level)
            && (c.state.RechargingCycle? && (p.status == "Full" || (p.status == "Charging" && p.level >= c.target)) ==>
                  after.state.RechargingCycle? && shown == FULL)
  {
    RemapBounds(p.level, 0);
    if Timed(c.state) && p.now <= c.start.value + TRANSITION {
      RemapBounds(p.level, p.now - c.start.value);
    }
  }

  /** The levels shown over a run of polls. */
  function Shown(c: Control, polls: seq<Poll>): (levels: seq<int>)
    requires Started(c)
    ensures |levels| == |polls|
    decreases |polls|
  {
    if polls == [] then []
    else
      var (after, shown) := Update(c, polls[0]);
      [shown] + Shown(after, polls[1..])
  }

  function After(c: Control, polls: seq<Poll>): (r: Control)
    requires Started(c)
    ensures Started(r)
    decreases |polls|
  {
    if polls == [] then c else After(Update(c, polls[0]).0, polls[1..])
  }

  predicate AllPlausible(polls: seq<Poll>, last: int)
    decreases |polls|
  {
    polls == [] || (Plausible(polls[0], last) && AllPlausible(polls[1..], polls[0].now))
  }

  /** Over any run from any reachable state, every shown level lies between the raw one and 100
      and the final state is reachable. */
  lemma {:induction false} RunKeeps(c: Control, polls: seq<Poll>, last: int)
    requires Reachable(c, last) && AllPlausible(polls, last)
    ensures forall i :: 0 <= i < |polls| ==> polls[i].level <= Shown(c, polls)[i] <= FULL
    ensures Reachable(After(c, polls), if polls == [] then last else polls[|polls| - 1].now)
    decreases |polls|
  {
    if polls != [] {
      PollKeeps(c, polls[0], last);
      RunKeeps(Update(c, polls[0]).0, polls[1..], polls[0].now);
    }
  }

  // ---------- What a poll leads to ----------

  /** `round(soc * (t / 900) + 100 * (1 - t / 900))`: the nearest integer, halves upwards. */
  lemma RemapRounds(soc: int, elapsed: int)
    requires 0 <= soc <= 100 && 0 <= elapsed <= 900
    ensures var n := soc * elapsed + 100 * (900 - elapsed);
            2 * n - 900 < 1800 * Remap(soc, elapsed) <= 2 * n + 900
  {
    RemapFloor(soc, elapsed);
    assert (FULL - soc) * elapsed == 100 * elapsed - soc * elapsed;
  }

  /** The interpolated level is the one shown when a slide that began at `start` has not ended. */
  predicate Sliding(c: Control, p: Poll) {
    (c.state.OverLoading? || c.state.NoPowerSource?) && c.start.Some? && p.now <= c.start.value + 900
  }

  /** The state after a poll, each state by itself: when it comes about, in numbers. */
  lemma NextState(c: Control, p: Poll, last: int)
    requires Reachable(c, last) && Plausible(p, last)
    ensures var next := Update(c, p).0.state;
            var waiting := c.state.WaitEoc? || c.state.Inactive?;
            var off := p.status != "Full" && p.status != "Charging";
            && (next.WaitEoc? <==> waiting && p.level == 100 && p.status == "Charging")
            && (next.NoPowerSource? <==>
                  || (waiting && p.level == 100 && off)
                  || (c.state.RechargingCycle? && off)
                  || (c.state.NoPowerSource? && KeepsSliding(c, p)))
            && (next.OverLoading? <==>
                  || (c.state.RechargingCycle? && p.status == "Charging" && 0 < c.target && p.level < c.target)
                  || (c.state.OverLoading? && KeepsSliding(c, p)))
            && (next.RechargingCycle? <==>
                  || (waiting && p.level == 100 && p.status == "Full")
                  || (c.state.RechargingCycle? && p.status == "Full")
                  || (c.state.RechargingCycle? && p.status == "Charging" && (c.target == 0 || p.level >= c.target))
                  || (Sliding(c, p) && BackToCycle(c, p)))
            && (next.Inactive? <==>
                  || (waiting && p.level < 100)
                  || (Timed(c.state) && (!Sliding(c, p) || SlideMet(c, p))))
  {}

  /** The slide has come down to the raw level. */
  predicate SlideMet(c: Control, p: Poll)
    requires c.start.Some?
  {
    Remap(p.level, p.now - c.start.value) == p.level && p.level != 100
  }

  /** The charger is back while 100 is still shown and the raw level has not fallen below the target. */
  predicate BackToCycle(c: Control, p: Poll)
    requires c.start.Some?
  {
    p.status == "Charging" && Remap(p.level, p.now - c.start.value) == 100 && p.level >= c.target
  }

  predicate KeepsSliding(c: Control, p: Poll) {
    Sliding(c, p) && !SlideMet(c, p) && !BackToCycle(c, p)
  }

  /** What a poll shows, and when it sets the start of a slide and the target. */
  lemma NextFields(c: Control, p: Poll, last: int)
    requires Reachable(c, last) && Plausible(p, last)
    ensures var (next, shown) := Update(c, p);
            && (next.state.Inactive? ==> shown == p.level)
            && (!next.state.Inactive? && !Timed(c.state) ==> shown == 100)
            && (!next.state.Inactive? && Timed(c.state) ==> shown == Remap(p.level, p.now - c.start.value))
            && (next.start == if Timed(next.state) && !Timed(c.state) then Some(p.now) else c.start)
            && (next.target ==
                  if c.state.RechargingCycle? && p.status == "Full" then 0
                  else if c.state.RechargingCycle? && p.status == "Charging" && c.target == 0 then p.level
                  else if c.state.WaitEoc? && p.level != 100 then 0
                  else if c.state.Inactive? && p.level == 100 then 0
                  else if Timed(c.state) && next.state.RechargingCycle? then 100
                  else c.target)
  {
    RemapBounds(p.level, 0);
  }

  // ---------- A slide ----------

  /** What is shown at `p` while the slide that began at `start` goes on, and when it is over. */
  function SlidLevel(start: int, p: Poll): int {
    if p.now > start + 900 then p.level else Remap(p.level, p.now - start)
  }

  /** No charger that could end the slide early: the polls do not charge at or above the target. */
  predicate NotRestored(polls: seq<Poll>, target: int) {
    forall i :: 0 <= i < |polls| ==> !(polls[i].status == "Charging" && polls[i].level >= target)
  }

  lemma {:induction false} InactiveShowsRaw(c: Control, polls: seq<Poll>)
    requires c.state.Inactive? && forall i :: 0 <= i < |polls| ==> polls[i].level < 100
    ensures forall i :: 0 <= i < |polls| ==> Shown(c, polls)[i] == polls[i].level
    ensures After(c, polls) == c
    decreases |polls|
  {
    if polls != [] {
      assert Update(c, polls[0]) == (c, polls[0].level);
      var rest := polls[1..];
      assert forall i :: 0 <= i < |rest| ==> rest[i] == polls[i + 1];
      InactiveShowsRaw(c, rest);
      assert Shown(c, polls) == [polls[0].level] + Shown(c, rest);
    }
  }

  /** How a level shown belongs to a slide: it is the slide's, or the slide has met the raw level
      earlier and the raw level is shown. */
  ghost predicate OfSlide(start: int, polls: seq<Poll>, i: nat, shown: int)
    requires i < |polls|
  {
    shown == SlidLevel(start, polls[i])
    || (shown == polls[i].level && exists j :: 0 <= j < i && SlidLevel(start, polls[j]) == polls[j].level)
  }

  /** Over any run below 100 without a charger that brings the cycle back, the level shown slides
      from the start of the episode on, until it has met the raw one. */
  lemma {:induction false} SlideRun(c: Control, polls: seq<Poll>, last: int)
    requires Reachable(c, last) && Timed(c.state) && AllPlausible(polls, last) && NotRestored(polls, c.target)
    requires forall i :: 0 <= i < |polls| ==> polls[i].level < 100
    ensures forall i :: 0 <= i < |polls| ==> OfSlide(c.start.value, polls, i, Shown(c, polls)[i])
    decreases |polls|
  {
    if polls != [] {
      var start, p, rest := c.start.value, polls[0], polls[1..];
      var (after, first) := Update(c, p);
      PollKeeps(c, p, last);
      NextState(c, p, last);
      NextFields(c, p, last);
      assert Shown(c, polls) == [first] + Shown(after, rest);
      assert forall i :: 0 <= i < |rest| ==> rest[i] == polls[i + 1];
      if after.state.Inactive? {
        InactiveShowsRaw(after, rest);
        assert SlidLevel(start, p) == p.level;
      } else {
        SlideRun(after, rest, p.now);
        forall i | 0 < i < |polls|
          ensures OfSlide(start, polls, i, Shown(c, polls)[i])
        {
          assert OfSlide(start, rest, i - 1, Shown(after, rest)[i - 1]);
          if j :| 0 <= j < i - 1 && SlidLevel(start, rest[j]) == rest[j].level {
            assert SlidLevel(start, polls[j + 1]) == polls[j + 1].level;
          }
        }
      }
    }
  }

  // ---------- A recharge cycle ----------

  lemma {:induction false} CycleHolds(c: Control, polls: seq<Poll>, last: int)
    requires c.state.RechargingCycle? && 1 <= c.target <= 100 && ChargingFrom(polls, c.target, last)
    ensures After(c, polls) == c
    ensures forall i :: 0 <= i < |polls| ==> Shown(c, polls)[i] == 100
    decreases |polls|
  {
    if polls != [] {
      var rest := polls[1..];
      assert Update(c, polls[0]) == (c, 100);
      assert forall i :: 0 <= i < |rest| ==> rest[i] == polls[i + 1];
      CycleHolds(c, rest, polls[0].now);
      assert Shown(c, polls) == [100] + Shown(c, rest);
    }
  }

  lemma RawInTheEnd(start: int, polls: seq<Poll>, i: nat, shown: int)
    requires i < |polls| && OfSlide(start, polls, i, shown)
    requires 0 <= polls[i].level <= 100 && polls[i].now >= start + 900
    ensures shown == polls[i].level
  {
    RemapBounds(polls[i].level, 900);
  }

  /** A charging poll below the target, and a run that stays below it. */
  lemma Overload(c: Control, drop: Poll, later: seq<Poll>)
    requires c.state.RechargingCycle? && drop.status == "Charging" && 0 <= drop.level < c.target <= 100
    requires AllPlausible(later, drop.now) && forall i :: 0 <= i < |later| ==> later[i].level < c.target
    ensures var (after, shown) := Update(c, drop);
            && shown == 100 && after == Control(OverLoading, Some(drop.now), c.target)
            && (forall i :: 0 <= i < |later| ==> OfSlide(drop.now, later, i, Shown(after, later)[i]))
            && (forall i :: 0 <= i < |later| && later[i].now >= drop.now + 900 ==>
                  Shown(after, later)[i] == later[i].level)
  {
    var after := Control(OverLoading, Some(drop.now), c.target);
    RemapBounds(drop.level, 0);
    assert Update(c, drop) == (after, 100);
    SlideRun(after, later, drop.now);
    hide Update, Remap, Shown, OfSlide, AllPlausible;
    forall i | 0 <= i < |later| && later[i].now >= drop.now + 900
      ensures Shown(after, later)[i] == later[i].level
    {
      PlausibleAt(later, drop.now, i);
      RawInTheEnd(drop.now, later, i, Shown(after, later)[i]);
    }
  }

  function LastTime(polls: seq<Poll>, before: int): int {
    if polls == [] then before else polls[|polls| - 1].now
  }

  /** A recharge cycle: the first charging poll after Full sets its level as the target, and 100 is
      shown through every charging run that stays at or above it.  The first charging poll below
      it starts a slide then and there, still at 100; on any run that stays below it the level
      slides, and from 900 s on the raw level is shown. */
  lemma RechargeCycle(c: Control, first: Poll, held: seq<Poll>, drop: Poll, later: seq<Poll>, last: int)
    requires c.state.RechargingCycle? && c.target == 0
    requires first.status == "Charging" && 1 <= first.level <= 100 && last <= first.now
    requires ChargingFrom(held, first.level, first.now)
    requires drop.status == "Charging" && 0 <= drop.level < first.level
    requires drop.now >= LastTime(held, first.now)
    requires AllPlausible(later, drop.now) && forall i :: 0 <= i < |later| ==> later[i].level < first.level
    ensures var c1 := Update(c, first).0;
            var c2 := After(c1, held);
            var c3 := Update(c2, drop).0;
            && Update(c, first).1 == 100
            && (forall i :: 0 <= i < |held| ==> Shown(c1, held)[i] == 100)
            && Update(c2, drop).1 == 100 && c3 == Control(OverLoading, Some(drop.now), first.level)
            && (forall i :: 0 <= i < |later| ==> OfSlide(drop.now, later, i, Shown(c3, later)[i]))
            && (forall i :: 0 <= i < |later| && later[i].now >= drop.now + 900 ==>
                  Shown(c3, later)[i] == later[i].level)
  {
    var c1 := Update(c, first).0;
    assert Update(c, first) == (c.(target := first.level), 100);
    hide Update, Remap, Shown, After, OfSlide, Reachable, AllPlausible;
    CycleHolds(c1, held, first.now);
    Overload(c1, drop, later);
  }

  lemma {:induction false} PlausibleAt(polls: seq<Poll>, last: int, i: nat)
    requires AllPlausible(polls, last) && i < |polls|
    ensures Plausible(polls[i], last)
    decreases |polls|
  {
    if i > 0 {
      PlausibleAt(polls[1..], polls[0].now, i - 1);
    }
  }

  // ---------- Discharging ----------

  /** Neither Full nor Charging. */
  predicate Off(p: Poll) {
    p.status != "Full" && p.status != "Charging"
  }

  /** What was shown at the last poll, in terms of the state it left. */
  predicate Displays(c: Control, p: Poll, shown: int) {
    match c.state
    case Inactive => shown == p.level
    case OverLoading | NoPowerSource => c.start.Some? && shown == Remap(p.level, p.now - c.start.value)
    case _ => false
  }

  lemma OffDisplays(c: Control, p: Poll, last: int)
    requires Reachable(c, last) && Plausible(p, last) && Off(p)
    ensures Displays(Update(c, p).0, p, Update(c, p).1)
  {}

  /** From one poll to the next the shown level does not rise, and falls by at most the raw drop,
      the slide the elapsed time allows, and one for rounding. */
  predicate Glides(p: Poll, shown: int, q: Poll, next: int) {
    next <= shown
    && TRANSITION * (shown - next)
       <= TRANSITION * (p.level - q.level) + (FULL - q.level) * (q.now - p.now) + TRANSITION
  }

  /** The two bounds for interpolated levels; `gap` may exceed the slide time that counts. */
  lemma RemapGlides(soc1: int, elapsed1: int, soc2: int, elapsed2: int, gap: int)
    requires 0 <= soc2 <= soc1 <= FULL && 0 <= elapsed1 <= elapsed2 <= TRANSITION
    requires elapsed2 - elapsed1 <= gap
    ensures Remap(soc2, elapsed2) <= Remap(soc1, elapsed1)
    ensures TRANSITION * (Remap(soc1, elapsed1) - Remap(soc2, elapsed2))
         <= TRANSITION * (soc1 - soc2) + (FULL - soc2) * gap + TRANSITION
  {
    RemapFloor(soc1, elapsed1);
    RemapFloor(soc2, elapsed2);
    SlidGrows(soc1, elapsed1, soc2, elapsed2);
    Shorter(FULL - soc2, elapsed2 - elapsed1, gap);
  }

  lemma OffPollsGlide(c: Control, p: Poll, shown: int, q: Poll)
    requires Reachable(c, p.now) && Displays(c, p, shown)
    requires Plausible(p, p.now) && Plausible(q, p.now) && Off(q) && q.level <= p.level
    ensures Glides(p, shown, q, Update(c, q).1)
  {
    Shorter(FULL - q.level, 0, q.now - p.now);
    if Timed(c.state) {
      var before, after := p.now - c.start.value, q.now - c.start.value;
      var upto := if after > TRANSITION then TRANSITION else after;
      RemapGlides(p.level, before, q.level, upto, q.now - p.now);
      RemapBounds(q.level, upto);
    } else {
      RemapBounds(q.level, 0);
    }
  }

  lemma Shorter(missing: int, gap: int, longer: int)
    requires missing >= 0 && gap <= longer
    ensures missing * gap <= missing * longer
  {}

  /** A run of discharging polls: status off, raw level never rising. */
  predicate DischargingRun(polls: seq<Poll>, last: int) {
    AllPlausible(polls, last)
    && (forall i :: 0 <= i < |polls| ==> Off(polls[i]))
    && (forall i :: 0 < i < |polls| ==> polls[i].level <= polls[i - 1].level)
  }

  /** Over any discharging run, through every state and out of the remapping, the shown level
      never rises and each fall is bounded. */
  lemma {:induction false} DischargeGlides(c: Control, polls: seq<Poll>, last: int)
    requires Reachable(c, last) && DischargingRun(polls, last)
    ensures var shown := Shown(c, polls);
            forall i :: 0 < i < |polls| ==> Glides(polls[i - 1], shown[i - 1], polls[i], shown[i])
    decreases |polls|
  {
    if polls != [] {
      var p, rest := polls[0], polls[1..];
      var (after, first) := Update(c, p);
      PollKeeps(c, p, last);
      OffDisplays(c, p, last);
      forall i | 0 < i < |rest|
        ensures rest[i].level <= rest[i - 1].level
      {
        assert polls[i + 1].level <= polls[i].level;
      }
      DischargeGlides(after, rest, p.now);
      if rest != [] {
        OffPollsGlide(after, p, first, rest[0]);
      }
      var shown := Shown(c, polls);
      assert shown == [first] + Shown(after, rest);
      forall i | 0 < i < |polls|
        ensures Glides(polls[i - 1], shown[i - 1], polls[i], shown[i])
      {
        if i > 1 {
          assert Glides(rest[i - 2], Shown(after, rest)[i - 2], rest[i - 1], Shown(after, rest)[i - 1]);
        }
      }
    }
  }

  // ---------- Plugging in again ----------

  /** A run of charging polls with the raw level at least `floor`. */
  predicate ChargingFrom(polls: seq<Poll>, floor: int, last: int) {
    AllPlausible(polls, last)
    && forall i :: 0 <= i < |polls| ==> polls[i].status == "Charging" && polls[i].level >= floor
  }

  lemma {:induction false} FullKeepsHundred(c: Control, polls: seq<Poll>, last: int)
    requires c.state.RechargingCycle? && c.target == FULL && ChargingFrom(polls, FULL, last)
    ensures forall i :: 0 <= i < |polls| ==> Shown(c, polls)[i] == FULL
    decreases |polls|
  {
    if polls != [] {
      assert polls[0].level == FULL;
      assert Update(c, polls[0]) == (c, FULL);
      assert forall i :: 0 <= i < |polls| - 1 ==> polls[1..][i] == polls[i + 1];
      FullKeepsHundred(c, polls[1..], polls[0].now);
    }
  }

  /** Below 100, two more polls 900 s apart at the same raw level show that level. */
  lemma TargetHundredSlides(c: Control, level: int, now: int) returns (polls: seq<Poll>)
    requires c.state.RechargingCycle? && c.target == FULL && 0 <= level < FULL
    ensures ChargingFrom(polls, level, now) && |polls| == 2
    ensures Shown(c, polls)[1] == level
  {
    var first, second := Poll("Charging", level, now), Poll("Charging", level, now + TRANSITION);
    polls := [first, second];
    var sliding := Control(OverLoading, Some(now), FULL);
    assert polls[1..] == [second] && polls[1..][1..] == [];
    RemapBounds(level, TRANSITION);
    assert Update(c, first).0 == sliding;
    assert Update(sliding, second).1 == level;
    assert Shown(sliding, [second])[0] == level;
  }

  /** Every charging run at or above `floor` shows 100 throughout. */
  ghost predicate KeepsHundred(c: Control, floor: int, now: int)
    requires Started(c)
  {
    forall polls: seq<Poll> :: ChargingFrom(polls, floor, now) ==>
      forall i :: 0 <= i < |polls| ==> Shown(c, polls)[i] == FULL
  }

  /** When a charger is plugged in while 100 is still shown, the state returns to
      RECHARGING_CYCLE, but with the shown 100 as its target.  So the 100 is kept through every
      further charging poll at or above the present raw level exactly when that level is 100. */
  lemma ReplugKeepsHundredIff(c: Control, p: Poll, last: int)
    requires Reachable(c, last) && Plausible(p, last) && Timed(c.state)
    requires Update(c, p).0.state.RechargingCycle?
    ensures KeepsHundred(Update(c, p).0, p.level, p.now) <==> p.level == FULL
  {
    var after := Update(c, p).0;
    if p.level == FULL {
      forall polls: seq<Poll> | ChargingFrom(polls, p.level, p.now)
        ensures forall i :: 0 <= i < |polls| ==> Shown(after, polls)[i] == FULL
      {
        FullKeepsHundred(after, polls, p.now);
      }
    } else {
      var polls := TargetHundredSlides(after, p.level, p.now);
    }
  }

  const FULL_POLL := Poll("Full", 100, 0)
  const UNPLUGGED := Poll("Discharging", 99, 0)
  const REPLUGGED := Poll("Charging", 99, 0)
  const LATER := Poll("Charging", 99, TRANSITION)

  /** A run on which it is lost: full, unplugged at 99, plugged in again within the same second,
      and 900 s later, with the charger on and the raw level still 99, 99 is shown. */
  lemma ReplugLosesHundred()
    ensures After(INITIAL, [FULL_POLL, UNPLUGGED, REPLUGGED]) == Control(RechargingCycle, Some(0), FULL)
    ensures Shown(INITIAL, [FULL_POLL, UNPLUGGED, REPLUGGED, REPLUGGED, LATER]) == [100, 100, 100, 100, 99]
  {
    var c1 := Control(RechargingCycle, None, 0);
    var c2 := Control(NoPowerSource, Some(0), 0);
    var c3 := Control(RechargingCycle, Some(0), FULL);
    var c4 := Control(OverLoading, Some(0), FULL);
    assert Update(INITIAL, FULL_POLL) == (c1, 100);
    assert Update(c1, UNPLUGGED) == (c2, 100);
    assert Update(c2, REPLUGGED) == (c3, 100);
    assert Update(c3, REPLUGGED) == (c4, 100);
    assert Update(c4, LATER).1 == 99;
    hide Update;
    ShownFirst(c4, LATER, []);
    ShownFirst(c3, REPLUGGED, [LATER]);
    ShownFirst(c2, REPLUGGED, [REPLUGGED, LATER]);
    ShownFirst(c1, UNPLUGGED, [REPLUGGED, REPLUGGED, LATER]);
    ShownFirst(INITIAL, FULL_POLL, [UNPLUGGED, REPLUGGED, REPLUGGED, LATER]);
    ShownFirst(c2, REPLUGGED, []);
    ShownFirst(c1, UNPLUGGED, [REPLUGGED]);
    ShownFirst(INITIAL, FULL_POLL, [UNPLUGGED, REPLUGGED]);
  }

  lemma ShownFirst(c: Control, p: Poll, rest: seq<Poll>)
    requires Started(c)
    ensures Shown(c, [p] + rest) == [Update(c, p).1] + Shown(Update(c, p).0, rest)
    ensures After(c, [p] + rest) == After(Update(c, p).0, rest)
  {
    assert ([p] + rest)[1..] == rest;
  }
}
