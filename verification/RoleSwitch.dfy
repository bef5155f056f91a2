/** Type-C role switching (`switchRole`, `switchMode`, `switchToDrp`, `uevent_event`): a
    switching thread and the event thread share `mPartnerUp` under `mPartnerLock` with its
    condition variable, and exclude each other by `mRoleSwitchLock`, which the event thread only
    tries.  A step is one access to what they share. */
module RoleSwitch {
  import opened Common
  import opened Histories

  datatype Owner = Free | Switcher | EventThread

  datatype SwitchPc =
    | Idle
    | Opening(port: string)                    // switchMode, before fopen
    | Clearing(port: string)                   // file open, about to take mPartnerLock
    | Writing(port: string)                    // mPartnerLock held, mPartnerUp cleared
    | Waiting(port: string, signalled: bool)
    | Woken(port: string, timedOut: bool)
    | Fallback(port: string)                   // about to call switchToDrp
    | OtherRole(port: string)
    | Reporting(port: string, mode: bool, ok: bool)

  datatype EventPc =
    | Listening
    | PartnerAdded
    | TryLock(ports: seq<string>)
    | Restoring(ports: seq<string>)            // ports still to look at

  datatype Event =
    | Started(id: nat, port: string, mode: bool)
    | OpenFailed(id: nat)
    | ModeWritten(id: nat, port: string, ok: bool)
    | PartnerSeen
    | TimedOut(id: nat)
    | OtherWritten(id: nat, port: string, ok: bool)        // power or data role: written and read back
    | Queried(ports: seq<string>)                          // the ports there are, on a Type-C record
    | Restored(ports: seq<string>)                         // the event thread starts looking at these
    | Looked(port: string, present: bool)                  // whether the port has a partner
    | DualWritten(writer: Owner, port: string, ok: bool)  // "dual" stored, or only attempted
    | Returned(id: nat, port: string, mode: bool, ok: bool)

  datatype State = State(
    pc: SwitchPc, id: nat, event: EventPc, roleLock: Owner, partnerLocked: bool,
    partnerUp: bool, deadline: nat, written: nat, waiting: nat, now: nat,
    history: History<Event>)

  const INIT := State(Idle, 0, Listening, Free, false, false, 0, 0, 0, 0, Start)

  /** PORT_TYPE_TIMEOUT, in seconds. */
  const PORT_TYPE_TIMEOUT := 8

  // ---------- The switching thread ----------

  datatype SwitchStep =
    | Begin(port: string, mode: bool)
    | Open(ok: bool)
    | ClearFlag
    | PutMode(ok: bool)
    | Wake
    | TimeOut
    | Relock
    | PutDual(ok: bool)
    | PutOther(ok: bool)
    | Return

  predicate SwitchEnabled(s: State, t: SwitchStep) {
    match t
    case Begin(_, _) => s.pc.Idle? && s.roleLock.Free?
    case Open(_) => s.pc.Opening?
    case ClearFlag => s.pc.Clearing? && !s.partnerLocked
    case PutMode(_) => s.pc.Writing?
    case Wake => s.pc.Waiting?
    case TimeOut => s.pc.Waiting? && s.now >= s.deadline
    case Relock => s.pc.Woken? && !s.partnerLocked
    case PutDual(_) => s.pc.Fallback?
    case PutOther(_) => s.pc.OtherRole?
    case Return => s.pc.Reporting?
  }

  function SwitchNext(s: State, t: SwitchStep): State
    requires SwitchEnabled(s, t)
  {
    match t
    case Begin(port, mode) =>
      s.(id := s.id + 1, roleLock := Switcher, pc := if mode then Opening(port) else OtherRole(port),
         history := Then(s.history, Started(s.id + 1, port, mode)))
    case Open(ok) =>
      s.(pc := if ok then Clearing(s.pc.port) else Fallback(s.pc.port),
         history := if ok then s.history else Then(s.history, OpenFailed(s.id)))
    case ClearFlag => s.(partnerLocked := true, partnerUp := false, pc := Writing(s.pc.port))
    case PutMode(ok) =>
      s.(partnerLocked := false, deadline := s.now + PORT_TYPE_TIMEOUT, written := s.now, waiting := s.now,
         pc := if ok then Waiting(s.pc.port, false) else Fallback(s.pc.port),
         history := Then(s.history, ModeWritten(s.id, s.pc.port, ok)))
    case Wake => s.(pc := Woken(s.pc.port, false))
    case TimeOut => s.(pc := Woken(s.pc.port, true), history := Then(s.history, TimedOut(s.id)))
    case Relock =>
      s.(deadline := s.now + PORT_TYPE_TIMEOUT, waiting := s.now,
         pc := if s.pc.timedOut then Fallback(s.pc.port)
               else if s.partnerUp then Reporting(s.pc.port, true, true)
               else Waiting(s.pc.port, false))
    case PutDual(ok) =>
      s.(pc := Reporting(s.pc.port, true, false),
         history := Then(s.history, DualWritten(Switcher, s.pc.port, ok)))
    case PutOther(ok) =>
      s.(pc := Reporting(s.pc.port, false, ok), history := Then(s.history, OtherWritten(s.id, s.pc.port, ok)))
    case Return =>
      s.(pc := Idle, roleLock := Free,
         history := Then(s.history, Returned(s.id, s.pc.port, s.pc.mode, s.pc.ok)))
  }

  // ---------- The event thread ----------

  datatype EventStep =
    | SeePartner
    | SetPartnerUp
    | SeeTypeC(ports: seq<string>)
    | TryRoleLock
    | LookAt(present: bool, ok: bool)
    | Finish

  predicate EventEnabled(s: State, t: EventStep) {
    match t
    case SeePartner => s.event.Listening?
    case SetPartnerUp => s.event.PartnerAdded? && !s.partnerLocked
    case SeeTypeC(_) => s.event.Listening?
    case TryRoleLock => s.event.TryLock?
    case LookAt(_, _) => s.event.Restoring? && s.event.ports != []
    case Finish => s.event.Restoring? && s.event.ports == []
  }

  function EventNext(s: State, t: EventStep): State
    requires EventEnabled(s, t)
  {
    match t
    case SeePartner => s.(event := PartnerAdded)
    case SetPartnerUp =>
      s.(event := Listening, partnerUp := true, history := Then(s.history, PartnerSeen),
         pc := if s.pc.Waiting? then Waiting(s.pc.port, true) else s.pc)
    case SeeTypeC(ports) => s.(event := TryLock(ports), history := Then(s.history, Queried(ports)))
    case TryRoleLock =>
      s.(event := if s.roleLock.Free? then Restoring(s.event.ports) else Listening,
         roleLock := if s.roleLock.Free? then EventThread else s.roleLock,
         history := if s.roleLock.Free? then Then(s.history, Restored(s.event.ports)) else s.history)
    case LookAt(present, ok) =>
      var port := s.event.ports[0];
      var looked := Then(s.history, Looked(port, present));
      s.(event := Restoring(s.event.ports[1..]),
         history := if present then looked else Then(looked, DualWritten(EventThread, port, ok)))
    case Finish => s.(event := Listening, roleLock := Free)
  }

  // ---------- Runs ----------

  datatype Step = Tick(elapsed: nat) | Switch(w: SwitchStep) | Handle(e: EventStep)

  predicate Enabled(s: State, t: Step) {
    match t
    case Tick(_) => true
    case Switch(w) => SwitchEnabled(s, w)
    case Handle(e) => EventEnabled(s, e)
  }

  function Next(s: State, t: Step): State
    requires Enabled(s, t)
  {
    match t
    case Tick(elapsed) => s.(now := s.now + elapsed)
    case Switch(w) => SwitchNext(s, w)
    case Handle(e) => EventNext(s, e)
  }

  predicate Valid(s: State, steps: seq<Step>)
    decreases |steps|
  {
    steps == [] || (Enabled(s, steps[0]) && Valid(Next(s, steps[0]), steps[1..]))
  }

  function Run(s: State, steps: seq<Step>): State
    requires Valid(s, steps)
    decreases |steps|
  {
    if steps == [] then s else Run(Next(s, steps[0]), steps[1..])
  }

  // ---------- Reading a history ----------

  /** Since switch `id` wrote the mode successfully, a partner-added event was handled. */
  predicate Confirmed(h: History<Event>, id: nat, port: string) {
    match h
    case Start => false
    case Then(before, e) =>
      if e.ModeWritten? && e.id == id then false
      else if e.PartnerSeen? then WroteMode(before, id, port)
      else Confirmed(before, id, port)
  }

  /** Switch `id` wrote the mode of `port` successfully. */
  predicate WroteMode(h: History<Event>, id: nat, port: string) {
    match h
    case Start => false
    case Then(before, e) => if e.ModeWritten? && e.id == id then e.ok && e.port == port else WroteMode(before, id, port)
  }

  /** The latest attempt to write a port's mode. */
  function LastWrite(h: History<Event>): Option<Event> {
    match h
    case Start => None
    case Then(before, e) => if e.ModeWritten? || e.DualWritten? then Some(e) else LastWrite(before)
  }

  /** What a port's node holds: the mode of a switch, "dual", or what it held at first. */
  datatype Stored = Initially | Requested(id: nat) | Dual

  function Node(h: History<Event>, port: string): Stored {
    match h
    case Start => Initially
    case Then(before, e) =>
      if e.ModeWritten? && e.port == port && e.ok then Requested(e.id)
      else if e.DualWritten? && e.port == port && e.ok then Dual
      else Node(before, port)
  }

  /** How the history looked when switch `id` started. */
  function BeforeSwitch(h: History<Event>, id: nat): History<Event> {
    match h
    case Start => Start
    case Then(before, e) => if e.Started? && e.id == id then before else BeforeSwitch(before, id)
  }

  /** Switch `id` has given up on `port`: it has tried to write "dual" and nobody has tried to
      write a mode since, so the node holds "dual" unless that write failed over another mode. */
  predicate GaveUp(h: History<Event>, id: nat, port: string) {
    && (WroteMode(h, id, port) ==> Happened(h, TimedOut(id)))
    && exists ok :: LastWrite(h) == Some(DualWritten(Switcher, port, ok))
         && (Node(h, port).Dual? <==>
               ok || (!WroteMode(h, id, port) && Node(BeforeSwitch(h, id), port).Dual?))
  }

  /** The latest power or data role written. */
  function LastOther(h: History<Event>): Option<Event> {
    match h
    case Start => None
    case Then(before, e) => if e.OtherWritten? then Some(e) else LastOther(before)
  }

  /** A role switch has started and not returned. */
  predicate InProgress(h: History<Event>) {
    match h
    case Start => false
    case Then(before, e) => e.Started? || (!e.Returned? && InProgress(before))
  }

  predicate IdsUpTo(h: History<Event>, n: nat) {
    match h
    case Start => true
    case Then(before, e) => IdsUpTo(before, n) && (e.ModeWritten? || e.TimedOut? || e.OpenFailed? ==> e.id <= n)
  }

  /** When an event may come. */
  predicate Justified(e: Event, before: History<Event>) {
    match e
    case Returned(id, port, mode, ok) =>
      if !mode then LastOther(before) == Some(OtherWritten(id, port, ok)) else
        && (ok <==> Confirmed(before, id, port) && !Happened(before, TimedOut(id)))
        && (ok ==> LastWrite(before) == Some(ModeWritten(id, port, true)) && Node(before, port) == Requested(id))
        && (!ok ==> GaveUp(before, id, port))
    case DualWritten(writer, _, _) => writer.EventThread? ==> !InProgress(before)
    case _ => true
  }

  /** A look and what follows it: "dual" for a port without a partner, at once, and only then. */
  predicate LooksJustified(e: Event, before: History<Event>) {
    && (e.DualWritten? && e.writer.EventThread? <==> before.Then? && before.last.Looked? && !before.last.present)
    && (e.DualWritten? && e.writer.EventThread? ==> e.port == before.last.port)
  }

  predicate AllLooksJustified(h: History<Event>) {
    h.Start? || (AllLooksJustified(h.before) && LooksJustified(h.last, h.before))
  }

  /** The ports looked at since the event thread last started to, in order. */
  function LooksSince(h: History<Event>): seq<string> {
    match h
    case Start => []
    case Then(before, Restored(_)) => []
    case Then(before, Looked(port, _)) => LooksSince(before) + [port]
    case Then(before, _) => LooksSince(before)
  }

  /** The ports it then had before it. */
  function PortsGiven(h: History<Event>): seq<string> {
    match h
    case Start => []
    case Then(before, Restored(ports)) => ports
    case Then(before, _) => PortsGiven(before)
  }

  function LastStarted(h: History<Event>): Option<Event> {
    match h
    case Start => None
    case Then(before, e) => if e.Started? then Some(e) else LastStarted(before)
  }

  /** A mode is written, and a switch returns, for the port and the kind of role that were asked
      for last; after an open that failed no mode is written, and the switch has failed. */
  predicate AsStarted(e: Event, before: History<Event>) {
    match e
    case ModeWritten(id, port, _) =>
      LastStarted(before) == Some(Started(id, port, true)) && !Happened(before, OpenFailed(id))
    case Returned(id, port, mode, ok) =>
      && LastStarted(before) == Some(Started(id, port, mode))
      && (mode && ok ==> !Happened(before, OpenFailed(id)))
    case _ => true
  }

  predicate AllAsStarted(h: History<Event>) {
    h.Start? || (AllAsStarted(h.before) && AsStarted(h.last, h.before))
  }

  predicate ForMode(pc: SwitchPc) {
    !pc.OtherRole? && (pc.Reporting? ==> pc.mode)
  }

  predicate StartInv(s: State) {
    && AllAsStarted(s.history)
    && IdsUpTo(s.history, s.id)
    && (!s.pc.Idle? ==> LastStarted(s.history) == Some(Started(s.id, s.pc.port, ForMode(s.pc))))
    && (ForMode(s.pc) && !s.pc.Idle? && !s.pc.Fallback? && (s.pc.Reporting? ==> s.pc.ok) ==>
          !Happened(s.history, OpenFailed(s.id)))
  }

  function LastQuery(h: History<Event>): seq<string> {
    match h
    case Start => []
    case Then(before, Queried(ports)) => ports
    case Then(before, _) => LastQuery(before)
  }

  predicate LookInv(s: State) {
    && AllLooksJustified(s.history)
    && !(s.history.Then? && s.history.last.Looked? && !s.history.last.present)
    && (s.event.TryLock? ==> s.event.ports == LastQuery(s.history))
    && (s.event.Restoring? ==>
          LooksSince(s.history) + s.event.ports == PortsGiven(s.history) == LastQuery(s.history))
  }

  predicate AllJustified(h: History<Event>) {
    h.Start? || (AllJustified(h.before) && Justified(h.last, h.before))
  }

  // ---------- The invariant ----------

  predicate LockInv(s: State) {
    && (s.roleLock.Switcher? <==> !s.pc.Idle?)
    && (s.roleLock.EventThread? <==> s.event.Restoring?)
    && (s.partnerLocked <==> s.pc.Writing?)
    && (InProgress(s.history) <==> !s.pc.Idle?)
  }

  /** Switch `id` has not changed what the port's node holds. */
  predicate Unwritten(h: History<Event>, id: nat, port: string) {
    Node(h, port) == Node(BeforeSwitch(h, id), port)
  }

  predicate WaitInv(s: State) {
    && IdsUpTo(s.history, s.id)
    && match s.pc
       case Opening(port) => s.id > 0 && IdsUpTo(s.history, s.id - 1) && Unwritten(s.history, s.id, port)
       case Clearing(port) => s.id > 0 && IdsUpTo(s.history, s.id - 1) && Unwritten(s.history, s.id, port)
       case Writing(port) =>
         s.id > 0 && IdsUpTo(s.history, s.id - 1) && Unwritten(s.history, s.id, port) && !s.partnerUp
       case Waiting(port, signalled) =>
         && WroteMode(s.history, s.id, port)
         && LastWrite(s.history) == Some(ModeWritten(s.id, port, true)) && Node(s.history, port) == Requested(s.id)
         && (s.partnerUp <==> Confirmed(s.history, s.id, port)) && (s.partnerUp ==> signalled)
         && !Happened(s.history, TimedOut(s.id))
         && s.written <= s.waiting <= s.now && s.deadline == s.waiting + PORT_TYPE_TIMEOUT
       case Woken(port, timedOut) =>
         && WroteMode(s.history, s.id, port)
         && LastWrite(s.history) == Some(ModeWritten(s.id, port, true)) && Node(s.history, port) == Requested(s.id)
         && (s.partnerUp <==> Confirmed(s.history, s.id, port))
         && (timedOut <==> Happened(s.history, TimedOut(s.id)))
         && s.written <= s.waiting <= s.now
       case Fallback(port) =>
         if WroteMode(s.history, s.id, port) then
           Happened(s.history, TimedOut(s.id)) && Node(s.history, port) == Requested(s.id)
         else Unwritten(s.history, s.id, port)
       case Reporting(port, mode, ok) =>
         if !mode then LastOther(s.history) == Some(OtherWritten(s.id, port, ok)) else
           && (ok <==> Confirmed(s.history, s.id, port) && !Happened(s.history, TimedOut(s.id)))
           && (ok ==> LastWrite(s.history) == Some(ModeWritten(s.id, port, true))
                      && Node(s.history, port) == Requested(s.id))
           && (!ok ==> GaveUp(s.history, s.id, port))
       case _ => true
  }

  predicate Inv(s: State) {
    LockInv(s) && WaitInv(s) && LookInv(s) && StartInv(s) && AllJustified(s.history)
  }

  lemma {:induction false} IdsMore(h: History<Event>, n: nat, port: string)
    requires IdsUpTo(h, n)
    ensures IdsUpTo(h, n + 1) && !WroteMode(h, n + 1, port) && !Happened(h, TimedOut(n + 1))
    ensures !Happened(h, OpenFailed(n + 1))
  {
    if h.Then? {
      IdsMore(h.before, n, port);
    }
  }

  lemma {:induction false} ConfirmedWrote(h: History<Event>, id: nat, port: string)
    ensures Confirmed(h, id, port) ==> WroteMode(h, id, port)
  {
    if h.Then? {
      ConfirmedWrote(h.before, id, port);
    }
  }

  lemma LockInvSwitch(s: State, t: SwitchStep)
    requires SwitchEnabled(s, t) && LockInv(s)
    ensures LockInv(SwitchNext(s, t))
  {}

  lemma WaitInvBegin(s: State, t: SwitchStep)
    requires SwitchEnabled(s, t) && WaitInv(s)
    requires s.pc.Idle?
    ensures WaitInv(SwitchNext(s, t))
  {
    IdsMore(s.history, s.id, t.port);
  }

  lemma WaitInvWrite(s: State, t: SwitchStep)
    requires SwitchEnabled(s, t) && WaitInv(s)
    requires s.pc.Opening? || s.pc.Clearing? || s.pc.Writing?
    ensures WaitInv(SwitchNext(s, t))
  {
    IdsMore(s.history, s.id - 1, s.pc.port);
  }

  lemma WaitInvAwait(s: State, t: SwitchStep)
    requires SwitchEnabled(s, t) && WaitInv(s)
    requires s.pc.Waiting? || s.pc.Woken?
    ensures WaitInv(SwitchNext(s, t))
  {}

  lemma WaitInvReport(s: State, t: SwitchStep)
    requires SwitchEnabled(s, t) && WaitInv(s)
    requires s.pc.Fallback? || s.pc.OtherRole? || s.pc.Reporting?
    ensures WaitInv(SwitchNext(s, t))
  {
    if s.pc.Fallback? {
      ConfirmedWrote(s.history, s.id, s.pc.port);
    }
  }

  lemma WaitInvSwitch(s: State, t: SwitchStep)
    requires SwitchEnabled(s, t) && WaitInv(s)
    ensures WaitInv(SwitchNext(s, t))
  {
    hide WaitInv, SwitchNext, SwitchEnabled;
    match s.pc
    case Idle => WaitInvBegin(s, t);
    case Opening(_) | Clearing(_) | Writing(_) => WaitInvWrite(s, t);
    case Waiting(_, _) | Woken(_, _) => WaitInvAwait(s, t);
    case Fallback(_) | OtherRole(_) | Reporting(_, _, _) => WaitInvReport(s, t);
  }

  lemma LockInvEvent(s: State, t: EventStep)
    requires EventEnabled(s, t) && LockInv(s)
    ensures LockInv(EventNext(s, t))
  {}

  lemma WaitInvEvent(s: State, t: EventStep)
    requires EventEnabled(s, t) && LockInv(s) && WaitInv(s)
    ensures WaitInv(EventNext(s, t))
  {
    if s.pc.Reporting? {
      ConfirmedWrote(s.history, s.id, s.pc.port);
    }
  }

  lemma LookInvSwitch(s: State, t: SwitchStep)
    requires SwitchEnabled(s, t) && LookInv(s)
    ensures LookInv(SwitchNext(s, t))
  {}

  lemma LookInvEvent(s: State, t: EventStep)
    requires EventEnabled(s, t) && LookInv(s)
    ensures LookInv(EventNext(s, t))
  {
    if t.LookAt? {
      var ports := s.event.ports;
      var looked := Then(s.history, Looked(ports[0], t.present));
      assert AllLooksJustified(looked) && LastQuery(looked) == LastQuery(s.history);
      assert ports == [ports[0]] + ports[1..];
      var looks := LooksSince(s.history);
      assert (looks + [ports[0]]) + ports[1..] == looks + ports;
    } else if t.TryRoleLock? {
      assert [] + s.event.ports == s.event.ports;
    }
  }

  lemma StartInvSwitch(s: State, t: SwitchStep)
    requires SwitchEnabled(s, t) && StartInv(s)
    ensures StartInv(SwitchNext(s, t))
  {
    if t.Begin? {
      IdsMore(s.history, s.id, t.port);
    }
  }

  lemma StartInvEvent(s: State, t: EventStep)
    requires EventEnabled(s, t) && StartInv(s)
    ensures StartInv(EventNext(s, t))
  {
    if t.LookAt? {
      var looked := Then(s.history, Looked(s.event.ports[0], t.present));
      assert AllAsStarted(looked) && IdsUpTo(looked, s.id) && LastStarted(looked) == LastStarted(s.history);
    }
  }

  lemma JustifiedEvent(s: State, t: EventStep)
    requires EventEnabled(s, t) && LockInv(s) && AllJustified(s.history)
    ensures AllJustified(EventNext(s, t).history)
  {
    if t.LookAt? {
      assert AllJustified(Then(s.history, Looked(s.event.ports[0], t.present)));
    }
  }

  lemma InvKept(s: State, t: Step)
    requires Enabled(s, t) && Inv(s)
    ensures Inv(Next(s, t))
  {
    match t
    case Tick(_) =>
    case Switch(w) =>
      LockInvSwitch(s, w);
      WaitInvSwitch(s, w);
      LookInvSwitch(s, w);
      StartInvSwitch(s, w);
    case Handle(e) =>
      LockInvEvent(s, e);
      WaitInvEvent(s, e);
      LookInvEvent(s, e);
      StartInvEvent(s, e);
      JustifiedEvent(s, e);
  }

  lemma {:induction false} InvOnRun(s: State, steps: seq<Step>)
    requires Inv(s) && Valid(s, steps)
    ensures Inv(Run(s, steps))
    decreases |steps|
  {
    if steps != [] {
      InvKept(s, steps[0]);
      InvOnRun(Next(s, steps[0]), steps[1..]);
    }
  }

  lemma {:induction false} JustifiedBefore(p: History<Event>, h: History<Event>)
    requires Precedes(p, h) && AllJustified(h)
    ensures AllJustified(p)
  {
    if p != h {
      JustifiedBefore(p, h.before);
    }
  }

  // ---------- Guarantees ----------

  lemma {:induction false} WroteModeAt(h: History<Event>, id: nat, port: string) returns (w: History<Event>)
    requires WroteMode(h, id, port)
    ensures Precedes(Then(w, ModeWritten(id, port, true)), h)
  {
    if h.last.ModeWritten? && h.last.id == id {
      w := h.before;
    } else {
      w := WroteModeAt(h.before, id, port);
    }
  }

  lemma {:induction false} ConfirmedAt(h: History<Event>, id: nat, port: string) returns (w: History<Event>)
    requires Confirmed(h, id, port)
    ensures Precedes(Then(w, ModeWritten(id, port, true)), h)
    ensures HappenedAfter(h, Then(w, ModeWritten(id, port, true)), PartnerSeen)
  {
    if h.last.PartnerSeen? {
      w := WroteModeAt(h.before, id, port);
      Shorter(Then(w, ModeWritten(id, port, true)), h.before);
    } else {
      w := ConfirmedAt(h.before, id, port);
      Shorter(Then(w, ModeWritten(id, port, true)), h.before);
    }
  }

  function Length(h: History<Event>): nat {
    if h.Start? then 0 else 1 + Length(h.before)
  }

  lemma {:induction false} Shorter(p: History<Event>, h: History<Event>)
    requires Precedes(p, h)
    ensures Length(p) <= Length(h)
  {
    if p != h {
      Shorter(p, h.before);
    }
  }

  /** `switchMode` returns true only after a partner-added event handled since it wrote the mode,
      and the mode it wrote then still stands. */
  lemma TrueMeansPartner(steps: seq<Step>, p: History<Event>, id: nat, port: string)
    returns (w: History<Event>)
    requires Valid(INIT, steps)
    requires Precedes(Then(p, Returned(id, port, true, true)), Run(INIT, steps).history)
    ensures Precedes(Then(w, ModeWritten(id, port, true)), p)
    ensures HappenedAfter(p, Then(w, ModeWritten(id, port, true)), PartnerSeen)
    ensures LastWrite(p) == Some(ModeWritten(id, port, true)) && Node(p, port) == Requested(id)
  {
    InvOnRun(INIT, steps);
    JustifiedBefore(Then(p, Returned(id, port, true, true)), Run(INIT, steps).history);
    w := ConfirmedAt(p, id, port);
  }

  /** It returns true if and only if such an event came and the wait did not time out: after a
      timeout the flag is not looked at again. */
  lemma TrueIffInTime(steps: seq<Step>, p: History<Event>, id: nat, port: string, ok: bool)
    requires Valid(INIT, steps)
    requires Precedes(Then(p, Returned(id, port, true, ok)), Run(INIT, steps).history)
    ensures ok <==> Confirmed(p, id, port) && !Happened(p, TimedOut(id))
  {
    InvOnRun(INIT, steps);
    JustifiedBefore(Then(p, Returned(id, port, true, ok)), Run(INIT, steps).history);
  }

  /** It returns false only if the mode could not be written or the wait timed out.  The last write
      attempted to any port is then that of "dual" to this one, and the port holds "dual" if and
      only if that write succeeded, or the switch had written nothing and it held "dual" before. */
  lemma FalseMeansDual(steps: seq<Step>, p: History<Event>, id: nat, port: string)
    returns (ok: bool)
    requires Valid(INIT, steps)
    requires Precedes(Then(p, Returned(id, port, true, false)), Run(INIT, steps).history)
    ensures LastWrite(p) == Some(DualWritten(Switcher, port, ok))
    ensures WroteMode(p, id, port) ==> Happened(p, TimedOut(id))
    ensures Node(p, port).Dual? <==>
            ok || (!WroteMode(p, id, port) && Node(BeforeSwitch(p, id), port).Dual?)
  {
    InvOnRun(INIT, steps);
    JustifiedBefore(Then(p, Returned(id, port, true, false)), Run(INIT, steps).history);
    ok := LastWrite(p).value.ok;
  }

  /** An event handled after the mode write has signalled the waiter, and the flag says so
      when it looks. */
  lemma PartnerNotMissed(steps: seq<Step>)
    requires Valid(INIT, steps)
    ensures var s := Run(INIT, steps);
            && (s.pc.Waiting? && Confirmed(s.history, s.id, s.pc.port) ==> s.pc.signalled)
            && (s.pc.Waiting? || s.pc.Woken? ==> (s.partnerUp <==> Confirmed(s.history, s.id, s.pc.port)))
  {
    InvOnRun(INIT, steps);
  }

  /** The wait for a partner gives up only eight seconds after it was last entered, which is not
      before the mode write; a wake-up that finds no partner starts them anew. */
  lemma TimeOutIsLate(steps: seq<Step>)
    requires Valid(INIT, steps) && Enabled(Run(INIT, steps), Switch(TimeOut))
    ensures Run(INIT, steps).now >= Run(INIT, steps).waiting + 8
    ensures Run(INIT, steps).waiting >= Run(INIT, steps).written
  {
    InvOnRun(INIT, steps);
  }

  /** After a wake-up the flag decides: with a partner the switch has succeeded, without one the
      wait is entered again for a full eight seconds; after a timeout it has failed either way. */
  lemma WakeUpDecides(steps: seq<Step>)
    requires Valid(INIT, steps) && Enabled(Run(INIT, steps), Switch(Relock))
    ensures var s := Run(INIT, steps);
            var n := Next(s, Switch(Relock));
            && (n.pc == Fallback(s.pc.port) <==> s.pc.timedOut)
            && (n.pc == Reporting(s.pc.port, true, true) <==>
                  !s.pc.timedOut && Confirmed(s.history, s.id, s.pc.port))
            && (n.pc == Waiting(s.pc.port, false) <==>
                  !s.pc.timedOut && !Confirmed(s.history, s.id, s.pc.port))
            && (n.pc.Waiting? ==> n.waiting == s.now && n.deadline == s.now + 8)
  {
    InvOnRun(INIT, steps);
  }

  /** The event thread never writes "dual" while a role switch is in progress. */
  lemma NoDualDuringSwitch(steps: seq<Step>, p: History<Event>, port: string, ok: bool)
    requires Valid(INIT, steps)
    requires Precedes(Then(p, DualWritten(EventThread, port, ok)), Run(INIT, steps).history)
    ensures !InProgress(p)
  {
    InvOnRun(INIT, steps);
    JustifiedBefore(Then(p, DualWritten(EventThread, port, ok)), Run(INIT, steps).history);
  }

  lemma {:induction false} LooksJustifiedBefore(p: History<Event>, h: History<Event>)
    requires Precedes(p, h) && AllLooksJustified(h)
    ensures AllLooksJustified(p)
  {
    if p != h {
      LooksJustifiedBefore(p, h.before);
    }
  }

  /** The event thread tries to write "dual" to a port only when it has just looked at that port
      and found no partner; in particular a port with a partner is left as it is. */
  lemma DualOnlyWithoutPartner(steps: seq<Step>, p: History<Event>, port: string, ok: bool)
    requires Valid(INIT, steps)
    requires Precedes(Then(p, DualWritten(EventThread, port, ok)), Run(INIT, steps).history)
    ensures p.Then? && p.last == Looked(port, false)
  {
    InvOnRun(INIT, steps);
    LooksJustifiedBefore(Then(p, DualWritten(EventThread, port, ok)), Run(INIT, steps).history);
  }

  lemma {:induction false} LookFollowed(p: History<Event>, port: string, h: History<Event>) returns (ok: bool)
    requires Precedes(Then(p, Looked(port, false)), h) && h != Then(p, Looked(port, false))
    requires AllLooksJustified(h)
    ensures Precedes(Then(Then(p, Looked(port, false)), DualWritten(EventThread, port, ok)), h)
  {
    if h.before == Then(p, Looked(port, false)) {
      ok := h.last.ok;
    } else {
      ok := LookFollowed(p, port, h.before);
    }
  }

  /** And whenever it has found none it does so at once. */
  lemma NoPartnerMeansDual(steps: seq<Step>, p: History<Event>, port: string) returns (ok: bool)
    requires Valid(INIT, steps)
    requires Precedes(Then(p, Looked(port, false)), Run(INIT, steps).history)
    ensures Precedes(Then(Then(p, Looked(port, false)), DualWritten(EventThread, port, ok)),
                     Run(INIT, steps).history)
  {
    InvOnRun(INIT, steps);
    ok := LookFollowed(p, port, Run(INIT, steps).history);
  }

  /** A look at a port with a partner changes no node, and neither does what the event thread
      does next. */
  lemma PartnerLeavesNode(steps: seq<Step>, p: History<Event>, port: string, e: Event, x: string)
    requires Valid(INIT, steps)
    requires Precedes(Then(Then(p, Looked(port, true)), e), Run(INIT, steps).history)
    ensures Node(Then(p, Looked(port, true)), x) == Node(p, x)
    ensures !(e.DualWritten? && e.writer.EventThread?)
  {
    InvOnRun(INIT, steps);
    LooksJustifiedBefore(Then(Then(p, Looked(port, true)), e), Run(INIT, steps).history);
  }

  /** When the event thread is done it has looked at every port of its query, in order. */
  lemma EveryPortLookedAt(steps: seq<Step>)
    requires Valid(INIT, steps) && Enabled(Run(INIT, steps), Handle(Finish))
    ensures var h := Run(INIT, steps).history; LooksSince(h) == LastQuery(h)
  {
    InvOnRun(INIT, steps);
    var s := Run(INIT, steps);
    assert LooksSince(s.history) + [] == LooksSince(s.history);
  }

  /** It looks at the ports if and only if no role switch is in progress. */
  lemma RestoresIff(steps: seq<Step>)
    requires Valid(INIT, steps) && Enabled(Run(INIT, steps), Handle(TryRoleLock))
    ensures var s := Run(INIT, steps);
            var n := Next(s, Handle(TryRoleLock));
            && (n.event == Restoring(LastQuery(s.history)) <==> !InProgress(s.history))
            && (n.event.Listening? <==> InProgress(s.history))
  {
    InvOnRun(INIT, steps);
  }

  lemma {:induction false} AsStartedBefore(p: History<Event>, h: History<Event>)
    requires Precedes(p, h) && AllAsStarted(h)
    ensures AllAsStarted(p)
  {
    if p != h {
      AsStartedBefore(p, h.before);
    }
  }

  /** What a switch reports is for the port and the kind of role it was started with, and when the
      node could not be opened it is a failure; likewise for the mode it writes. */
  lemma ReturnsAsStarted(steps: seq<Step>, p: History<Event>, id: nat, port: string, mode: bool, ok: bool)
    requires Valid(INIT, steps)
    requires Precedes(Then(p, Returned(id, port, mode, ok)), Run(INIT, steps).history)
    ensures LastStarted(p) == Some(Started(id, port, mode))
    ensures mode && ok ==> !Happened(p, OpenFailed(id))
  {
    InvOnRun(INIT, steps);
    AsStartedBefore(Then(p, Returned(id, port, mode, ok)), Run(INIT, steps).history);
  }

  lemma WritesAsStarted(steps: seq<Step>, p: History<Event>, id: nat, port: string, ok: bool)
    requires Valid(INIT, steps)
    requires Precedes(Then(p, ModeWritten(id, port, ok)), Run(INIT, steps).history)
    ensures LastStarted(p) == Some(Started(id, port, true)) && !Happened(p, OpenFailed(id))
  {
    InvOnRun(INIT, steps);
    AsStartedBefore(Then(p, ModeWritten(id, port, ok)), Run(INIT, steps).history);
  }

  /** A power or data role switch reports what writing the node and reading it back came to. */
  lemma OtherRoleReported(steps: seq<Step>, p: History<Event>, id: nat, port: string, ok: bool)
    requires Valid(INIT, steps)
    requires Precedes(Then(p, Returned(id, port, false, ok)), Run(INIT, steps).history)
    ensures LastOther(p) == Some(OtherWritten(id, port, ok))
  {
    InvOnRun(INIT, steps);
    JustifiedBefore(Then(p, Returned(id, port, false, ok)), Run(INIT, steps).history);
  }

  lemma Then1(s: State, t: Step, rest: seq<Step>)
    requires Enabled(s, t) && Valid(Next(s, t), rest)
    ensures Valid(s, [t] + rest) && Run(s, [t] + rest) == Run(Next(s, t), rest)
  {
    assert ([t] + rest)[1..] == rest;
  }

  lemma LateReturn(s: State) returns (rest: seq<Step>)
    requires s.pc.Woken? && s.pc.timedOut && s.event.PartnerAdded? && !s.partnerLocked
    requires WroteMode(s.history, s.id, s.pc.port)
    ensures Valid(s, rest)
    ensures var h := Run(s, rest).history;
            && h.Then? && h.last == Returned(s.id, s.pc.port, true, false)
            && Confirmed(h.before, s.id, s.pc.port)
  {
    var s1 := Next(s, Handle(SetPartnerUp));
    var s2 := Next(s1, Switch(Relock));
    var s3 := Next(s2, Switch(PutDual(true)));
    rest := [Switch(Return)];
    Then1(s3, Switch(Return), []);
    Then1(s2, Switch(PutDual(true)), rest);
    rest := [Switch(PutDual(true))] + rest;
    Then1(s1, Switch(Relock), rest);
    rest := [Switch(Relock)] + rest;
    Then1(s, Handle(SetPartnerUp), rest);
    rest := [Handle(SetPartnerUp)] + rest;
  }

  /** A run in which the partner comes back, and is noted, between the timeout and the moment
      the switching thread has the lock again: the switch is reported as failed. */
  lemma LatePartnerIgnored(port: string) returns (steps: seq<Step>)
    ensures Valid(INIT, steps)
    ensures var h := Run(INIT, steps).history;
            h.Then? && h.last == Returned(1, port, true, false) && Confirmed(h.before, 1, port)
  {
    var s1 := Next(INIT, Switch(Begin(port, true)));
    var s2 := Next(s1, Switch(Open(true)));
    var s3 := Next(s2, Switch(ClearFlag));
    var s4 := Next(s3, Switch(PutMode(true)));
    var s5 := Next(s4, Tick(PORT_TYPE_TIMEOUT));
    var s6 := Next(s5, Switch(TimeOut));
    var s7 := Next(s6, Handle(SeePartner));
    steps := LateReturn(s7);
    Then1(s6, Handle(SeePartner), steps);
    steps := [Handle(SeePartner)] + steps;
    Then1(s5, Switch(TimeOut), steps);
    steps := [Switch(TimeOut)] + steps;
    Then1(s4, Tick(PORT_TYPE_TIMEOUT), steps);
    steps := [Tick(PORT_TYPE_TIMEOUT)] + steps;
    Then1(s3, Switch(PutMode(true)), steps);
    steps := [Switch(PutMode(true))] + steps;
    Then1(s2, Switch(ClearFlag), steps);
    steps := [Switch(ClearFlag)] + steps;
    Then1(s1, Switch(Open(true)), steps);
    steps := [Switch(Open(true))] + steps;
    Then1(INIT, Switch(Begin(port, true)), steps);
    steps := [Switch(Begin(port, true))] + steps;
  }
}
