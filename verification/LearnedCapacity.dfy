/** Learned capacity (`LearnedCapacityBackupRestore.cpp`): the fuel gauge forgets what it has
    learned and falls back to the nominal capacity; the service keeps the learned value in a
    file and puts it back. */
module LearnedCapacity {
  import opened Common
  import opened Histories

  /** A file or sysfs node; nothing when it cannot be read or does not start with a number. */
  class Node {
    var number: Option<int>

    constructor (n: Option<int>)
      ensures number == n
    {
      number := n;
    }
  }

  /** The fields of the service, and the two nodes it writes. */
  datatype Unit = Unit(sw: int, hw: int, nom: int, file: Option<int>, gauge: Option<int>)

  /** A field after a read of a node: a failed read leaves it. */
  function Read(field: int, node: Option<int>): int {
    if node.Some? then node.value else field
  }

  /** What `UpdateAndSave` learns from a reading, and when it puts the stored value back. */
  predicate Learns(u: Unit) {
    u.hw != 0 && ((u.hw != u.sw && u.hw != u.nom) || u.sw == 0)
  }

  predicate PutsBack(u: Unit) {
    u.hw != 0 && !Learns(u) && u.sw > 0 && u.hw == u.nom
  }

  function Updated(u: Unit): Unit {
    if Learns(u) then u.(sw := u.hw, file := Some(u.hw))
    else if PutsBack(u) then u.(hw := u.sw, gauge := Some(u.sw))
    else u
  }

  function BackedUp(u: Unit): Unit {
    Updated(u.(hw := Read(u.hw, u.gauge)))
  }

  function Restored(u: Unit, design: Option<int>): Unit {
    BackedUp(u.(sw := Read(u.sw, u.file), nom := Read(u.nom, design)))
  }

  class LearnedCapacityBackupRestore {
    var swCap: int
    var hwCap: int
    var nomCap: int
    const persist: Node
    const design: Node
    const gauge: Node

    constructor (persist: Node, design: Node, gauge: Node)
      ensures swCap == hwCap == nomCap == 0
      ensures this.persist == persist && this.design == design && this.gauge == gauge
    {
      swCap, hwCap, nomCap := 0, 0, 0;
      this.persist, this.design, this.gauge := persist, design, gauge;
    }

    ghost predicate Valid() {
      persist != design && persist != gauge && design != gauge
    }

    ghost function View(): Unit
      reads this, persist, gauge
    {
      Unit(swCap, hwCap, nomCap, persist.number, gauge.number)
    }

    method ReadPersistData()
      modifies `swCap
      ensures swCap == Read(old(swCap), persist.number)
    {
      if persist.number.Some? {
        swCap := persist.number.value;
      }
    }

    method ReadNominalCapacity()
      modifies `nomCap
      ensures nomCap == Read(old(nomCap), design.number)
    {
      if design.number.Some? {
        nomCap := design.number.value;
      }
    }

    method ReadCapacity()
      modifies `hwCap
      ensures hwCap == Read(old(hwCap), gauge.number)
    {
      if gauge.number.Some? {
        hwCap := gauge.number.value;
      }
    }

    method SaveToStorage()
      modifies persist
      ensures persist.number == Some(swCap)
    {
      persist.number := Some(swCap);
    }

    method SaveToSRAM()
      modifies gauge
      ensures gauge.number == Some(hwCap)
    {
      gauge.number := Some(hwCap);
    }

    method UpdateAndSave()
      requires Valid()
      modifies `swCap, `hwCap, persist, gauge
      ensures View() == Updated(old(View()))
    {
      var backup, restore := false, false;
      if hwCap != 0 {
        if (hwCap != swCap && hwCap != nomCap) || swCap == 0 {
          swCap := hwCap;
          backup := true;
        } else if swCap > 0 && hwCap == nomCap {
          hwCap := swCap;
          restore := true;
        }
      }
      if restore {
        SaveToSRAM();
      }
      if backup {
        SaveToStorage();
      }
    }

    method Restore()
      requires Valid()
      modifies this, persist, gauge
      ensures View() == Restored(old(View()), old(design.number))
    {
      ReadPersistData();
      ReadNominalCapacity();
      ReadCapacity();
      UpdateAndSave();
    }

    method Backup()
      requires Valid()
      modifies `swCap, `hwCap, persist, gauge
      ensures View() == BackedUp(old(View()))
    {
      ReadCapacity();
      UpdateAndSave();
    }
  }

  // ---------- Runs ----------

  /** The gauge comes to read something (it learned, was reset, or fails), the service backs
      up, or the device reboots with a nominal capacity that can be read or not. */
  datatype Step = Gauge(reading: Option<int>) | Backup | Reboot(design: Option<int>)

  /** A reading of the gauge, and the nominal capacity the service held it against. */
  datatype Observation = Observation(value: int, nominal: int)

  datatype State = State(u: Unit, seen: History<Observation>)

  function Noted(seen: History<Observation>, gauge: Option<int>, nominal: int): History<Observation> {
    if gauge.Some? then Then(seen, Observation(gauge.value, nominal)) else seen
  }

  function Next(s: State, t: Step): State {
    match t
    case Gauge(reading) => s.(u := s.u.(gauge := reading))
    case Backup => State(BackedUp(s.u), Noted(s.seen, s.u.gauge, s.u.nom))
    case Reboot(design) =>
      State(Restored(Unit(0, 0, 0, s.u.file, s.u.gauge), design), Noted(s.seen, s.u.gauge, Read(0, design)))
  }

  function Run(s: State, steps: seq<Step>): State
    decreases |steps|
  {
    if steps == [] then s else Run(Next(s, steps[0]), steps[1..])
  }

  /** A device that has just booted. */
  function Booted(file: Option<int>, gauge: Option<int>, design: Option<int>): State {
    Next(State(Unit(0, 0, 0, file, gauge), Start), Reboot(design))
  }

  // ---------- What the file should hold ----------

  predicate IsLearned(e: Observation) {
    e.value != 0 && e.value != e.nominal
  }

  /** The most recent reading that was learned. */
  function LastLearned(seen: History<Observation>): (v: Option<int>)
    ensures v.Some? ==> v.value != 0
  {
    match seen
    case Start => None
    case Then(before, e) => if IsLearned(e) then Some(e.value) else LastLearned(before)
  }

  /** The first reading that was not zero. */
  function FirstNonZero(seen: History<Observation>): (v: Option<int>)
    ensures v.Some? ==> v.value != 0
  {
    match seen
    case Start => None
    case Then(before, e) =>
      if FirstNonZero(before).Some? then FirstNonZero(before)
      else if e.value != 0 then Some(e.value) else None
  }

  function Expected(file: Option<int>, seen: History<Observation>): Option<int> {
    if LastLearned(seen).Some? then LastLearned(seen)
    else if Read(0, file) != 0 || FirstNonZero(seen).None? then file
    else FirstNonZero(seen)
  }

  lemma ExpectedMore(file: Option<int>, seen: History<Observation>, e: Observation)
    ensures Expected(file, Then(seen, e))
            == if IsLearned(e) || (Read(0, Expected(file, seen)) == 0 && e.value != 0) then Some(e.value)
               else Expected(file, seen)
  {
    assert LastLearned(Then(seen, e)) == if IsLearned(e) then Some(e.value) else LastLearned(seen);
  }

  predicate Inv(file: Option<int>, s: State) {
    && s.u.file == Expected(file, s.seen)
    && s.u.sw == Read(0, s.u.file)
    && (s.u.hw == 0 || s.u.hw == s.u.sw || (s.u.hw == s.u.nom && s.u.sw < 0))
  }

  lemma InvBooted(file: Option<int>, gauge: Option<int>, design: Option<int>)
    ensures Inv(file, Booted(file, gauge, design))
  {
    ExpectedMore(file, Start, Observation(Read(0, gauge), Read(0, design)));
  }

  lemma InvKept(file: Option<int>, s: State, t: Step)
    requires Inv(file, s)
    ensures Inv(file, Next(s, t))
  {
    match t
    case Gauge(_) =>
    case Backup => ExpectedMore(file, s.seen, Observation(Read(0, s.u.gauge), s.u.nom));
    case Reboot(design) => ExpectedMore(file, s.seen, Observation(Read(0, s.u.gauge), Read(0, design)));
  }

  lemma {:induction false} InvOnRun(file: Option<int>, s: State, steps: seq<Step>)
    requires Inv(file, s)
    ensures Inv(file, Run(s, steps))
    decreases |steps|
  {
    if steps != [] {
      InvKept(file, s, steps[0]);
      InvOnRun(file, Next(s, steps[0]), steps[1..]);
    }
  }

  /** However learning, gauge resets, failed readings and reboots are mixed, the file holds the
      most recently learned reading; before any, what it held at first; and if that was
      nothing, the first reading there was. */
  lemma PersistedIsLearned(file: Option<int>, gauge: Option<int>, design: Option<int>, steps: seq<Step>)
    ensures var s := Run(Booted(file, gauge, design), steps);
            s.u.file == Expected(file, s.seen)
  {
    InvBooted(file, gauge, design);
    InvOnRun(file, Booted(file, gauge, design), steps);
  }

  /** After a backup or a reboot with a non-zero reading the gauge and the file agree, if and
      only if it was not the nominal capacity meeting another, negative number in the file. */
  lemma AgreeIff(file: Option<int>, gauge: Option<int>, design: Option<int>, steps: seq<Step>, t: Step)
    requires t.Backup? || t.Reboot?
    requires var u := Run(Booted(file, gauge, design), steps).u; u.gauge.Some? && u.gauge.value != 0
    ensures var u := Run(Booted(file, gauge, design), steps).u;
            var v := Next(Run(Booted(file, gauge, design), steps), t).u;
            v.gauge == v.file <==>
              !(u.gauge == Some(v.nom) && Read(0, u.file) < 0 && u.file != u.gauge)
  {
    InvBooted(file, gauge, design);
    InvOnRun(file, Booted(file, gauge, design), steps);
  }

  /** What a backup or a reboot makes of a reading, in numbers: zero changes nothing; a reading
      other than the nominal capacity is learned; the nominal capacity is replaced by a positive
      number in the file, learned if the file holds none or zero, and left beside a negative one. */
  lemma ReadingDecides(file: Option<int>, gauge: Option<int>, design: Option<int>, steps: seq<Step>, t: Step)
    requires t.Backup? || t.Reboot?
    requires Run(Booted(file, gauge, design), steps).u.gauge.Some?
    ensures var u := Run(Booted(file, gauge, design), steps).u;
            var v := Next(Run(Booted(file, gauge, design), steps), t).u;
            var reading, stored := u.gauge.value, Read(0, u.file);
            && (reading == 0 ==> v.gauge == u.gauge && v.file == u.file)
            && (reading != 0 && reading != v.nom ==> v.gauge == Some(reading) && v.file == Some(reading))
            && (reading != 0 && reading == v.nom && stored > 0 ==> v.gauge == Some(stored) && v.file == u.file)
            && (reading != 0 && reading == v.nom && stored == 0 ==> v.gauge == u.gauge && v.file == Some(reading))
            && (reading != 0 && reading == v.nom && stored < 0 ==> v.gauge == u.gauge && v.file == u.file)
  {
    InvBooted(file, gauge, design);
    InvOnRun(file, Booted(file, gauge, design), steps);
  }

  /** A gauge that cannot be read is not learned from: a backup leaves the file as it is, and
      writes nothing to the gauge but what the file holds. */
  lemma UnreadableKeepsFile(file: Option<int>, gauge: Option<int>, design: Option<int>, steps: seq<Step>, t: Step)
    requires t.Backup? || t.Reboot?
    requires Run(Booted(file, gauge, design), steps).u.gauge.None?
    ensures var u := Run(Booted(file, gauge, design), steps).u;
            var v := Next(Run(Booted(file, gauge, design), steps), t).u;
            v.file == u.file && (v.gauge == None || v.gauge == u.file)
  {
    InvBooted(file, gauge, design);
    InvOnRun(file, Booted(file, gauge, design), steps);
  }

  /** A run on which they disagree: a file holding -1 and a gauge at the nominal capacity. */
  lemma NegativeFileDisagrees(steps: seq<Step>)
    requires steps == [Backup]
    ensures var u := Run(Booted(Some(-1), Some(5), Some(5)), steps).u;
            u.gauge == Some(5) && u.file == Some(-1)
  {
    var s := Next(Booted(Some(-1), Some(5), Some(5)), Backup);
    assert steps[1..] == [];
    assert Run(s, []) == s;
  }
}
