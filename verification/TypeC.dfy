/** What the Type-C HAL reads from the kernel (`Usb.cpp`): the port directory
    (`getTypeCPortNamesHelper`) and the uevent messages (`uevent_event`). */
module TypeC {
  import opened Common

  // ---------- C strings ----------

  /** The first place where `c` occurs in `s`, or the end. */
  function IndexOf(s: string, c: char): (k: nat)
    ensures k <= |s|
    ensures c !in s[..k]
    ensures k < |s| ==> s[k] == c
  {
    if s == "" || s[0] == c then 0 else 1 + IndexOf(s[1..], c)
  }

  lemma {:induction false} IndexIn(a: string, b: string, c: char)
    requires c !in a
    ensures IndexOf(a + b, c) == |a| + IndexOf(b, c)
  {
    if a == "" {
      assert a + b == b;
    } else {
      assert (a + b)[1..] == a[1..] + b;
      IndexIn(a[1..], b, c);
    }
  }

  predicate OccursAt(s: string, w: string, k: int) {
    0 <= k <= |s| - |w| && s[k..k + |w|] == w
  }

  predicate Contains(s: string, w: string) {
    exists k | 0 <= k <= |s| :: OccursAt(s, w, k)
  }

  /** `strtok(s, "-")`: the first token, or nothing if there are only dashes. */
  function FirstToken(s: string): Option<string> {
    if s == "" then None
    else if s[0] == '-' then FirstToken(s[1..])
    else Some(s[..IndexOf(s, '-')])
  }

  // ---------- The port directory ----------

  datatype Entry = Entry(name: string, isLink: bool)

  const PARTNER := "-partner"

  predicate IsPartner(e: Entry) {
    e.isLink && Contains(e.name, PARTNER)
  }

  predicate IsPort(e: Entry) {
    e.isLink && !Contains(e.name, PARTNER)
  }

  lemma {:induction false} HasToken(s: string, k: nat)
    requires k < |s| && s[k] != '-'
    ensures FirstToken(s).Some?
  {
    if s[0] == '-' {
      HasToken(s[1..], k - 1);
    }
  }

  lemma PartnerHasToken(s: string)
    requires Contains(s, PARTNER)
    ensures FirstToken(s).Some?
  {
    var k :| 0 <= k <= |s| && OccursAt(s, PARTNER, k);
    assert s[k + 1] == s[k..k + |PARTNER|][1] == PARTNER[1];
    HasToken(s, k + 1);
  }

  /** The port an entry speaks of. */
  function PortOf(e: Entry): string
    requires e.isLink
  {
    if IsPartner(e) then PartnerHasToken(e.name); FirstToken(e.name).value else e.name
  }

  predicate Listed(entries: seq<Entry>, port: string) {
    exists e :: e in entries && e.isLink && PortOf(e) == port
  }

  /** Some entry naming a partner has the port as its first token. */
  predicate Connected(entries: seq<Entry>, port: string) {
    exists e :: e in entries && IsPartner(e) && PortOf(e) == port
  }

  datatype Status = Success | Error

  /** The map holds the ports listed, beside what it held before, each with whether it is connected. */
  ghost predicate Shows(ports: map<string, bool>, entries: seq<Entry>, names: map<string, bool>) {
    && (forall port :: port in ports <==> port in names || Listed(entries, port))
    && (forall port :: port in ports ==>
          (ports[port] <==> Connected(entries, port) || (port in names && names[port])))
  }

  /** `getTypeCPortNamesHelper`; `directory` is nothing when it cannot be opened. */
  method GetPortNames(directory: Option<seq<Entry>>, names: map<string, bool>)
    returns (status: Status, ports: map<string, bool>)
    ensures status.Success? <==> directory.Some?
    ensures directory.None? ==> ports == names
    ensures directory.Some? ==> Shows(ports, directory.value, names)
  {
    ports := names;
    if directory.None? {
      return Error, ports;
    }
    hide Shows, Contains, FirstToken;
    var entries := directory.value;
    var i := 0;
    ShowsNothing(names);
    assert entries[..0] == [];
    while i < |entries|
      invariant 0 <= i <= |entries|
      invariant Shows(ports, entries[..i], names)
    {
      var ep := entries[i];
      ShowsMore(ports, entries[..i], names, ep);
      assert entries[..i + 1] == entries[..i] + [ep];
      if ep.isLink {
        if !Contains(ep.name, PARTNER) {
          if ep.name !in ports {
            ports := ports[ep.name := false];
          }
        } else {
          PartnerHasToken(ep.name);
          ports := ports[FirstToken(ep.name).value := true];
        }
      }
      i := i + 1;
    }
    assert entries[..i] == entries;
    return Success, ports;
  }

  lemma ShowsMore(ports: map<string, bool>, s: seq<Entry>, names: map<string, bool>, e: Entry)
    requires Shows(ports, s, names)
    ensures !e.isLink ==> Shows(ports, s + [e], names)
    ensures IsPort(e) && e.name in ports ==> Shows(ports, s + [e], names)
    ensures IsPort(e) && e.name !in ports ==> Shows(ports[e.name := false], s + [e], names)
    ensures IsPartner(e) ==> Shows(ports[PortOf(e) := true], s + [e], names)
  {
    hide Listed, Connected, Contains, FirstToken;
    ListedMore(s, e);
    if e.isLink {
      ConnectedIsListed(s, PortOf(e));
    }
  }

  lemma ConnectedIsListed(s: seq<Entry>, port: string)
    ensures Connected(s, port) ==> Listed(s, port)
  {}

  lemma ShowsNothing(names: map<string, bool>)
    ensures Shows(names, [], names)
  {}

  lemma ListedMore(s: seq<Entry>, e: Entry)
    ensures forall port :: Listed(s + [e], port) <==> Listed(s, port) || (e.isLink && PortOf(e) == port)
    ensures forall port ::
              Connected(s + [e], port) <==> Connected(s, port) || (IsPartner(e) && PortOf(e) == port)
  {
    assert forall x :: x in s + [e] <==> x in s || x == e;
    assert e in s + [e];
  }

  /** Whatever order the directory is read in, the map is the same. */
  lemma OrderIrrelevant(a: seq<Entry>, b: seq<Entry>, names: map<string, bool>,
                        p: map<string, bool>, q: map<string, bool>)
    requires multiset(a) == multiset(b)
    requires Shows(p, a, names) && Shows(q, b, names)
    ensures p == q
  {
    hide IsPartner, PortOf;
    assert forall e :: e in a <==> e in multiset(a);
    assert forall e :: e in b <==> e in multiset(b);
    assert forall e :: e in a <==> e in b;
    assert forall port :: Listed(a, port) <==> Listed(b, port);
    assert forall port :: Connected(a, port) <==> Connected(b, port);
  }

  lemma ContainsIs(s: string, w: string)
    ensures Contains(s, w) <==> exists a, b :: s == a + w + b
  {
    if k :| 0 <= k <= |s| && OccursAt(s, w, k) {
      assert s == s[..k] + w + s[k + |w|..];
    }
    if a, b :| s == a + w + b {
      assert s[|a|..|a| + |w|] == w;
      assert OccursAt(s, w, |a|);
    }
  }

  /** A link whose name holds "-partner" speaks of a partner, any other link of a port. */
  lemma EntryIs(e: Entry)
    ensures IsPartner(e) <==> e.isLink && exists a, b :: e.name == a + "-partner" + b
    ensures IsPort(e) <==> e.isLink && !exists a, b :: e.name == a + "-partner" + b
    ensures IsPort(e) ==> PortOf(e) == e.name
  {
    ContainsIs(e.name, PARTNER);
  }

  /** The first token: dashes before it, none in it, and a dash or nothing after it. */
  lemma {:induction false} FirstTokenIs(s: string) returns (before: string, after: string)
    requires FirstToken(s).Some?
    ensures s == before + FirstToken(s).value + after
    ensures forall i :: 0 <= i < |before| ==> before[i] == '-'
    ensures FirstToken(s).value != "" && '-' !in FirstToken(s).value
    ensures after == "" || after[0] == '-'
  {
    TokenHasNoDash(s);
    if s[0] == '-' {
      before, after := FirstTokenIs(s[1..]);
      before := ['-'] + before;
    } else {
      before, after := "", s[IndexOf(s, '-')..];
    }
  }

  /** The partner entry of a port marks that port if and only if the port's name has no dash. */
  lemma PartnerMarksPort(port: string, suffix: string)
    ensures IsPartner(Entry(port + "-partner" + suffix, true))
    ensures PortOf(Entry(port + "-partner" + suffix, true)) == port <==> port != "" && '-' !in port
  {
    var name := port + PARTNER + suffix;
    assert OccursAt(name, PARTNER, |port|);
    PartnerHasToken(name);
    assert name == port + (PARTNER + suffix);
    TokenOf(port, PARTNER + suffix);
  }

  lemma TokenOf(port: string, rest: string)
    requires rest != "" && rest[0] == '-' && FirstToken(port + rest).Some?
    ensures FirstToken(port + rest).value == port <==> port != "" && '-' !in port
  {
    if port != "" && '-' !in port {
      IndexIn(port, rest, '-');
      assert (port + rest)[..|port|] == port;
    } else {
      TokenHasNoDash(port + rest);
    }
  }

  lemma {:induction false} TokenHasNoDash(s: string)
    requires FirstToken(s).Some?
    ensures FirstToken(s).value != "" && '-' !in FirstToken(s).value
  {
    if s[0] == '-' {
      TokenHasNoDash(s[1..]);
    } else {
      assert s[..IndexOf(s, '-')][0] == s[0];
    }
  }

  // ---------- Uevent messages ----------

  const NUL := '\0'

  /** UEVENT_MSG_LEN. */
  const UEVENT_MSG_LEN := 2048

  /** What the event thread does on reading a record. */
  datatype Action = PartnerUp | QueryPorts

  /** `std::regex_match(w, "(add)(.*)(-partner)")`: a dot matches anything but a line terminator. */
  predicate PartnerAdded(w: string) {
    && |w| >= 11 && w[..3] == "add" && w[|w| - 8..] == PARTNER
    && '\n' !in w[3..|w| - 8] && '\r' !in w[3..|w| - 8]
  }

  const DEVTYPE := "DEVTYPE=typec_"

  predicate IsTypeC(w: string) {
    DEVTYPE <= w
  }

  /** Where the string that starts at `cp` ends. */
  function EndOf(s: string, cp: nat): (k: nat)
    requires cp <= |s|
    ensures cp <= k <= |s|
    ensures forall j :: cp <= j < k ==> s[j] != NUL
    ensures k < |s| ==> s[k] == NUL
    decreases |s| - cp
  {
    if cp == |s| || s[cp] == NUL then cp else EndOf(s, cp + 1)
  }

  /** The records of a message from `cp` on; an empty one ends it. */
  function Records(s: string, cp: nat): seq<string>
    requires cp <= |s|
    decreases |s| - cp
  {
    var k := EndOf(s, cp);
    if k == cp then [] else [s[cp..k]] + (if k < |s| then Records(s, k + 1) else [])
  }

  /** A partner is noted for each record that says so, up to a Type-C record, which has the
      ports queried. */
  function ActionsOf(records: seq<string>): seq<Action> {
    if records == [] then []
    else if PartnerAdded(records[0]) then [PartnerUp] + ActionsOf(records[1..])
    else if IsTypeC(records[0]) then [QueryPorts]
    else ActionsOf(records[1..])
  }

  /** What a message leads to from `cp` on. */
  function ActionsFrom(s: string, cp: nat): seq<Action>
    requires cp <= |s|
  {
    ActionsOf(Records(s, cp))
  }

  lemma EndIs(s: string, cp: nat, k: nat)
    requires cp <= k <= |s| && (k < |s| ==> s[k] == NUL)
    requires forall j :: cp <= j < k ==> s[j] != NUL
    ensures EndOf(s, cp) == k
  {}

  /** A record as it is read: not empty, without a NUL, up to one or to the end. */
  lemma FirstReads(s: string, cp: nat)
    requires cp <= |s|
    ensures var k := EndOf(s, cp);
            && (cp < k ==> s[cp..k] != "" && NUL !in s[cp..k])
            && Records(s, cp) == if k == cp then [] else if k == |s| then [s[cp..k]]
                                 else [s[cp..k]] + Records(s, k + 1)
  {
    hide EndOf;
    var k := EndOf(s, cp);
    var w := s[cp..k];
    forall i | 0 <= i < |w| ensures w[i] != NUL {
      assert w[i] == s[cp + i];
    }
  }

  /** The two terminators the scan appends add no record. */
  lemma {:induction false} Terminated(s: string, t: string, cp: nat)
    requires cp <= |s| && t == s + [NUL, NUL]
    ensures Records(t, cp) == Records(s, cp)
    decreases |s| - cp
  {
    hide EndOf, Records;
    var k := EndOf(s, cp);
    assert t[k] == NUL && t[|s| + 1] == NUL;
    EndIs(t, cp, k);
    assert t[cp..k] == s[cp..k];
    FirstReads(s, cp);
    FirstReads(t, cp);
    if cp < k < |s| {
      Terminated(s, t, k + 1);
    } else if cp < k {
      EndIs(t, k + 1, k + 1);
      FirstReads(t, k + 1);
    }
  }

  lemma ActionsAt(s: string, cp: nat)
    requires cp < |s|
    ensures s[cp] == NUL ==> ActionsFrom(s, cp) == []
    ensures var k := EndOf(s, cp);
            s[cp] != NUL && k < |s| ==>
              ActionsFrom(s, cp)
              == if PartnerAdded(s[cp..k]) then [PartnerUp] + ActionsFrom(s, k + 1)
                 else if IsTypeC(s[cp..k]) then [QueryPorts]
                 else ActionsFrom(s, k + 1)
  {
    hide PartnerAdded, IsTypeC, EndOf;
    hide Records;
    var k := EndOf(s, cp);
    FirstReads(s, cp);
    if s[cp] != NUL && k < |s| {
      assert ([s[cp..k]] + Records(s, k + 1))[1..] == Records(s, k + 1);
    }
  }

  /** The pointer moved to after the next terminator. */
  method NextRecord(msg: array<char>, n: nat, start: nat) returns (cp: nat)
    requires start <= n && n + 2 <= msg.Length && msg[n] == NUL
    ensures cp == EndOf(msg[..n + 2], start) + 1 <= n + 1
  {
    ghost var end := EndOf(msg[..n + 2], start);
    assert end <= n by {
      assert msg[..n + 2][n] == NUL;
    }
    cp := start;
    while msg[cp] != NUL
      invariant start <= cp <= end
      decreases end - cp
    {
      assert msg[..n + 2][cp] != NUL;
      cp := cp + 1;
    }
    assert msg[..n + 2][cp] == NUL;
    cp := cp + 1;
  }

  /** The loop of `uevent_event` over a message and its two terminators. */
  method ScanRecords(msg: array<char>, n: nat) returns (actions: seq<Action>)
    requires n + 2 <= msg.Length && msg[n] == msg[n + 1] == NUL
    ensures actions == ActionsFrom(msg[..n + 2], 0)
  {
    hide PartnerAdded, IsTypeC, ActionsFrom, EndOf;
    ghost var text := msg[..n + 2];
    actions := [];
    var cp := 0;
    while msg[cp] != NUL
      invariant cp <= n + 1
      invariant actions + ActionsFrom(text, cp) == ActionsFrom(text, 0)
      decreases n + 1 - cp
    {
      assert text[cp] == msg[cp] && text[n] == text[n + 1] == NUL;
      ActionsAt(text, cp);
      var next := NextRecord(msg, n, cp);
      var w := msg[cp..next - 1];
      assert w == text[cp..next - 1] by {
        assert text[..next - 1] == msg[..next - 1];
      }
      if PartnerAdded(w) {
        actions := actions + [PartnerUp];
      } else if IsTypeC(w) {
        return actions + [QueryPorts];
      }
      cp := next;
    }
    assert text[cp] == msg[cp];
    ActionsAt(text, cp);
  }

  /** `uevent_event`, from the message received (`n` is what the receiving call returned) to
      the actions it leads to. */
  method HandleUevent(msg: array<char>, n: int) returns (actions: seq<Action>)
    requires msg.Length == UEVENT_MSG_LEN + 2 && n <= UEVENT_MSG_LEN
    modifies msg
    ensures n <= 0 || n >= 2048 ==> actions == [] && msg[..] == old(msg[..])
    ensures 0 < n < 2048 ==>
              && actions == ActionsFrom(old(msg[..n]), 0)
              && msg[..] == old(msg[..])[n := '\0'][n + 1 := '\0']
  {
    if n <= 0 || n >= UEVENT_MSG_LEN {
      return [];
    }
    msg[n] := NUL;
    msg[n + 1] := NUL;
    assert msg[..n + 2] == msg[..n] + [NUL, NUL];
    Terminated(msg[..n], msg[..n + 2], 0);
    actions := ScanRecords(msg, n);
  }

  /** From `cp` on the text is the records, each ended by a NUL (the last one may end with the
      text), and then nothing or an empty record. */
  predicate Spells(s: string, cp: nat, records: seq<string>)
    requires cp <= |s|
    decreases |records|
  {
    if records == [] then cp == |s| || s[cp] == '\0'
    else
      var k := cp + |records[0]|;
      && records[0] != "" && '\0' !in records[0]
      && k <= |s| && s[cp..k] == records[0]
      && if k == |s| then |records| == 1 else s[k] == '\0' && Spells(s, k + 1, records[1..])
  }

  lemma FirstEnds(s: string, cp: nat, w: string)
    requires cp + |w| <= |s| && s[cp..cp + |w|] == w && NUL !in w
    requires cp + |w| < |s| ==> s[cp + |w|] == NUL
    ensures EndOf(s, cp) == cp + |w|
  {
    forall j | cp <= j < cp + |w| ensures s[j] != NUL {
      assert s[j] == w[j - cp];
    }
    EndIs(s, cp, cp + |w|);
  }

  lemma {:induction false} ReadsWhatItSpells(s: string, cp: nat, records: seq<string>)
    requires cp <= |s| && Spells(s, cp, records)
    ensures Records(s, cp) == records
    decreases |records|
  {
    if records != [] {
      hide EndOf;
      var k := cp + |records[0]|;
      FirstEnds(s, cp, records[0]);
      if k < |s| {
        ReadsWhatItSpells(s, k + 1, records[1..]);
        assert Records(s, cp) == [records[0]] + records[1..];
      } else {
        assert Records(s, cp) == [records[0]];
      }
    }
  }

  lemma SpellsCons(s: string, cp: nat, w: string, rest: seq<string>)
    requires w != "" && NUL !in w && cp + |w| < |s| && s[cp..cp + |w|] == w && s[cp + |w|] == NUL
    requires Spells(s, cp + |w| + 1, rest)
    ensures Spells(s, cp, [w] + rest)
  {
    assert ([w] + rest)[1..] == rest;
  }

  lemma SpellsLast(s: string, cp: nat, w: string)
    requires w != "" && NUL !in w && cp + |w| == |s| && s[cp..cp + |w|] == w
    ensures Spells(s, cp, [w])
  {}

  lemma {:induction false} SpellsWhatItReads(s: string, cp: nat)
    requires cp <= |s|
    ensures Spells(s, cp, Records(s, cp))
    decreases |s| - cp
  {
    hide EndOf, Records;
    var k := EndOf(s, cp);
    FirstReads(s, cp);
    if cp < k {
      hide Spells;
      if k == |s| {
        SpellsLast(s, cp, s[cp..k]);
      } else {
        SpellsWhatItReads(s, k + 1);
        SpellsCons(s, cp, s[cp..k], Records(s, k + 1));
      }
    }
  }

  /** A message is split into exactly the records it spells. */
  lemma RecordsIff(s: string, records: seq<string>)
    ensures Records(s, 0) == records <==> Spells(s, 0, records)
  {
    hide Records, Spells;
    SpellsWhatItReads(s, 0);
    if Spells(s, 0, records) {
      ReadsWhatItSpells(s, 0, records);
    }
  }

  /** The two kinds of records that matter, letter by letter. */
  lemma RecordIs(w: string)
    ensures PartnerAdded(w) <==>
              exists middle :: w == "add" + middle + "-partner" && '\n' !in middle && '\r' !in middle
    ensures IsTypeC(w) <==> exists rest :: w == "DEVTYPE=typec_" + rest
  {
    if PartnerAdded(w) {
      assert w == "add" + w[3..|w| - 8] + "-partner";
    }
    if middle :| w == "add" + middle + "-partner" && '\n' !in middle && '\r' !in middle {
      assert w[3..|w| - 8] == middle && w[..3] == "add" && w[|w| - 8..] == "-partner";
    }
    if IsTypeC(w) {
      assert w == "DEVTYPE=typec_" + w[14..];
    }
  }

  lemma OneRecord(w: string)
    ensures ActionsOf([w]) == if PartnerAdded(w) then [PartnerUp] else if IsTypeC(w) then [QueryPorts] else []
  {
    hide PartnerAdded, IsTypeC;
    assert [w][1..] == [] && [PartnerUp] + [] == [PartnerUp];
  }

  /** One action for a record that calls for one, and those of the records after it unless it was
      a Type-C record. */
  lemma {:induction false} ActionsTogether(a: seq<string>, b: seq<string>, w: string)
    requires forall r :: r in a ==> !IsTypeC(r)
    ensures ActionsOf(a + b) == ActionsOf(a) + ActionsOf(b)
    ensures ActionsOf([w]) == if PartnerAdded(w) then [PartnerUp] else if IsTypeC(w) then [QueryPorts] else []
    ensures ActionsOf([]) == []
    decreases |a|
  {
    hide PartnerAdded, IsTypeC;
    OneRecord(w);
    if a == [] {
      assert a + b == b && [] + ActionsOf(b) == ActionsOf(b);
    } else {
      ActionsTogether(a[1..], b, w);
      assert (a + b)[0] == a[0] && (a + b)[1..] == a[1..] + b;
      assert !IsTypeC(a[0]);
      var rest, more := ActionsOf(a[1..]), ActionsOf(b);
      assert [PartnerUp] + (rest + more) == ([PartnerUp] + rest) + more;
    }
  }

  /** Some record satisfies the first test before any satisfies the second. */
  ghost predicate NotedAt(records: seq<string>, k: nat) {
    k < |records| && PartnerAdded(records[k]) && forall j :: 0 <= j < k ==> !IsTypeC(records[j])
  }

  /** A message notes a partner if and only if a record before the first Type-C one says so. */
  lemma {:induction false} PartnerNotedIff(records: seq<string>)
    ensures PartnerUp in ActionsOf(records) <==> exists k: nat :: NotedAt(records, k)
  {
    if records != [] {
      var rest := records[1..];
      PartnerNotedIff(rest);
      if PartnerAdded(records[0]) {
        assert NotedAt(records, 0);
      } else if !IsTypeC(records[0]) {
        if k: nat :| NotedAt(rest, k) {
          assert NotedAt(records, k + 1);
        }
        if k: nat :| NotedAt(records, k) {
          assert forall j :: 0 <= j < k - 1 ==> rest[j] == records[j + 1];
          assert NotedAt(rest, k - 1);
        }
      }
    }
  }

  /** It has the ports queried if and only if it holds a Type-C record, and that is the last it does. */
  lemma {:induction false} PortsQueriedIff(records: seq<string>)
    ensures QueryPorts in ActionsOf(records) <==> exists r :: r in records && IsTypeC(r)
    ensures var a := ActionsOf(records); forall k :: 0 <= k < |a| - 1 ==> a[k] == PartnerUp
  {
    if records != [] {
      PortsQueriedIff(records[1..]);
      assert records == [records[0]] + records[1..];
      if PartnerAdded(records[0]) {
        assert records[0][0] == records[0][..3][0] == 'a';
      }
    }
  }
}
