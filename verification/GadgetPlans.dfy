/** Which links a request for given functions needs, by name: what the numbered links and the
    watched endpoints of the gadget service stand for. */
module GadgetPlans {
  import opened Gadget

  predicate Has(plan: seq<Link>, name: string) {
    exists i :: 0 <= i < |plan| && plan[i].name == name
  }

  /** When a link is needed. */
  predicate Needed(name: string, f: Functions, vendor: seq<string>) {
    || (name == "ffs.mtp" && f.mtp)
    || (name == "ffs.ptp" && f.ptp && !f.mtp)
    || (name == "midi.gs5" && f.midi)
    || (name == "accessory.gs2" && f.accessory)
    || (name == "audio_source.gs3" && f.audioSource)
    || (name == "gsi.rndis" && f.rndis)
    || (name == "diag.diag" && "diag" in vendor)
    || (name == "cser.dun.0" && "serial_cdev" in vendor)
    || (name == "gsi.rmnet" && "rmnet_gsi" in vendor)
    || (name == "ffs.adb" && f.adb)
  }

  /** The endpoints that come with a link. */
  function EndpointsOf(name: string): seq<string> {
    if name == "ffs.mtp" then
      ["/dev/usb-ffs/mtp/ep1", "/dev/usb-ffs/mtp/ep2", "/dev/usb-ffs/mtp/ep3"]
    else if name == "ffs.ptp" then
      ["/dev/usb-ffs/ptp/ep1", "/dev/usb-ffs/ptp/ep2", "/dev/usb-ffs/ptp/ep3"]
    else if name == "ffs.adb" then ["/dev/usb-ffs/adb/ep1", "/dev/usb-ffs/adb/ep2"]
    else []
  }

  /** Where a link stands: the vendor's own come between the standard ones and adb. */
  function Rank(name: string): nat {
    if name == "ffs.mtp" || name == "ffs.ptp" then 0
    else if name == "midi.gs5" then 1
    else if name == "accessory.gs2" then 2
    else if name == "audio_source.gs3" then 3
    else if name == "gsi.rndis" then 4
    else if name == "diag.diag" || name == "cser.dun.0" || name == "gsi.rmnet" then 5
    else 6
  }

  /** Links with ranks from `lo` up to but not including `hi`, in order, only the vendor's sharing one. */
  predicate Ordered(plan: seq<Link>, lo: nat, hi: nat) {
    && (forall i :: 0 <= i < |plan| ==> lo <= Rank(plan[i].name) < hi && plan[i].endpoints == EndpointsOf(plan[i].name))
    && (forall i, j :: 0 <= i < j < |plan| ==>
          Rank(plan[i].name) < Rank(plan[j].name) || Rank(plan[i].name) == Rank(plan[j].name) == 5)
  }

  lemma OrderedTogether(a: seq<Link>, b: seq<Link>, lo: nat, mid: nat, hi: nat)
    requires lo <= mid <= hi && Ordered(a, lo, mid) && Ordered(b, mid, hi)
    ensures Ordered(a + b, lo, hi)
  {
    hide Rank, EndpointsOf;
  }

  lemma HasTogether(a: seq<Link>, b: seq<Link>, name: string)
    ensures Has(a + b, name) <==> Has(a, name) || Has(b, name)
  {
    if i :| 0 <= i < |a| && a[i].name == name {
      assert (a + b)[i].name == name;
    }
    if i :| 0 <= i < |b| && b[i].name == name {
      assert (a + b)[|a| + i].name == name;
    }
    if i :| 0 <= i < |a + b| && (a + b)[i].name == name {
      assert i < |a| || b[i - |a|].name == name;
    }
  }

  /** A link that a bit decides on. */
  lemma OneLink(wanted: bool, link: Link, part: seq<Link>, rank: nat)
    requires part == if wanted then [link] else []
    requires Rank(link.name) == rank && link.endpoints == EndpointsOf(link.name)
    ensures Ordered(part, rank, rank + 1)
    ensures forall name :: Has(part, name) <==> wanted && name == link.name
  {
    if wanted {
      assert part[0].name == link.name;
    }
  }

  lemma {:induction false} VendorLinksNeeded(tokens: seq<string>)
    ensures Ordered(VendorLinks(tokens), 5, 6)
    ensures forall name :: Has(VendorLinks(tokens), name) <==>
              || (name == "diag.diag" && "diag" in tokens)
              || (name == "cser.dun.0" && "serial_cdev" in tokens)
              || (name == "gsi.rmnet" && "rmnet_gsi" in tokens)
  {
    if tokens != [] {
      hide Ordered, Has;
      var rest := VendorLinks(tokens[1..]);
      VendorLinksNeeded(tokens[1..]);
      FirstVendorLink(tokens[0], rest, VendorLinks(tokens));
      assert tokens == [tokens[0]] + tokens[1..];
    }
  }

  lemma VendorRanks()
    ensures Rank("diag.diag") == Rank("cser.dun.0") == Rank("gsi.rmnet") == 5
    ensures EndpointsOf("diag.diag") == EndpointsOf("cser.dun.0") == EndpointsOf("gsi.rmnet") == []
  {}

  lemma StandardRanks()
    ensures Rank("ffs.mtp") == Rank("ffs.ptp") == 0 && Rank("midi.gs5") == 1 && Rank("accessory.gs2") == 2
    ensures Rank("audio_source.gs3") == 3 && Rank("gsi.rndis") == 4 && Rank("ffs.adb") == 6
    ensures EndpointsOf("midi.gs5") == EndpointsOf("accessory.gs2") == EndpointsOf("audio_source.gs3")
         == EndpointsOf("gsi.rndis") == []
    ensures EndpointsOf("ffs.mtp") == MTP_LINK.endpoints
    ensures EndpointsOf("ffs.ptp") == PTP_LINK.endpoints
    ensures EndpointsOf("ffs.adb") == ADB_LINK.endpoints
  {}

  lemma VendorJoined(a: seq<Link>, b: seq<Link>)
    requires Ordered(a, 5, 6) && Ordered(b, 5, 6)
    ensures Ordered(a + b, 5, 6)
    ensures forall name :: Has(a + b, name) <==> Has(a, name) || Has(b, name)
  {
    forall name
      ensures Has(a + b, name) <==> Has(a, name) || Has(b, name)
    {
      HasTogether(a, b, name);
    }
    hide Rank, EndpointsOf, Has;
  }

  lemma FirstVendorLink(token: string, rest: seq<Link>, all: seq<Link>)
    requires Ordered(rest, 5, 6)
    requires all == (if token == "diag" then [Link("diag.diag", [])]
                     else if token == "serial_cdev" then [Link("cser.dun.0", [])]
                     else if token == "rmnet_gsi" then [Link("gsi.rmnet", [])] else []) + rest
    ensures Ordered(all, 5, 6)
    ensures forall name :: Has(all, name) <==>
              || Has(rest, name) || (name == "diag.diag" && token == "diag")
              || (name == "cser.dun.0" && token == "serial_cdev")
              || (name == "gsi.rmnet" && token == "rmnet_gsi")
  {
    hide Rank, EndpointsOf, Has, Ordered;
    VendorRanks();
    if token == "diag" {
      OneLink(true, Link("diag.diag", []), [Link("diag.diag", [])], 5);
      VendorJoined([Link("diag.diag", [])], rest);
    } else if token == "serial_cdev" {
      OneLink(true, Link("cser.dun.0", []), [Link("cser.dun.0", [])], 5);
      VendorJoined([Link("cser.dun.0", [])], rest);
    } else if token == "rmnet_gsi" {
      OneLink(true, Link("gsi.rmnet", []), [Link("gsi.rmnet", [])], 5);
      VendorJoined([Link("gsi.rmnet", [])], rest);
    } else {
      assert all == rest;
    }
  }

  /** The vendor's links follow the order of its tokens. */
  lemma {:induction false} VendorLinksInOrder(a: seq<string>, b: seq<string>)
    ensures VendorLinks(a + b) == VendorLinks(a) + VendorLinks(b)
    ensures VendorLinks(["diag"]) == [Link("diag.diag", [])]
    ensures VendorLinks(["serial_cdev"]) == [Link("cser.dun.0", [])]
    ensures VendorLinks(["rmnet_gsi"]) == [Link("gsi.rmnet", [])]
    decreases |a|
  {
    if a == [] {
      assert a + b == b;
    } else {
      assert (a + b)[1..] == a[1..] + b;
      VendorLinksInOrder(a[1..], b);
    }
  }

  lemma Joined(a: seq<Link>, b: seq<Link>, mid: nat, hi: nat)
    requires mid <= hi && Ordered(a, 0, mid) && Ordered(b, mid, hi)
    ensures Ordered(a + b, 0, hi)
    ensures forall name :: Has(a + b, name) <==> Has(a, name) || Has(b, name)
  {
    OrderedTogether(a, b, 0, mid, hi);
    forall name
      ensures Has(a + b, name) <==> Has(a, name) || Has(b, name)
    {
      HasTogether(a, b, name);
    }
  }

  const MTP_LINK := Link("ffs.mtp", ["/dev/usb-ffs/mtp/ep1", "/dev/usb-ffs/mtp/ep2", "/dev/usb-ffs/mtp/ep3"])
  const PTP_LINK := Link("ffs.ptp", ["/dev/usb-ffs/ptp/ep1", "/dev/usb-ffs/ptp/ep2", "/dev/usb-ffs/ptp/ep3"])
  const ADB_LINK := Link("ffs.adb", ["/dev/usb-ffs/adb/ep1", "/dev/usb-ffs/adb/ep2"])

  /** The plan holds exactly the links needed, with their endpoints, in the fixed order. */
  lemma PlanIsNeeded(f: Functions, vendor: seq<string>)
    ensures var plan := PlanOf(f, vendor);
            && (forall name :: Has(plan, name) <==> Needed(name, f, vendor))
            && Ordered(plan, 0, 7)
  {
    hide Ordered, Has, VendorLinks, Rank, EndpointsOf;
    StandardRanks();
    var p0 := if f.mtp then [MTP_LINK] else if f.ptp then [PTP_LINK] else [];
    if f.mtp {
      OneLink(true, MTP_LINK, p0, 0);
    } else {
      OneLink(f.ptp, PTP_LINK, p0, 0);
    }
    var p1 := if f.midi then [Link("midi.gs5", [])] else [];
    OneLink(f.midi, Link("midi.gs5", []), p1, 1);
    Joined(p0, p1, 1, 2);
    var p2 := if f.accessory then [Link("accessory.gs2", [])] else [];
    OneLink(f.accessory, Link("accessory.gs2", []), p2, 2);
    Joined(p0 + p1, p2, 2, 3);
    var p3 := if f.audioSource then [Link("audio_source.gs3", [])] else [];
    OneLink(f.audioSource, Link("audio_source.gs3", []), p3, 3);
    Joined(p0 + p1 + p2, p3, 3, 4);
    var p4 := if f.rndis then [Link("gsi.rndis", [])] else [];
    OneLink(f.rndis, Link("gsi.rndis", []), p4, 4);
    Joined(p0 + p1 + p2 + p3, p4, 4, 5);
    VendorLinksNeeded(vendor);
    Joined(p0 + p1 + p2 + p3 + p4, VendorLinks(vendor), 5, 6);
    var p6 := if f.adb then [ADB_LINK] else [];
    OneLink(f.adb, ADB_LINK, p6, 6);
    Joined(p0 + p1 + p2 + p3 + p4 + VendorLinks(vendor), p6, 6, 7);
  }

  /** Of two plans one after the other, the endpoints of the first come first. */
  lemma {:induction false} EndpointsTogether(a: seq<Link>, b: seq<Link>, k: nat)
    requires k <= |b|
    ensures Endpoints(a + b, |a| + k) == Endpoints(a, |a|) + Endpoints(b, k)
  {
    if k == 0 {
      EndpointsOfPrefix(a, b, |a|);
    } else {
      EndpointsTogether(a, b, k - 1);
      assert (a + b)[|a| + k - 1] == b[k - 1];
      var x, y, z := Endpoints(a, |a|), Endpoints(b, k - 1), b[k - 1].endpoints;
      assert Endpoints(a + b, |a| + k) == (x + y) + z;
      assert (x + y) + z == x + (y + z);
    }
  }

  lemma {:induction false} EndpointsOfPrefix(a: seq<Link>, b: seq<Link>, k: nat)
    requires k <= |a|
    ensures Endpoints(a + b, k) == Endpoints(a, k)
  {
    if k > 0 {
      EndpointsOfPrefix(a, b, k - 1);
    }
  }

  /** The links of a plan are numbered from 0. */
  lemma {:induction false} NamesAt(plan: seq<Link>, k: nat, i: nat)
    requires k <= |plan|
    ensures i in Names(plan, k) <==> i < k
    ensures i < k ==> Names(plan, k)[i] == plan[i].name
  {
    if k > 0 {
      NamesAt(plan, k - 1, i);
    }
  }
}
