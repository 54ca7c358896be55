/**
 The VFIO manager over an abstract sysfs: which driver holds each PCI device,
 which IOMMU group each device belongs to, and which /dev/vfio nodes exist.
 A read or write of sysfs fails when the fault given for it says so.
 */
module Vfio {
  import opened Outcomes
  import opened Text
  import opened Chains
  import Paths

  const VFIO_PCI: Name := "vfio-pci"

  /** filepath.Base of a link never is the empty string. */
  type Name = s: string | s != "" witness "."

  /** Devices without an entry have no driver. */
  type Drivers = map<string, Name>

  datatype Write = Unbind(driver: string, device: string) | NewId(device: string) | Bind(device: string)

  /**
   What can go wrong for one device in BindDevices.  Writing a device ID to
   new_id makes the kernel offer every driverless device with that ID to
   vfio-pci; `taken` holds the devices it asks about.
   */
  datatype BindFault = BindFault(readFails: bool, unbindFails: bool, idFails: bool, taken: set<string>,
                                 bindFails: bool, rereadFails: bool)

  datatype UnbindFault = UnbindFault(readFails: bool, writeFails: bool)

  datatype Attempt = Attempt(drivers: Drivers, writes: seq<Write>, ok: bool)

  datatype Bound = Bound(drivers: Drivers, writes: seq<Write>, failedAt: Option<nat>)

  /** getCurrentDriver: a device without a driver and a failed read look alike to the caller that ignores the error. */
  function Seen(d: Drivers, device: string, fails: bool): string {
    if fails || device !in d then "" else d[device]
  }

  predicate OnVfio(d: Drivers, device: string) {
    device in d && d[device] == VFIO_PCI
  }

  predicate AllOnVfio(d: Drivers, devices: seq<string>) {
    forall i :: 0 <= i < |devices| ==> OnVfio(d, devices[i])
  }

  /** new_id: only devices without a driver are taken. */
  function Registered(d: Drivers, taken: set<string>): Drivers {
    (map x | x in taken :: VFIO_PCI) + d
  }

  function BindOne(d: Drivers, device: string, f: BindFault): Attempt {
    var current := Seen(d, device, f.readFails);
    var unbind := if current == "" then [] else [Unbind(current, device)];
    if current == VFIO_PCI then Attempt(d, [], true)
    else if current != "" && f.unbindFails then Attempt(d, unbind, false)
    else
      var released := if current == "" then d else d - {device};
      if f.idFails then Attempt(released, unbind, false)
      else
        var offered := Registered(released, f.taken);
        var writes := unbind + [NewId(device), Bind(device)];
        if !f.bindFails && device !in offered then Attempt(offered[device := VFIO_PCI], writes, true)
        else Attempt(offered, writes, Seen(offered, device, f.rereadFails) == VFIO_PCI)
  }

  function BindAll(d: Drivers, devices: seq<string>, faults: seq<BindFault>): Bound
    requires |faults| == |devices|
    decreases |devices|
  {
    if devices == [] then Bound(d, [], None)
    else
      var first := BindOne(d, devices[0], faults[0]);
      if !first.ok then Bound(first.drivers, first.writes, Some(0))
      else
        var rest := BindAll(first.drivers, devices[1..], faults[1..]);
        Bound(rest.drivers, first.writes + rest.writes,
              if rest.failedAt.None? then None else Some(rest.failedAt.value + 1))
  }

  function UnbindOne(d: Drivers, device: string, f: UnbindFault): Drivers {
    if Seen(d, device, f.readFails) == VFIO_PCI && !f.writeFails then d - {device} else d
  }

  function UnbindAll(d: Drivers, devices: seq<string>, faults: seq<UnbindFault>): Drivers
    requires |faults| == |devices|
    decreases |devices|
  {
    if devices == [] then d else UnbindAll(UnbindOne(d, devices[0], faults[0]), devices[1..], faults[1..])
  }

  /** What one device's turn can do to the others. */
  lemma {:induction false} BindOneEffect(d: Drivers, device: string, f: BindFault, x: string)
    ensures var r := BindOne(d, device, f);
            && (r.ok ==> OnVfio(r.drivers, device))
            && (OnVfio(d, x) ==> OnVfio(r.drivers, x))
            && (x in d && x != device ==> x in r.drivers && r.drivers[x] == d[x])
            && (x in r.drivers && x !in d ==> OnVfio(r.drivers, x))
  {
  }

  /** How many devices BindDevices finished, and how many it began. */
  function Finished(r: Bound, devices: seq<string>): (n: nat) {
    if r.failedAt.None? then |devices| else r.failedAt.value
  }

  function Begun(r: Bound, devices: seq<string>): (n: nat) {
    if r.failedAt.None? then |devices| else r.failedAt.value + 1
  }

  lemma {:induction false} FailsInside(d: Drivers, devices: seq<string>, faults: seq<BindFault>)
    requires |faults| == |devices|
    ensures Begun(BindAll(d, devices, faults), devices) <= |devices|
    decreases |devices|
  {
    hide BindOne;
    if devices != [] {
      FailsInside(BindOne(d, devices[0], faults[0]).drivers, devices[1..], faults[1..]);
    }
  }

  /** Whatever fails, a device on vfio-pci stays there, and a device that gains a driver gains vfio-pci. */
  lemma {:induction false} BindAllOnlyBinds(d: Drivers, devices: seq<string>, faults: seq<BindFault>, x: string)
    requires |faults| == |devices|
    ensures OnVfio(d, x) ==> OnVfio(BindAll(d, devices, faults).drivers, x)
    ensures x in BindAll(d, devices, faults).drivers && x !in d ==> OnVfio(BindAll(d, devices, faults).drivers, x)
    decreases |devices|
  {
    if devices != [] {
      hide BindOne;
      var first := BindOne(d, devices[0], faults[0]);
      BindOneEffect(d, devices[0], faults[0], x);
      if first.ok {
        BindAllOnlyBinds(first.drivers, devices[1..], faults[1..], x);
      }
    }
  }

  /** A device whose turn did not begin keeps the driver it has. */
  lemma {:induction false} UnreachedKeepsDriver(d: Drivers, devices: seq<string>, faults: seq<BindFault>, x: string)
    requires |faults| == |devices|
    requires x in d
    requires forall i :: 0 <= i < Begun(BindAll(d, devices, faults), devices) && i < |devices| ==> devices[i] != x
    ensures x in BindAll(d, devices, faults).drivers && BindAll(d, devices, faults).drivers[x] == d[x]
    decreases |devices|
  {
    if devices != [] {
      hide BindOne;
      var first := BindOne(d, devices[0], faults[0]);
      BindOneEffect(d, devices[0], faults[0], x);
      assert devices[0] != x;
      if first.ok {
        var rest := BindAll(first.drivers, devices[1..], faults[1..]);
        forall i | 0 <= i < Begun(rest, devices[1..]) && i < |devices[1..]| ensures devices[1..][i] != x {
          assert devices[i + 1] != x;
        }
        UnreachedKeepsDriver(first.drivers, devices[1..], faults[1..], x);
      }
    }
  }

  /** Success puts every listed device on vfio-pci; an error at index i leaves every device before it there. */
  lemma {:induction false} FinishedOnVfio(d: Drivers, devices: seq<string>, faults: seq<BindFault>, k: nat)
    requires |faults| == |devices|
    requires k < |devices| && k < Finished(BindAll(d, devices, faults), devices)
    ensures OnVfio(BindAll(d, devices, faults).drivers, devices[k])
    decreases |devices|
  {
    hide BindOne;
    var first := BindOne(d, devices[0], faults[0]);
    BindOneEffect(d, devices[0], faults[0], devices[0]);
    if k == 0 {
      BindAllOnlyBinds(first.drivers, devices[1..], faults[1..], devices[0]);
    } else {
      FinishedOnVfio(first.drivers, devices[1..], faults[1..], k - 1);
    }
  }

  lemma {:induction false} BoundOnSuccess(d: Drivers, devices: seq<string>, faults: seq<BindFault>)
    requires |faults| == |devices|
    requires BindAll(d, devices, faults).failedAt.None?
    ensures AllOnVfio(BindAll(d, devices, faults).drivers, devices)
  {
    forall k | 0 <= k < |devices| ensures OnVfio(BindAll(d, devices, faults).drivers, devices[k]) {
      FinishedOnVfio(d, devices, faults, k);
    }
  }

  /** Once reads work, a call writes nothing exactly when every listed device already is on vfio-pci. */
  lemma {:induction false} BindWritesNothingIff(d: Drivers, devices: seq<string>, faults: seq<BindFault>)
    requires |faults| == |devices|
    requires forall f :: f in faults ==> !f.readFails && !f.idFails
    ensures BindAll(d, devices, faults).writes == [] <==> AllOnVfio(d, devices)
    ensures AllOnVfio(d, devices) ==> BindAll(d, devices, faults) == Bound(d, [], None)
    decreases |devices|
  {
    if devices != [] {
      var first := BindOne(d, devices[0], faults[0]);
      assert faults[0] in faults;
      if OnVfio(d, devices[0]) {
        assert first == Attempt(d, [], true);
        BindWritesNothingIff(d, devices[1..], faults[1..]);
        assert AllOnVfio(d, devices) <==> AllOnVfio(d, devices[1..]) by {
          assert forall i :: 1 <= i < |devices| ==> devices[i] == devices[1..][i - 1];
        }
      } else {
        assert first.writes != [];
      }
    }
  }

  /** A second call after a successful one is free of writes. */
  lemma {:induction false} SecondBindIsSilent(d: Drivers, devices: seq<string>, faults: seq<BindFault>,
                                              again: seq<BindFault>)
    requires |faults| == |devices| && |again| == |devices|
    requires BindAll(d, devices, faults).failedAt.None?
    requires forall f :: f in again ==> !f.readFails && !f.idFails
    ensures BindAll(BindAll(d, devices, faults).drivers, devices, again)
         == Bound(BindAll(d, devices, faults).drivers, [], None)
  {
    BoundOnSuccess(d, devices, faults);
    BindWritesNothingIff(BindAll(d, devices, faults).drivers, devices, again);
  }

  predicate Quiet(f: BindFault) {
    !f.readFails && !f.unbindFails && !f.idFails && !f.bindFails && !f.rereadFails
  }

  /** With nothing failing, repeated devices and devices captured through new_id included, binding succeeds. */
  lemma {:induction false} QuietBindSucceeds(d: Drivers, devices: seq<string>, faults: seq<BindFault>)
    requires |faults| == |devices|
    requires forall f :: f in faults ==> Quiet(f)
    ensures BindAll(d, devices, faults).failedAt.None?
    decreases |devices|
  {
    if devices != [] {
      assert faults[0] in faults;
      QuietBindSucceeds(BindOne(d, devices[0], faults[0]).drivers, devices[1..], faults[1..]);
    }
  }

  /** The device is on vfio-pci and one of its turns in UnbindDevices has no failure. */
  predicate Releases(device: string, devices: seq<string>, faults: seq<UnbindFault>)
    requires |faults| == |devices|
  {
    exists i :: 0 <= i < |devices| && devices[i] == device && !faults[i].readFails && !faults[i].writeFails
  }

  /** UnbindDevices takes away exactly the vfio-pci bindings it could read and write, and touches no other driver. */
  lemma {:induction false} UnbindAllExact(d: Drivers, devices: seq<string>, faults: seq<UnbindFault>, x: string)
    requires |faults| == |devices|
    ensures var r := UnbindAll(d, devices, faults);
            && (x in r <==> x in d && !(OnVfio(d, x) && Releases(x, devices, faults)))
            && (x in r ==> r[x] == d[x])
    decreases |devices|
  {
    if devices == [] {
    } else {
      var next := UnbindOne(d, devices[0], faults[0]);
      UnbindAllExact(next, devices[1..], faults[1..], x);
      var now := devices[0] == x && !faults[0].readFails && !faults[0].writeFails;
      assert Releases(x, devices, faults) <==> now || Releases(x, devices[1..], faults[1..]) by {
        if Releases(x, devices[1..], faults[1..]) {
          var i :| 0 <= i < |devices[1..]| && devices[1..][i] == x
                   && !faults[1..][i].readFails && !faults[1..][i].writeFails;
          assert devices[i + 1] == x && faults[i + 1] == faults[1..][i];
        }
        if Releases(x, devices, faults) && !now {
          var i :| 0 <= i < |devices| && devices[i] == x && !faults[i].readFails && !faults[i].writeFails;
          assert devices[1..][i - 1] == x && faults[1..][i - 1] == faults[i];
        }
      }
    }
  }

  predicate QuietUnbinds(faults: seq<UnbindFault>) {
    forall i :: 0 <= i < |faults| ==> !faults[i].readFails && !faults[i].writeFails
  }

  lemma {:induction false} QuietUnbindFrees(d: Drivers, devices: seq<string>, faults: seq<UnbindFault>, x: string)
    requires |faults| == |devices|
    requires QuietUnbinds(faults)
    ensures x in devices ==> !OnVfio(UnbindAll(d, devices, faults), x)
    ensures x in devices && OnVfio(d, x) ==> x !in UnbindAll(d, devices, faults)
    ensures !OnVfio(d, x) ==> Seen(UnbindAll(d, devices, faults), x, false) == Seen(d, x, false)
  {
    UnbindAllExact(d, devices, faults, x);
    if x in devices {
      var i :| 0 <= i < |devices| && devices[i] == x;
      assert Releases(x, devices, faults);
    }
  }

  /** The devices new_id offers to vfio-pci while BindDevices works through its list. */
  function Offered(d: Drivers, devices: seq<string>, faults: seq<BindFault>): set<string>
    requires |faults| == |devices|
    decreases |devices|
  {
    if devices == [] then {}
    else
      var first := BindOne(d, devices[0], faults[0]);
      (if NewId(devices[0]) in first.writes then faults[0].taken else {})
      + if first.ok then Offered(first.drivers, devices[1..], faults[1..]) else {}
  }

  /** A device's turn gives drivers to the offered driverless devices and, when it succeeds, to the device. */
  lemma {:induction false} BindOneGains(d: Drivers, device: string, f: BindFault, x: string)
    requires x != device
    ensures var r := BindOne(d, device, f);
            x in r.drivers <==> x in d || (NewId(device) in r.writes && x in f.taken)
  {
    var current := Seen(d, device, f.readFails);
    assert NewId(device) !in [Unbind(current, device)];
  }

  /** A device that is not listed has a driver afterwards exactly when it had one or was offered to vfio-pci. */
  lemma {:induction false} UnlistedGainIff(d: Drivers, devices: seq<string>, faults: seq<BindFault>, x: string)
    requires |faults| == |devices| && x !in devices
    ensures x in BindAll(d, devices, faults).drivers <==> x in d || x in Offered(d, devices, faults)
    ensures x in d ==> BindAll(d, devices, faults).drivers[x] == d[x]
    decreases |devices|
  {
    if devices != [] {
      hide BindOne;
      var first := BindOne(d, devices[0], faults[0]);
      assert devices[0] in devices;
      BindOneGains(d, devices[0], faults[0], x);
      BindOneEffect(d, devices[0], faults[0], x);
      if first.ok {
        UnlistedGainIff(first.drivers, devices[1..], faults[1..], x);
      }
    }
  }

  /**
   Binding and unbinding with no failure leaves every listed device without a
   driver, and every other driverless device that new_id offered on vfio-pci.
   So all drivers are as before exactly when no listed device had one and only
   listed devices, or devices with a driver, were offered.
   */
  lemma {:induction false} DriversRestoredIff(d: Drivers, devices: seq<string>, faults: seq<BindFault>,
                                              unbinds: seq<UnbindFault>)
    requires |faults| == |devices| && |unbinds| == |devices|
    requires BindAll(d, devices, faults).failedAt.None?
    requires QuietUnbinds(unbinds)
    ensures var after := UnbindAll(BindAll(d, devices, faults).drivers, devices, unbinds);
            && (forall x :: x in devices ==> x !in after)
            && (forall x :: x in Offered(d, devices, faults) && x !in devices && x !in d ==> OnVfio(after, x))
            && (after == d <==>
                && (forall x :: x in devices ==> x !in d)
                && (forall x :: x in Offered(d, devices, faults) ==> x in devices || x in d))
  {
    hide BindAll, UnbindAll, Offered;
    var bound := BindAll(d, devices, faults).drivers;
    var after := UnbindAll(bound, devices, unbinds);
    BoundOnSuccess(d, devices, faults);
    forall x | x in devices ensures x !in after {
      var i :| 0 <= i < |devices| && devices[i] == x;
      assert OnVfio(bound, devices[i]);
      QuietUnbindFrees(bound, devices, unbinds, x);
    }
    forall x | x !in devices
      ensures x in after <==> x in d || x in Offered(d, devices, faults)
      ensures x in d ==> after[x] == d[x]
      ensures x in after && x !in d ==> OnVfio(after, x)
    {
      UnlistedGainIff(d, devices, faults, x);
      BindAllOnlyBinds(d, devices, faults, x);
      UnbindAllExact(bound, devices, unbinds, x);
      assert !Releases(x, devices, unbinds);
    }
  }

  /** IOMMU groups by device; a device without an entry has no group link. */
  type Groups = map<string, Name>

  datatype IOMMUGroup = IOMMUGroup(id: string, devices: seq<string>)

  predicate Grouped(groups: Groups, device: string, linkFails: bool) {
    !linkFails && device in groups
  }

  datatype LookupError = Unreadable(device: string) | NoGroup(device: string) | NoNode(path: string)

  function GroupError(groups: Groups, device: string, linkFails: bool): LookupError
    requires !Grouped(groups, device, linkFails)
  {
    if device in groups then Unreadable(device) else NoGroup(device)
  }

  function InGroup(groups: Groups, id: string): string -> bool {
    device => device in groups && groups[device] == id
  }

  /** Groups with distinct IDs, each holding the listed devices of its ID in the order listed, and missing none. */
  predicate IsGrouping(groups: Groups, devices: seq<string>, result: seq<IOMMUGroup>) {
    && (forall i, j :: 0 <= i < j < |result| ==> result[i].id != result[j].id)
    && (forall i :: 0 <= i < |result| ==>
          result[i].devices == Filter(InGroup(groups, result[i].id), devices) && result[i].devices != [])
    && (forall k :: 0 <= k < |devices| ==> devices[k] in groups && HasId(result, groups[devices[k]]))
  }

  predicate HasId(result: seq<IOMMUGroup>, id: string) {
    exists i :: 0 <= i < |result| && result[i].id == id
  }

  function AllDevices(result: seq<IOMMUGroup>): multiset<string> {
    if result == [] then multiset{} else multiset(result[0].devices) + AllDevices(result[1..])
  }

  lemma {:induction false} DeviceCount(groups: Groups, devices: seq<string>, result: seq<IOMMUGroup>, x: string)
    requires forall i, j :: 0 <= i < j < |result| ==> result[i].id != result[j].id
    requires forall i :: 0 <= i < |result| ==> result[i].devices == Filter(InGroup(groups, result[i].id), devices)
    ensures AllDevices(result)[x]
         == if x in groups && HasId(result, groups[x]) then multiset(devices)[x] else 0
  {
    if result != [] {
      DeviceCount(groups, devices, result[1..], x);
      FilterMultiset(InGroup(groups, result[0].id), devices, x);
      if x in groups {
        if HasId(result[1..], groups[x]) {
          var i :| 0 <= i < |result[1..]| && result[1..][i].id == groups[x];
          assert result[i + 1].id == groups[x];
        }
        if HasId(result, groups[x]) && result[0].id != groups[x] {
          var i :| 0 <= i < |result| && result[i].id == groups[x];
          assert result[1..][i - 1].id == groups[x];
        }
      }
    }
  }

  /** A grouping is a partition: every listed device, as often as it is listed, in one group and no other. */
  lemma {:induction false} GroupingPartitions(groups: Groups, devices: seq<string>, result: seq<IOMMUGroup>)
    requires IsGrouping(groups, devices, result)
    ensures AllDevices(result) == multiset(devices)
  {
    forall x ensures AllDevices(result)[x] == multiset(devices)[x] {
      DeviceCount(groups, devices, result, x);
      if x in multiset(devices) {
        assert x in devices;
        var k :| 0 <= k < |devices| && devices[k] == x;
      }
    }
  }

  predicate Distinct<T(==)>(s: seq<T>) {
    forall i, j :: 0 <= i < j < |s| ==> s[i] != s[j]
  }

  lemma {:induction false} DistinctCount<T>(s: seq<T>, x: T)
    requires Distinct(s)
    ensures multiset(s)[x] == if x in s then 1 else 0
  {
    if s != [] {
      DistinctCount(s[1..], x);
      assert s == [s[0]] + s[1..];
    }
  }

  lemma {:induction false} SameMembersSameBag<T>(s: seq<T>, t: seq<T>)
    requires Distinct(s) && Distinct(t)
    requires forall x :: x in s <==> x in t
    ensures multiset(s) == multiset(t)
  {
    forall x ensures multiset(s)[x] == multiset(t)[x] {
      DistinctCount(s, x);
      DistinctCount(t, x);
    }
  }

  /** A group of a grouping has a listed device, and that device has the group's ID. */
  lemma {:induction false} GroupHasDevice(groups: Groups, devices: seq<string>, result: seq<IOMMUGroup>, i: nat)
    returns (k: nat)
    requires IsGrouping(groups, devices, result) && i < |result|
    ensures k < |devices| && devices[k] in groups && groups[devices[k]] == result[i].id
  {
    var x := result[i].devices[0];
    assert x in Filter(InGroup(groups, result[i].id), devices);
    assert x in devices;
    k :| 0 <= k < |devices| && devices[k] == x;
  }

  lemma {:induction false} GroupingCovers(groups: Groups, devices: seq<string>, a: seq<IOMMUGroup>,
                                          b: seq<IOMMUGroup>, g: IOMMUGroup)
    requires IsGrouping(groups, devices, a) && IsGrouping(groups, devices, b)
    requires g in a
    ensures g in b
  {
    var i :| 0 <= i < |a| && a[i] == g;
    var k := GroupHasDevice(groups, devices, a, i);
    assert HasId(b, g.id);
    var j :| 0 <= j < |b| && b[j].id == g.id;
    assert b[j].devices == g.devices;
  }

  /** The grouping is unique up to the order in which the map of groups is walked. */
  lemma {:induction false} GroupingUnique(groups: Groups, devices: seq<string>, a: seq<IOMMUGroup>, b: seq<IOMMUGroup>)
    requires IsGrouping(groups, devices, a) && IsGrouping(groups, devices, b)
    ensures multiset(a) == multiset(b)
  {
    forall g ensures g in a <==> g in b {
      if g in a { GroupingCovers(groups, devices, a, b, g); }
      if g in b { GroupingCovers(groups, devices, b, a, g); }
    }
    SameMembersSameBag(a, b);
  }

  /** filepath.Join("/dev/vfio", groupID). */
  function GroupPath(id: string): string {
    Paths.JoinTwo("/dev/vfio", id)
  }

  /** The kernel names IOMMU groups by plain path elements. */
  predicate PlainIds(groups: Groups) {
    forall x :: x in groups ==> Paths.Plain(groups[x])
  }

  lemma {:induction false} GroupPathPlain(id: string)
    requires Paths.Plain(id)
    ensures GroupPath(id) == "/dev/vfio/" + id
  {
    var dir := Paths.Cleaned(true, ["dev", "vfio"]);
    assert Join(["dev", "vfio"], "/") == "dev" + "/" + Join(["vfio"], "/");
    assert Paths.Written(dir) == "/dev/vfio";
    Paths.JoinPlain(dir, id);
  }

  lemma {:induction false} GroupPathInjective(a: string, b: string)
    requires Paths.Plain(a) && Paths.Plain(b)
    requires GroupPath(a) == GroupPath(b)
    ensures a == b
  {
    GroupPathPlain(a);
    GroupPathPlain(b);
    assert a == ("/dev/vfio/" + a)[10..] && b == ("/dev/vfio/" + b)[10..];
  }

  /** Each path once, and exactly the paths of the listed devices' groups. */
  predicate AreGroupPaths(groups: Groups, devices: seq<string>, paths: seq<string>) {
    && Distinct(paths)
    && (forall k :: 0 <= k < |devices| ==> devices[k] in groups && GroupPath(groups[devices[k]]) in paths)
    && (forall i :: 0 <= i < |paths| ==> FromDevice(groups, devices, paths[i]))
  }

  predicate FromDevice(groups: Groups, devices: seq<string>, path: string) {
    exists k :: 0 <= k < |devices| && devices[k] in groups && path == GroupPath(groups[devices[k]])
  }

  function PathsOf(result: seq<IOMMUGroup>): (paths: seq<string>)
    ensures |paths| == |result|
    ensures forall i :: 0 <= i < |paths| ==> paths[i] == GroupPath(result[i].id)
  {
    seq(|result|, i requires 0 <= i < |result| => GroupPath(result[i].id))
  }

  /** When both calls succeed, the paths are the groups' paths: one for each group, up to order. */
  lemma {:induction false} PathsMatchGroups(groups: Groups, devices: seq<string>, result: seq<IOMMUGroup>,
                                            paths: seq<string>)
    requires PlainIds(groups)
    requires IsGrouping(groups, devices, result) && AreGroupPaths(groups, devices, paths)
    ensures multiset(paths) == multiset(PathsOf(result))
  {
    hide GroupPath, Filter, InGroup, PathsOf, Paths.Plain;
    var named := PathsOf(result);
    forall i | 0 <= i < |result| ensures named[i] in paths && Paths.Plain(result[i].id) {
      var k := GroupHasDevice(groups, devices, result, i);
    }
    forall i, j | 0 <= i < j < |named| ensures named[i] != named[j] {
      if named[i] == named[j] {
        GroupPathInjective(result[i].id, result[j].id);
      }
    }
    forall i | 0 <= i < |paths| ensures paths[i] in named {
      NamedByGroup(groups, devices, result, paths[i]);
    }
    SameMembersSameBag(paths, named);
  }

  lemma {:induction false} NamedByGroup(groups: Groups, devices: seq<string>, result: seq<IOMMUGroup>, path: string)
    requires IsGrouping(groups, devices, result) && FromDevice(groups, devices, path)
    ensures path in PathsOf(result)
  {
    hide GroupPath, Filter, InGroup, PathsOf;
    var k :| 0 <= k < |devices| && devices[k] in groups && path == GroupPath(groups[devices[k]]);
    assert HasId(result, groups[devices[k]]);
    var j :| 0 <= j < |result| && result[j].id == groups[devices[k]];
    assert PathsOf(result)[j] == path;
  }

  /** The map of groups after some devices. */
  predicate Gathers(groups: Groups, devices: seq<string>, members: map<string, seq<string>>) {
    && (forall id :: id in members ==> members[id] == Filter(InGroup(groups, id), devices) && members[id] != [])
    && (forall k :: 0 <= k < |devices| ==> devices[k] in groups && groups[devices[k]] in members)
  }

  /** One more device: its own group grows by it, the others stay. */
  lemma {:induction false} GatherOne(groups: Groups, devices: seq<string>, device: string,
                                     members: map<string, seq<string>>)
    requires device in groups && Gathers(groups, devices, members)
    ensures var id := groups[device];
            Gathers(groups, devices + [device], members[id := (if id in members then members[id] else []) + [device]])
  {
    var own := groups[device];
    forall id
      ensures Filter(InGroup(groups, id), devices + [device])
           == Filter(InGroup(groups, id), devices) + if id == own then [device] else []
    {
      FilterConcat(InGroup(groups, id), devices, [device]);
    }
    if own !in members {
      FilterNone(InGroup(groups, own), devices);
    }
  }

  /** One device passed to the VM. */
  datatype DeviceConfig = DeviceConfig(path: string, id: string, iommu: bool, pciSegment: nat)

  function DeviceConfigs(paths: seq<string>): (configs: seq<DeviceConfig>)
    ensures |configs| == |paths|
    ensures forall i :: 0 <= i < |configs| ==> configs[i] == DeviceConfig(paths[i], "vfio-" + Itoa(i), true, 0)
  {
    seq(|paths|, i requires 0 <= i < |paths| => DeviceConfig(paths[i], "vfio-" + Itoa(i), true, 0))
  }

  lemma {:induction false} DeviceIdsDiffer(paths: seq<string>, i: nat, j: nat)
    requires i < j < |paths|
    ensures DeviceConfigs(paths)[i].id != DeviceConfigs(paths)[j].id
  {
    if DeviceConfigs(paths)[i].id == DeviceConfigs(paths)[j].id {
      assert Itoa(i) == ("vfio-" + Itoa(i))[5..] && Itoa(j) == ("vfio-" + Itoa(j))[5..];
      ItoaInjective(i, j);
    }
  }

  /**
   The outcomes of everything one addVFIODevices call asks of the system: the
   validation verdict, both rounds of group lookups, the group nodes found
   under /dev/vfio, and the faults of binding and unbinding.
   */
  datatype Passthrough = Passthrough(valid: bool, firstLinks: seq<bool>, binds: seq<BindFault>,
                                     secondLinks: seq<bool>, nodes: set<string>, unbinds: seq<UnbindFault>)

  predicate Covers(run: Passthrough, devices: seq<string>) {
    && |run.firstLinks| == |devices| && |run.binds| == |devices|
    && |run.secondLinks| == |devices| && |run.unbinds| == |devices|
  }

  predicate AllGrouped(groups: Groups, devices: seq<string>, linkFails: seq<bool>)
    requires |linkFails| == |devices|
  {
    forall i :: 0 <= i < |devices| ==> Grouped(groups, devices[i], linkFails[i])
  }

  /** The first device whose group cannot be told decides the error. */
  predicate FirstUngrouped(groups: Groups, devices: seq<string>, linkFails: seq<bool>, e: LookupError)
    requires |linkFails| == |devices|
  {
    exists i :: 0 <= i < |devices|
      && AllGrouped(groups, devices[..i], linkFails[..i])
      && !Grouped(groups, devices[i], linkFails[i]) && e == GroupError(groups, devices[i], linkFails[i])
  }

  /** The first device whose group cannot be told or has no node decides the error. */
  predicate FirstWithoutNode(groups: Groups, devices: seq<string>, linkFails: seq<bool>, nodes: set<string>,
      e: LookupError)
    requires |linkFails| == |devices|
  {
    exists i :: 0 <= i < |devices|
      && AllGrouped(groups, devices[..i], linkFails[..i]) && AllNodes(groups, devices[..i], nodes)
      && if !Grouped(groups, devices[i], linkFails[i]) then e == GroupError(groups, devices[i], linkFails[i])
         else GroupPath(groups[devices[i]]) !in nodes && e == NoNode(GroupPath(groups[devices[i]]))
  }

  predicate AllNodes(groups: Groups, devices: seq<string>, nodes: set<string>) {
    forall i :: 0 <= i < |devices| ==> devices[i] in groups ==> GroupPath(groups[devices[i]]) in nodes
  }

  datatype Stage = Empty | Rejected | BindFailed(at: nat) | PathsFailed | Added

  function AddStage(groups: Groups, d: Drivers, devices: seq<string>, run: Passthrough): Stage
    requires Covers(run, devices)
  {
    if devices == [] then Empty
    else if !run.valid || !AllGrouped(groups, devices, run.firstLinks) then Rejected
    else
      var bound := BindAll(d, devices, run.binds);
      if bound.failedAt.Some? then BindFailed(bound.failedAt.value)
      else if !AllGrouped(groups, devices, run.secondLinks) || !AllNodes(groups, devices, run.nodes) then PathsFailed
      else Added
  }

  function AddDrivers(groups: Groups, d: Drivers, devices: seq<string>, run: Passthrough): Drivers
    requires Covers(run, devices)
  {
    match AddStage(groups, d, devices, run)
    case Empty | Rejected => d
    case BindFailed(_) | Added => BindAll(d, devices, run.binds).drivers
    case PathsFailed => UnbindAll(BindAll(d, devices, run.binds).drivers, devices, run.unbinds)
  }

  function AddWrites(groups: Groups, d: Drivers, devices: seq<string>, run: Passthrough): seq<Write>
    requires Covers(run, devices)
  {
    match AddStage(groups, d, devices, run)
    case Empty | Rejected => []
    case _ => BindAll(d, devices, run.binds).writes
  }

  /**
   What addVFIODevices leaves behind.  On success all devices are on vfio-pci;
   when the group paths are missing and unbinding works, none is; but when
   binding itself fails at index i, the devices before i stay on vfio-pci.
   */
  lemma {:induction false} RollbackOnlyAfterBinding(groups: Groups, d: Drivers, devices: seq<string>, run: Passthrough)
    requires Covers(run, devices)
    ensures var after := AddDrivers(groups, d, devices, run);
            match AddStage(groups, d, devices, run)
            case Empty | Rejected => after == d
            case Added => AllOnVfio(after, devices)
            case PathsFailed => QuietUnbinds(run.unbinds) ==> forall x :: x in devices ==> x !in after
            case BindFailed(i) => i < |devices| && forall k :: 0 <= k < i ==> OnVfio(after, devices[k])
  {
    hide UnbindAll, BindAll, AllGrouped, AllNodes;
    var bound := BindAll(d, devices, run.binds);
    match AddStage(groups, d, devices, run) {
      case Empty | Rejected =>
      case Added => BoundOnSuccess(d, devices, run.binds);
      case BindFailed(i) =>
        FailsInside(d, devices, run.binds);
        forall k | 0 <= k < i ensures OnVfio(bound.drivers, devices[k]) {
          FinishedOnVfio(d, devices, run.binds, k);
        }
      case PathsFailed =>
        if QuietUnbinds(run.unbinds) {
          DriversRestoredIff(d, devices, run.binds, run.unbinds);
        }
    }
  }

  /** The manager, and the sysfs it works on; `log` holds the writes BindDevices asked for, failed ones included. */
  class VfioManager {
    const groups: Groups
    var drivers: Drivers
    var log: seq<Write>

    constructor (groups: Groups, drivers: Drivers)
      ensures this.groups == groups && this.drivers == drivers && log == []
    {
      this.groups := groups;
      this.drivers := drivers;
      log := [];
    }

    /** One device of BindDevices. */
    method BindDevice(device: string, f: BindFault) returns (ok: bool)
      modifies this
      ensures ok == BindOne(old(drivers), device, f).ok
      ensures drivers == BindOne(old(drivers), device, f).drivers
      ensures log == old(log) + BindOne(old(drivers), device, f).writes
    {
      var current := Seen(drivers, device, f.readFails);
      if current == VFIO_PCI {
        return true;
      }
      if current != "" {
        log := log + [Unbind(current, device)];
        if f.unbindFails {
          return false;
        }
        drivers := drivers - {device};
      }
      if f.idFails {
        return false;
      }
      log := log + [NewId(device)];
      drivers := Registered(drivers, f.taken);
      log := log + [Bind(device)];
      if !f.bindFails && device !in drivers {
        drivers := drivers[device := VFIO_PCI];
        return true;
      }
      ok := Seen(drivers, device, f.rereadFails) == VFIO_PCI;
    }

    method BindDevices(devices: seq<string>, faults: seq<BindFault>) returns (failedAt: Option<nat>)
      requires |faults| == |devices|
      modifies this
      ensures failedAt == BindAll(old(drivers), devices, faults).failedAt
      ensures drivers == BindAll(old(drivers), devices, faults).drivers
      ensures log == old(log) + BindAll(old(drivers), devices, faults).writes
    {
      hide BindOne;
      ghost var whole := BindAll(drivers, devices, faults);
      for i := 0 to |devices|
        invariant var rest := BindAll(drivers, devices[i..], faults[i..]);
                  && rest.drivers == whole.drivers
                  && log + rest.writes == old(log) + whole.writes
                  && whole.failedAt == if rest.failedAt.None? then None else Some(rest.failedAt.value + i)
      {
        assert devices[i..][1..] == devices[i + 1..] && faults[i..][1..] == faults[i + 1..];
        var ok := BindDevice(devices[i], faults[i]);
        if !ok {
          return Some(i);
        }
      }
      failedAt := None;
    }

    method UnbindDevices(devices: seq<string>, faults: seq<UnbindFault>)
      requires |faults| == |devices|
      modifies this`drivers
      ensures drivers == UnbindAll(old(drivers), devices, faults)
    {
      for i := 0 to |devices|
        invariant UnbindAll(drivers, devices[i..], faults[i..]) == UnbindAll(old(drivers), devices, faults)
      {
        assert devices[i..][1..] == devices[i + 1..] && faults[i..][1..] == faults[i + 1..];
        var current := Seen(drivers, devices[i], faults[i].readFails);
        if current == VFIO_PCI && !faults[i].writeFails {
          drivers := drivers - {devices[i]};
        }
      }
    }

    /** The second loop of CheckIOMMUGroups: the map of groups is walked in any order. */
    method ListGroups(members: map<string, seq<string>>) returns (result: seq<IOMMUGroup>)
      ensures forall i, j :: 0 <= i < j < |result| ==> result[i].id != result[j].id
      ensures forall i :: 0 <= i < |result| ==> result[i].id in members && result[i].devices == members[result[i].id]
      ensures forall id :: id in members ==> HasId(result, id)
    {
      result := [];
      var left := members.Keys;
      while left != {}
        invariant left <= members.Keys
        invariant forall i :: 0 <= i < |result| ==>
                    result[i].id in members && result[i].id !in left && result[i].devices == members[result[i].id]
        invariant forall i, j :: 0 <= i < j < |result| ==> result[i].id != result[j].id
        invariant forall id :: id in members && id !in left ==> HasId(result, id)
        decreases |left|
      {
        var id :| id in left;
        ghost var was := result;
        result := result + [IOMMUGroup(id, members[id])];
        left := left - {id};
        forall x | x in members && x !in left ensures HasId(result, x) {
          if x == id {
            assert result[|was|].id == id;
          } else {
            var k :| 0 <= k < |was| && was[k].id == x;
            assert result[k].id == x;
          }
        }
      }
    }

    /** CheckIOMMUGroups. */
    method CheckIOMMUGroups(devices: seq<string>,
        linkFails: seq<bool>) returns (r: Result<seq<IOMMUGroup>, LookupError>)
      requires |linkFails| == |devices|
      ensures r.Ok? <==> AllGrouped(groups, devices, linkFails)
      ensures r.Ok? ==> IsGrouping(groups, devices, r.value)
      ensures r.Err? ==> FirstUngrouped(groups, devices, linkFails, r.error)
    {
      hide Filter, InGroup;
      var members: map<string, seq<string>> := map[];
      for i := 0 to |devices|
        invariant forall k :: 0 <= k < i ==> Grouped(groups, devices[k], linkFails[k])
        invariant Gathers(groups, devices[..i], members)
      {
        if !Grouped(groups, devices[i], linkFails[i]) {
          return Err(GroupError(groups, devices[i], linkFails[i]));
        }
        var id := groups[devices[i]];
        var before := if id in members then members[id] else [];
        GatherOne(groups, devices[..i], devices[i], members);
        assert devices[..i + 1] == devices[..i] + [devices[i]];
        members := members[id := before + [devices[i]]];
      }
      assert devices[..|devices|] == devices;
      var result := ListGroups(members);
      r := Ok(result);
    }

    method GetVFIOGroupPaths(devices: seq<string>, linkFails: seq<bool>, nodes: set<string>)
      returns (r: Result<seq<string>, LookupError>)
      requires |linkFails| == |devices|
      ensures r.Ok? <==> AllGrouped(groups, devices, linkFails) && AllNodes(groups, devices, nodes)
      ensures r.Ok? ==> AreGroupPaths(groups, devices, r.value)
      ensures r.Err? ==> FirstWithoutNode(groups, devices, linkFails, nodes, r.error)
    {
      hide GroupPath;
      var found: set<string> := {};
      for i := 0 to |devices|
        invariant AllGrouped(groups, devices[..i], linkFails[..i]) && AllNodes(groups, devices[..i], nodes)
        invariant forall k :: 0 <= k < i ==> devices[k] in groups && GroupPath(groups[devices[k]]) in found
        invariant forall p :: p in found ==> FromDevice(groups, devices, p)
      {
        if !Grouped(groups, devices[i], linkFails[i]) {
          return Err(GroupError(groups, devices[i], linkFails[i]));
        }
        var path := GroupPath(groups[devices[i]]);
        if path !in nodes {
          return Err(NoNode(path));
        }
        found := found + {path};
        assert FromDevice(groups, devices, path);
        assert devices[..i + 1] == devices[..i] + [devices[i]];
        assert linkFails[..i + 1] == linkFails[..i] + [linkFails[i]];
      }
      assert devices[..|devices|] == devices && linkFails[..|devices|] == linkFails;
      var paths: seq<string> := [];
      var left := found;
      while left != {}
        invariant left <= found
        invariant Distinct(paths)
        invariant forall p :: p in paths <==> p in found && p !in left
        decreases |left|
      {
        var path :| path in left;
        paths := paths + [path];
        left := left - {path};
      }
      r := Ok(paths);
    }

    /** addVFIODevices, with the verdict of ValidateDevices as an input. */
    method AddVFIODevices(devices: seq<string>, run: Passthrough) returns (r: Result<seq<DeviceConfig>, string>)
      requires Covers(run, devices)
      modifies this
      ensures drivers == AddDrivers(groups, old(drivers), devices, run)
      ensures log == old(log) + AddWrites(groups, old(drivers), devices, run)
      ensures r.Ok? <==> AddStage(groups, old(drivers), devices, run) in {Empty, Added}
      ensures r.Ok? ==> exists paths :: AreGroupPaths(groups, devices, paths) && r.value == DeviceConfigs(paths)
    {
      hide BindAll, UnbindAll, GroupPath;
      if devices == [] {
        assert AreGroupPaths(groups, devices, []) && DeviceConfigs([]) == [];
        return Ok([]);
      }
      if !run.valid {
        return Err("VFIO device validation failed");
      }
      var checked := CheckIOMMUGroups(devices, run.firstLinks);
      if checked.Err? {
        return Err("failed to check IOMMU groups");
      }
      var failedAt := BindDevices(devices, run.binds);
      if failedAt.Some? {
        return Err("failed to bind VFIO devices");
      }
      var paths := GetVFIOGroupPaths(devices, run.secondLinks, run.nodes);
      if paths.Err? {
        UnbindDevices(devices, run.unbinds);
        return Err("failed to get VFIO group paths");
      }
      r := Ok(DeviceConfigs(paths.value));
    }
  }
}
