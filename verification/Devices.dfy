/**
 The answers of the VFIO manager, told from sysfs and the faults alone: when
 one device's turn succeeds and what it writes, at which device a list fails,
 and at which stage adding devices ends.
 */
module Devices {
  import opened Outcomes
  import opened Vfio

  /** The manager sees the device on a driver. */
  predicate SeenDriven(d: Drivers, device: string, f: BindFault) {
    !f.readFails && device in d
  }

  /**
   A turn succeeds exactly when the device is seen on vfio-pci; or when it can be taken from
   the driver seen, its ID can be registered, and then the bind works or, when the device has
   a driver by then, a second look finds that to be vfio-pci.
   */
  lemma {:induction false} TurnSucceedsIff(d: Drivers, device: string, f: BindFault)
    ensures BindOne(d, device, f).ok <==>
            || (SeenDriven(d, device, f) && d[device] == VFIO_PCI)
            || (&& (SeenDriven(d, device, f) ==> !f.unbindFails) && !f.idFails
                && if f.readFails && device in d then !f.rereadFails && d[device] == VFIO_PCI
                   else if device in f.taken then !f.rereadFails
                   else !f.bindFails)
  {
  }

  /** What a turn asks sysfs to write, in order. */
  lemma {:induction false} TurnWrites(d: Drivers, device: string, f: BindFault)
    ensures var driven := SeenDriven(d, device, f);
            BindOne(d, device, f).writes ==
              if driven && d[device] == VFIO_PCI then []
              else if driven && (f.unbindFails || f.idFails) then [Unbind(d[device], device)]
              else if driven then [Unbind(d[device], device), NewId(device), Bind(device)]
              else if f.idFails then []
              else [NewId(device), Bind(device)]
  {
  }

  /** Which driver each device has after a turn. */
  lemma {:induction false} TurnDrivers(d: Drivers, device: string, f: BindFault, x: string)
    ensures var after := BindOne(d, device, f).drivers;
            var driven := SeenDriven(d, device, f);
            var unbound := driven && d[device] != VFIO_PCI && !f.unbindFails;
            var registered := (unbound || !driven) && !f.idFails;
            if x in d && !(x == device && unbound) then x in after && after[x] == d[x]
            else (x in after <==> registered && (x in f.taken || (x == device && !f.bindFails)))
                 && (x in after ==> after[x] == VFIO_PCI)
  {
  }

  /** The drivers before turn i. */
  function BeforeTurn(d: Drivers, devices: seq<string>, faults: seq<BindFault>, i: nat): Drivers
    requires |faults| == |devices| && i <= |devices|
  {
    BindAll(d, devices[..i], faults[..i]).drivers
  }

  predicate TurnWorks(d: Drivers, devices: seq<string>, faults: seq<BindFault>, i: nat)
    requires |faults| == |devices| && i < |devices|
  {
    BindOne(BeforeTurn(d, devices, faults, i), devices[i], faults[i]).ok
  }

  /** Turn i fails, and all before it succeed. */
  predicate FirstFailure(d: Drivers, devices: seq<string>, faults: seq<BindFault>, i: nat)
    requires |faults| == |devices| && i < |devices|
  {
    !TurnWorks(d, devices, faults, i) && forall j: nat :: j < i ==> TurnWorks(d, devices, faults, j)
  }

  /** Binding a list fails at a device exactly when its turn is the first to fail. */
  lemma {:induction false} BindFailsAtIff(d: Drivers, devices: seq<string>, faults: seq<BindFault>, i: nat)
    requires |faults| == |devices| && i < |devices|
    ensures BindAll(d, devices, faults).failedAt == Some(i) <==> FirstFailure(d, devices, faults, i)
    decreases |devices|
  {
    hide BindOne;
    var first := BindOne(d, devices[0], faults[0]);
    assert BeforeTurn(d, devices, faults, 0) == d;
    assert TurnWorks(d, devices, faults, 0) <==> first.ok;
    if first.ok && i > 0 {
      var ds, fs := devices[1..], faults[1..];
      BindFailsAtIff(first.drivers, ds, fs, i - 1);
      assert BindAll(d, devices, faults).failedAt == Some(i)
        <==> BindAll(first.drivers, ds, fs).failedAt == Some(i - 1);
      hide BindAll;
      forall j: nat | 0 < j < |devices|
        ensures TurnWorks(d, devices, faults, j) <==> TurnWorks(first.drivers, ds, fs, j - 1)
      {
        TurnShifts(d, devices, faults, j - 1);
      }
      hide TurnWorks;
      forall j: nat | j < i - 1 && (forall k: nat :: k < i ==> TurnWorks(d, devices, faults, k))
        ensures TurnWorks(first.drivers, ds, fs, j)
      {
        assert TurnWorks(d, devices, faults, j + 1);
      }
    }
  }

  lemma {:induction false} TurnShifts(d: Drivers, devices: seq<string>, faults: seq<BindFault>, j: nat)
    requires |faults| == |devices| && j + 1 < |devices| && BindOne(d, devices[0], faults[0]).ok
    ensures TurnWorks(d, devices, faults, j + 1) <==>
            TurnWorks(BindOne(d, devices[0], faults[0]).drivers, devices[1..], faults[1..], j)
  {
    hide BindOne;
    assert devices[..j + 1][1..] == devices[1..][..j] && faults[..j + 1][1..] == faults[1..][..j];
  }

  /** One more device in the list: its turn comes if all before it succeeded, and nothing happens otherwise. */
  lemma {:induction false} BindOneMore(d: Drivers, devices: seq<string>, faults: seq<BindFault>, x: string,
      f: BindFault)
    requires |faults| == |devices|
    ensures var before := BindAll(d, devices, faults);
            var turn := BindOne(before.drivers, x, f);
            BindAll(d, devices + [x], faults + [f]) ==
              if before.failedAt.Some? then before
              else Bound(turn.drivers, before.writes + turn.writes, if turn.ok then None else Some(|devices|))
    ensures BindAll(d, [], []) == Bound(d, [], None)
    decreases |devices|
  {
    hide BindOne;
    if devices == [] {
      assert [] + [x] == [x] && [] + [f] == [f] && [x][1..] == [] && [f][1..] == [];
      assert BindOne(d, x, f).writes + [] == BindOne(d, x, f).writes == [] + BindOne(d, x, f).writes;
    } else {
      var first := BindOne(d, devices[0], faults[0]);
      assert (devices + [x])[1..] == devices[1..] + [x] && (faults + [f])[1..] == faults[1..] + [f];
      if first.ok {
        BindOneMore(first.drivers, devices[1..], faults[1..], x, f);
        var rest := BindAll(first.drivers, devices[1..], faults[1..]);
        var turn := BindOne(rest.drivers, x, f);
        assert first.writes + (rest.writes + turn.writes) == first.writes + rest.writes + turn.writes;
      }
    }
  }

  /** Some device's group cannot be told. */
  predicate SomeUngrouped(groups: Groups, devices: seq<string>, linkFails: seq<bool>)
    requires |linkFails| == |devices|
  {
    exists i :: 0 <= i < |devices| && (linkFails[i] || devices[i] !in groups)
  }

  /** Some group has no node under /dev/vfio. */
  predicate SomeWithoutNode(groups: Groups, devices: seq<string>, nodes: set<string>) {
    exists i :: 0 <= i < |devices| && devices[i] in groups && GroupPath(groups[devices[i]]) !in nodes
  }

  /** Some turn fails. */
  predicate SomeTurnFails(d: Drivers, devices: seq<string>, faults: seq<BindFault>)
    requires |faults| == |devices|
  {
    exists i :: 0 <= i < |devices| && FirstFailure(d, devices, faults, i)
  }

  /** The stage at which adding devices ends, for every request. */
  lemma {:induction false} AddAnswers(groups: Groups, d: Drivers, devices: seq<string>, run: Passthrough)
    requires Covers(run, devices)
    ensures var stage := AddStage(groups, d, devices, run);
            var checked := devices != [] && run.valid && !SomeUngrouped(groups, devices, run.firstLinks);
            var bound := checked && !SomeTurnFails(d, devices, run.binds);
            var missing := SomeUngrouped(groups, devices, run.secondLinks)
                           || SomeWithoutNode(groups, devices, run.nodes);
            && (stage == Empty <==> devices == [])
            && (stage == Rejected <==> devices != [] && !checked)
            && (forall i: nat :: stage == BindFailed(i) <==>
                  checked && i < |devices| && FirstFailure(d, devices, run.binds, i))
            && (stage == PathsFailed <==> bound && missing)
            && (stage == Added <==> bound && !missing)
            && AddWrites(groups, d, devices, run) == (if checked then BindAll(d, devices, run.binds).writes else [])
            && AddDrivers(groups, d, devices, run)
               == (if !checked then d
                   else if bound && missing then UnbindAll(BindAll(d, devices, run.binds).drivers, devices, run.unbinds)
                   else BindAll(d, devices, run.binds).drivers)
  {
    hide BindAll, UnbindAll, FirstFailure, GroupPath;
    forall i | 0 <= i < |devices|
      ensures BindAll(d, devices, run.binds).failedAt == Some(i) <==> FirstFailure(d, devices, run.binds, i)
    {
      BindFailsAtIff(d, devices, run.binds, i);
    }
    FailsInside(d, devices, run.binds);
  }
}
