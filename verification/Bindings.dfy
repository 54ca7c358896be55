/**
 PCI devices over the life of VMs: the driver's creates and destroys together
 with the drivers that hold the devices passed through.
 */
module Bindings {
  import opened Outcomes
  import opened Guest
  import opened Virtualizer
  import opened Vfio

  /** The driver's state and sysfs. */
  datatype Machine = Machine(vms: State, drivers: Drivers)

  datatype DeviceEvent =
    | CreateWith(cfg: DomainConfig, env: map<string, string>, f: Faults, run: Passthrough)
    | DestroyOf(name: string, f: Faults)

  predicate WellFormed(e: DeviceEvent) {
    e.CreateWith? ==> Covers(e.run, e.cfg.vfioDevices)
  }

  /** The faults of a create whose VFIO stage fails just when addVFIODevices does. */
  function FaultsOf(groups: Groups, d: Drivers, e: DeviceEvent): Faults
    requires e.CreateWith? && WellFormed(e)
  {
    var stage := AddStage(groups, d, e.cfg.vfioDevices, e.run);
    e.f.(vfio := !stage.Empty? && !stage.Added?)
  }

  /** A create gets as far as the VFIO stage. */
  predicate Reaches(s: Settings, st: State, cfg: DomainConfig, f: Faults) {
    match Failure(s, st, cfg, f.(vfio := false))
    case None => true
    case Some(e) => e.HypervisorFailed? || e.BootFailed?
  }

  function Act(s: Settings, groups: Groups, m: Machine, e: DeviceEvent): Machine
    requires WellFormed(e)
  {
    match e
    case CreateWith(cfg, env, f, run) =>
      Machine(Create(s, m.vms, cfg, env, FaultsOf(groups, m.drivers, e)),
              if Reaches(s, m.vms, cfg, f) then AddDrivers(groups, m.drivers, cfg.vfioDevices, run) else m.drivers)
    case DestroyOf(name, f) => Machine(Destroy(s, m.vms, name, f), m.drivers)
  }

  function ActAll(s: Settings, groups: Groups, m: Machine, es: seq<DeviceEvent>): Machine
    requires forall e :: e in es ==> WellFormed(e)
    decreases |es|
  {
    if es == [] then m
    else
      assert es[0] in es;
      ActAll(s, groups, Act(s, groups, m, es[0]), es[1..])
  }

  /** The VFIO fault plays no part before the launch stages. */
  lemma {:induction false} EarlyOrLaunch(s: Settings, st: State, cfg: DomainConfig, f: Faults, fails: bool)
    ensures var g, h := f.(vfio := fails), f.(vfio := false);
            var ip := ReservedText(s, st, cfg);
            || (Failure(s, st, cfg, g) == LaunchFailure(s, cfg, g, ip)
                && Failure(s, st, cfg, h) == LaunchFailure(s, cfg, h, ip))
            || (Failure(s, st, cfg, g) == Failure(s, st, cfg, h)
                && Failure(s, st, cfg, g).Some? && Early(Failure(s, st, cfg, g).value))
  {
    hide LaunchFailure, Reserve;
  }

  function ReservedText(s: Settings, st: State, cfg: DomainConfig): string {
    match Reserve(s, st.held, cfg)
    case Ok(ip) => ip
    case Err(_) => ""
  }

  predicate Early(e: CreateError) {
    e.AlreadyExists? || e.WorkDirFailed? || e.AddressRefused? || e.CloudInitFailed?
    || e.TapAddFailed? || e.TapSetupFailed?
  }

  lemma {:induction false} VfioFault(s: Settings, st: State, cfg: DomainConfig, f: Faults, fails: bool)
    ensures Failure(s, st, cfg, f.(vfio := fails))
         == if Reaches(s, st, cfg, f) && cfg.vfioDevices != [] && fails then Some(VfioFailed)
            else Failure(s, st, cfg, f.(vfio := false))
    ensures Failure(s, st, cfg, f.(vfio := false)) != Some(VfioFailed)
  {
    hide LaunchFailure, Failure, ReservedText;
    EarlyOrLaunch(s, st, cfg, f, fails);
    LaunchVfioFault(s, cfg, f, fails, ReservedText(s, st, cfg));
  }

  lemma {:induction false} LaunchVfioFault(s: Settings, cfg: DomainConfig, f: Faults, fails: bool, ip: string)
    ensures var without := LaunchFailure(s, cfg, f.(vfio := false), ip);
            && without != Some(VfioFailed)
            && LaunchFailure(s, cfg, f.(vfio := fails), ip)
               == (if cfg.vfioDevices != [] && fails
                      && (without.None? || without.value.HypervisorFailed? || without.value.BootFailed?)
                   then Some(VfioFailed) else without)
            && (without.Some? ==> without.value.VirtiofsdFailed? || without.value.ConfigFailed?
                                  || without.value.HypervisorFailed? || without.value.BootFailed?)
  {
    hide BuildVMConfig;
    assert MountsFail(s, cfg, f.(vfio := fails)) == MountsFail(s, cfg, f.(vfio := false));
    hide MountsFail;
  }

  /** A create that reaches the stage fails there exactly when adding the devices fails; others fail earlier. */
  lemma {:induction false} ReachesIff(s: Settings, groups: Groups, m: Machine, e: DeviceEvent)
    requires WellFormed(e) && e.CreateWith?
    ensures var failure := Failure(s, m.vms, e.cfg, FaultsOf(groups, m.drivers, e));
            var stage := AddStage(groups, m.drivers, e.cfg.vfioDevices, e.run);
            && (Reaches(s, m.vms, e.cfg, e.f) <==>
                || failure.None? || failure.value.VfioFailed?
                || failure.value.HypervisorFailed? || failure.value.BootFailed?)
            && (failure == Some(VfioFailed) <==> Reaches(s, m.vms, e.cfg, e.f) && !stage.Empty? && !stage.Added?)
  {
    hide Failure, AllGrouped, AllNodes, BindAll;
    VfioFault(s, m.vms, e.cfg, e.f, FaultsOf(groups, m.drivers, e).vfio);
    assert AddStage(groups, m.drivers, e.cfg.vfioDevices, e.run).Empty? <==> e.cfg.vfioDevices == [];
    hide AddStage;
  }

  /**
   A create that gets past the VFIO stage leaves all its devices on vfio-pci,
   also when it fails at the hypervisor or at boot.
   */
  lemma {:induction false} LateFailureKeepsBindings(s: Settings, groups: Groups, m: Machine, e: DeviceEvent)
    requires WellFormed(e) && e.CreateWith?
    ensures var failure := Failure(s, m.vms, e.cfg, FaultsOf(groups, m.drivers, e));
            failure.None? || failure.value.HypervisorFailed? || failure.value.BootFailed? ==>
              AllOnVfio(Act(s, groups, m, e).drivers, e.cfg.vfioDevices)
  {
    ReachesIff(s, groups, m, e);
    RollbackOnlyAfterBinding(groups, m.drivers, e.cfg.vfioDevices, e.run);
    hide Failure, Create, Reaches, AddDrivers;
  }

  /**
   The only way off vfio-pci: a create that lists the device cannot find all group
   paths, be it for a failed lookup or a missing node, and unbinding it works.
   */
  predicate Frees(s: Settings, groups: Groups, m: Machine, e: DeviceEvent, x: string)
    requires WellFormed(e)
  {
    && e.CreateWith? && Reaches(s, m.vms, e.cfg, e.f)
    && AddStage(groups, m.drivers, e.cfg.vfioDevices, e.run) == PathsFailed
    && Releases(x, e.cfg.vfioDevices, e.run.unbinds)
  }

  lemma {:induction false} LeavesVfioIff(s: Settings, groups: Groups, m: Machine, e: DeviceEvent, x: string)
    requires WellFormed(e) && OnVfio(m.drivers, x)
    ensures !OnVfio(Act(s, groups, m, e).drivers, x) <==> Frees(s, groups, m, e, x)
  {
    hide Create, Destroy, Reaches, AddStage, BindAll, UnbindAll, Releases;
    if e.CreateWith? {
      BindAllOnlyBinds(m.drivers, e.cfg.vfioDevices, e.run.binds, x);
      UnbindAllExact(BindAll(m.drivers, e.cfg.vfioDevices, e.run.binds).drivers, e.cfg.vfioDevices, e.run.unbinds, x);
    }
  }

  predicate NeverFreed(s: Settings, groups: Groups, m: Machine, es: seq<DeviceEvent>, x: string)
    requires forall e :: e in es ==> WellFormed(e)
    decreases |es|
  {
    if es == [] then true
    else
      assert es[0] in es;
      !Frees(s, groups, m, es[0], x) && NeverFreed(s, groups, Act(s, groups, m, es[0]), es[1..], x)
  }

  /**
   Over whole runs a device that got onto vfio-pci stays there, through the
   destruction of its VM and everything after, until a create frees it that way.
   */
  lemma {:induction false} BindingsOutliveVMs(s: Settings, groups: Groups, m: Machine, es: seq<DeviceEvent>, x: string)
    requires (forall e :: e in es ==> WellFormed(e)) && OnVfio(m.drivers, x)
    requires NeverFreed(s, groups, m, es, x)
    ensures OnVfio(ActAll(s, groups, m, es).drivers, x)
    decreases |es|
  {
    hide Act, Frees;
    if es != [] {
      assert es[0] in es;
      LeavesVfioIff(s, groups, m, es[0], x);
      BindingsOutliveVMs(s, groups, Act(s, groups, m, es[0]), es[1..], x);
    }
  }
}
