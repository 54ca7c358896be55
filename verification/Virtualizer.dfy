/**
 The Cloud Hypervisor driver: its registry of VMs, its address table and the
 host resources it creates.  The functions say what a call does to a state; the
 class works step by step, with a rollback at each failure, and is proved to do
 just that.
 */
module Virtualizer {
  import opened Outcomes
  import opened Text
  import opened Ipv4
  import opened Subnet
  import opened Pool
  import opened Guest

  /** How the driver was configured, and what the host offers it. */
  datatype Settings = Settings(
    defaults: Defaults,
    ipTool: bool,             // the ip command is installed
    skipValidation: bool,     // skipBinaryValidation
    virtiofsd: bool,          // a virtiofsd binary is configured and present
    v6: map<string, string>)  // IPv6 texts as netip reads them, with their canonical form

  datatype VMProcess = VMProcess(
    name: string, tap: string, ip: string, virtiofsd: seq<nat>, pid: nat,
    config: VMConfig, network: Option<CloudInitNetwork>, env: map<string, string>)

  /** The host's TAP interfaces, live processes and work directories; process ids are never reused. */
  datatype Host = Host(taps: set<string>, procs: set<nat>, dirs: set<string>, nextPid: nat)

  datatype State = State(processes: map<string, VMProcess>, held: set<string>, host: Host)

  /** The processes and configuration of a VM that booted. */
  datatype LaunchedVM = Launched(virtiofsd: seq<nat>, pid: nat, config: VMConfig)

  datatype AddressError = StaticOutsideSubnet | StaticTaken | NoPoolAddress
  datatype CreateError =
    | AlreadyExists | WorkDirFailed | AddressRefused(why: AddressError) | CloudInitFailed
    | TapAddFailed | TapSetupFailed | VirtiofsdFailed | ConfigFailed | VfioFailed
    | HypervisorFailed | BootFailed

  /**
   Which outside calls fail during one driver call, and the TAP name it drew.
   Some rollbacks try to delete the TAP twice: `tapDelete` is the first attempt
   of a call, `tapDeleteAgain` the second.
   */
  datatype Faults = Faults(
    tap: string,
    workDir: bool, cloudInit: bool, tapAdd: bool, tapUp: bool, tapBridge: bool,
    virtiofsdStat: bool, mountsStarted: nat, vfio: bool,
    logFile: bool, hypervisorStart: bool, apiSocket: bool, boot: bool,
    tapDelete: bool, tapDeleteAgain: bool, workDirRemove: bool)

  // ----- Addresses -----

  datatype Reading = V4(addr: Addr) | V6(text: string) | NotAnAddress

  /** netip.ParseAddr. */
  function ReadAddr(s: Settings, text: string): Reading {
    match ParseV4(text)
    case Some(a) => V4(a)
    case None => if text in s.v6 then V6(s.v6[text]) else NotAnAddress
  }

  /** The only static addresses refused: ones that parse and lie outside the (IPv4) subnet. */
  predicate OutsideSubnet(s: Settings, text: string) {
    s.defaults.net.subnet.Some? &&
    match ReadAddr(s, text)
    case V4(a) => !Contains(s.defaults.net.subnet.value, a)
    case V6(_) => true
    case NotAnAddress => false
  }

  /** The address a create reserves: the task's static one, or one from the pool. */
  function Reserve(s: Settings, held: set<string>, cfg: DomainConfig): Result<string, AddressError> {
    var ip := StaticAddress(cfg);
    if ip != "" then
      if OutsideSubnet(s, ip) then Err(StaticOutsideSubnet)
      else if ip in held then Err(StaticTaken)
      else Ok(ip)
    else match Allocate(s.defaults.net, Taken(held))
      case Ok(a) => Ok(Dotted(a))
      case Err(_) => Err(NoPoolAddress)
  }

  lemma {:induction false} ReserveIsFresh(s: Settings, held: set<string>, cfg: DomainConfig)
    requires Reserve(s, held, cfg).Ok?
    ensures Reserve(s, held, cfg).value !in held
    ensures Reserved(cfg, Reserve(s, held, cfg).value)
  {
    if StaticAddress(cfg) == "" {
      var net := s.defaults.net;
      var a := Allocate(net, Taken(held)).value;
      ScanAvoidsTaken(net, Taken(held), net.poolStart.value);
      TakenByText(held, a);
      ParseDotted(a);
    }
  }

  lemma {:induction false} ScanAvoidsTaken(net: Net, taken: set<Addr>, ip: Addr)
    ensures Scan(net, taken, ip).Ok? ==> Scan(net, taken, ip).value !in taken
    decreases 0x1_0000_0000 - ip
  {
    if ip < 0xFFFF_FFFF {
      ScanAvoidsTaken(net, taken, ip + 1);
    }
  }

  // ----- Stages of a create -----

  function Pids(first: nat, n: nat): seq<nat> {
    seq(n, i => first + i)
  }

  function PidSet(pids: seq<nat>): set<nat> {
    set p | p in pids
  }

  /** Whether mounts are served at all. */
  predicate ServesMounts(s: Settings) {
    !s.skipValidation && s.virtiofsd
  }

  /** How many virtiofsd processes a create starts. */
  function MountsStarted(s: Settings, cfg: DomainConfig, f: Faults): (n: nat)
    ensures n <= |cfg.mounts|
  {
    if !ServesMounts(s) || f.virtiofsdStat then 0
    else if f.mountsStarted < |cfg.mounts| then f.mountsStarted else |cfg.mounts|
  }

  predicate MountsFail(s: Settings, cfg: DomainConfig, f: Faults) {
    ServesMounts(s) && (f.virtiofsdStat || f.mountsStarted < |cfg.mounts|)
  }

  /** The stage at which a create fails, if one does. */
  function Failure(s: Settings, st: State, cfg: DomainConfig, f: Faults): Option<CreateError> {
    if cfg.name in st.processes then Some(AlreadyExists)
    else if f.workDir then Some(WorkDirFailed)
    else if Reserve(s, st.held, cfg).Err? then Some(AddressRefused(Reserve(s, st.held, cfg).error))
    else if f.cloudInit then Some(CloudInitFailed)
    else if s.ipTool && (f.tap in st.host.taps || f.tapAdd) then Some(TapAddFailed)
    else if s.ipTool && (f.tapUp || f.tapBridge) then Some(TapSetupFailed)
    else LaunchFailure(s, cfg, f, Reserve(s, st.held, cfg).value)
  }

  /** The stages from the virtiofsd processes on. */
  function LaunchFailure(s: Settings, cfg: DomainConfig, f: Faults, ip: string): Option<CreateError> {
    if MountsFail(s, cfg, f) then Some(VirtiofsdFailed)
    else if BuildVMConfig(s.defaults, cfg, f.tap, ip).None? then Some(ConfigFailed)
    else if cfg.vfioDevices != [] && f.vfio then Some(VfioFailed)
    else if f.logFile || f.hypervisorStart || f.apiSocket then Some(HypervisorFailed)
    else if f.boot then Some(BootFailed)
    else None
  }

  /** Process ids a failing create used up, none of them live afterwards. */
  function PidsSpent(s: Settings, cfg: DomainConfig, f: Faults, e: CreateError): nat {
    match e
    case VirtiofsdFailed | ConfigFailed | VfioFailed => MountsStarted(s, cfg, f)
    case HypervisorFailed => MountsStarted(s, cfg, f) + if f.logFile || f.hypervisorStart then 0 else 1
    case BootFailed => MountsStarted(s, cfg, f) + 1
    case _ => 0
  }

  /** Stages whose rollback removes the work directory. */
  predicate RemovesWorkDir(e: CreateError) {
    e.VirtiofsdFailed? || e.ConfigFailed? || e.HypervisorFailed? || e.BootFailed?
  }

  /** Stages that fail after the TAP was set up, and delete it again. */
  predicate DeletesTap(e: CreateError) {
    RemovesWorkDir(e) || e.VfioFailed?
  }

  /** Every attempt of the stage's rollback to delete the TAP fails. */
  predicate TapStays(e: CreateError, f: Faults) {
    f.tapDelete && (e.VirtiofsdFailed? || e.ConfigFailed? || e.HypervisorFailed? ==> f.tapDeleteAgain)
  }

  /** Exactly what a failed create leaves on the host. */
  function HostAfterFailure(s: Settings, h: Host, cfg: DomainConfig, f: Faults, e: CreateError): Host {
    Host(
      if s.ipTool && (e.TapSetupFailed? || (DeletesTap(e) && TapStays(e, f))) then h.taps + {f.tap} else h.taps,
      h.procs,
      if e.AlreadyExists? || e.WorkDirFailed? then h.dirs
      else if RemovesWorkDir(e) && !f.workDirRemove then h.dirs - {cfg.name}
      else h.dirs + {cfg.name},
      h.nextPid + PidsSpent(s, cfg, f, e))
  }

  /** What is left of a host, on which the TAP and work directory exist, once a launch is rolled back. */
  function LaunchAborted(s: Settings, h: Host, cfg: DomainConfig, f: Faults, e: CreateError): Host {
    Host(
      if s.ipTool && !TapStays(e, f) then h.taps - {f.tap} else h.taps,
      h.procs,
      if RemovesWorkDir(e) && !f.workDirRemove then h.dirs - {cfg.name} else h.dirs,
      h.nextPid + PidsSpent(s, cfg, f, e))
  }

  /** The outcome of the launch stages, on a host where the TAP and work directory exist. */
  function Launch(s: Settings, h: Host, cfg: DomainConfig, f: Faults, ip: string): Result<LaunchedVM, CreateError> {
    match LaunchFailure(s, cfg, f, ip)
    case Some(e) => Err(e)
    case None =>
      var n := MountsStarted(s, cfg, f);
      Ok(Launched(MountPids(s, h, cfg, f), h.nextPid + n, BuildVMConfig(s.defaults, cfg, f.tap, ip).value))
  }

  function HostAfterLaunch(s: Settings, h: Host, cfg: DomainConfig, f: Faults, ip: string): Host {
    match Launch(s, h, cfg, f, ip)
    case Err(e) => LaunchAborted(s, h, cfg, f, e)
    case Ok(vm) => h.(procs := h.procs + PidSet(vm.virtiofsd) + {vm.pid}, nextPid := vm.pid + 1)
  }

  /** The VM a successful create registers. */
  function NewProcess(s: Settings, st: State, cfg: DomainConfig, env: map<string, string>, f: Faults): VMProcess
    requires Failure(s, st, cfg, f).None?
  {
    var ip := Reserve(s, st.held, cfg).value;
    var vm := Launch(s, st.host, cfg, f, ip).value;
    VMProcess(cfg.name, f.tap, ip, vm.virtiofsd, vm.pid, vm.config,
              CloudInit(Derive(s.defaults, cfg, ip)),
              GuestEnv(env, Derive(s.defaults, cfg, ip)))
  }

  function ProcessIds(p: VMProcess): set<nat> {
    PidSet(p.virtiofsd) + {p.pid}
  }

  function Create(s: Settings, st: State, cfg: DomainConfig, env: map<string, string>, f: Faults): State {
    match Failure(s, st, cfg, f)
    case Some(e) => st.(host := HostAfterFailure(s, st.host, cfg, f, e))
    case None =>
      var p := NewProcess(s, st, cfg, env, f);
      State(
        st.processes[cfg.name := p],
        st.held + {p.ip},
        Host(if s.ipTool then st.host.taps + {p.tap} else st.host.taps,
             st.host.procs + ProcessIds(p),
             st.host.dirs + {cfg.name},
             p.pid + 1))
  }

  function Destroy(s: Settings, st: State, name: string, f: Faults): State {
    if name !in st.processes then st
    else
      var p := st.processes[name];
      State(
        st.processes - {name},
        st.held - {p.ip},
        st.host.(
          taps := if s.ipTool && !f.tapDelete then st.host.taps - {p.tap} else st.host.taps,
          procs := st.host.procs - (if s.skipValidation then {p.pid} else ProcessIds(p)),
          dirs := if f.workDirRemove then st.host.dirs else st.host.dirs - {name}))
  }

  // ----- Host steps and their rollback -----

  function DeleteTap(s: Settings, h: Host, tap: string, fails: bool): Host {
    if s.ipTool && !fails then h.(taps := h.taps - {tap}) else h
  }

  function RunPids(h: Host, pids: seq<nat>): Host {
    h.(procs := h.procs + PidSet(pids), nextPid := h.nextPid + |pids|)
  }

  function StopPids(h: Host, pids: seq<nat>): Host {
    h.(procs := h.procs - PidSet(pids))
  }

  /** cleanupProcess: virtiofsd and the hypervisor stopped, the TAP and the work directory removed. */
  function Cleanup(s: Settings, h: Host, name: string, tap: string, pids: seq<nat>, pid: seq<nat>, tapFails: bool,
      f: Faults): Host {
    var stopped := StopPids(if s.skipValidation then h else StopPids(h, pids), pid);
    var untapped := DeleteTap(s, stopped, tap, tapFails);
    if f.workDirRemove then untapped else untapped.(dirs := untapped.dirs - {name})
  }

  /** The hypervisor process a create started, as a sequence of none or one. */
  function HypervisorPid(h: Host, f: Faults): seq<nat> {
    if f.logFile || f.hypervisorStart then [] else [h.nextPid]
  }

  /** startCHProcess: a process whose API socket never answers is killed at once. */
  function StartHypervisor(h: Host, f: Faults): Host {
    var ran := RunPids(h, HypervisorPid(h, f));
    if f.apiSocket then StopPids(ran, HypervisorPid(h, f)) else ran
  }

  /** The host once the mounts are served. */
  function Mounted(s: Settings, h: Host, cfg: DomainConfig, f: Faults): Host {
    RunPids(h, MountPids(s, h, cfg, f))
  }

  function MountPids(s: Settings, h: Host, cfg: DomainConfig, f: Faults): seq<nat> {
    Pids(h.nextPid, MountsStarted(s, cfg, f))
  }

  lemma {:induction false} RollbackVirtiofsd(s: Settings, h: Host, cfg: DomainConfig, f: Faults)
    requires HostOk(h) && MountsFail(s, cfg, f)
    ensures var untapped := DeleteTap(s, Mounted(s, h, cfg, f), f.tap, f.tapDelete);
            Cleanup(s, untapped, cfg.name, f.tap, MountPids(s, h, cfg, f), [], f.tapDeleteAgain, f)
            == LaunchAborted(s, h, cfg, f, VirtiofsdFailed)
  {
    StartedPidsAreFresh(h, MountsStarted(s, cfg, f));
  }

  lemma {:induction false} RollbackConfig(s: Settings, h: Host, cfg: DomainConfig, f: Faults)
    requires HostOk(h)
    ensures var stopped := StopPids(DeleteTap(s, Mounted(s, h, cfg, f), f.tap, f.tapDelete), MountPids(s, h, cfg, f));
            Cleanup(s, stopped, cfg.name, f.tap, [], [], f.tapDeleteAgain, f)
            == LaunchAborted(s, h, cfg, f, ConfigFailed)
  {
    StartedPidsAreFresh(h, MountsStarted(s, cfg, f));
  }

  lemma {:induction false} RollbackVfio(s: Settings, h: Host, cfg: DomainConfig, f: Faults)
    requires HostOk(h)
    ensures StopPids(DeleteTap(s, Mounted(s, h, cfg, f), f.tap, f.tapDelete), MountPids(s, h, cfg, f))
            == LaunchAborted(s, h, cfg, f, VfioFailed)
  {
    StartedPidsAreFresh(h, MountsStarted(s, cfg, f));
  }

  lemma {:induction false} RollbackHypervisor(s: Settings, h: Host, cfg: DomainConfig, f: Faults)
    requires HostOk(h) && (f.logFile || f.hypervisorStart || f.apiSocket)
    ensures var m := Mounted(s, h, cfg, f);
            var stopped := StopPids(DeleteTap(s, StartHypervisor(m, f), f.tap, f.tapDelete), MountPids(s, h, cfg, f));
            Cleanup(s, stopped, cfg.name, f.tap, [], HypervisorPid(m, f), f.tapDeleteAgain, f)
            == LaunchAborted(s, h, cfg, f, HypervisorFailed)
  {
    StartedPidsAreFresh(h, MountsStarted(s, cfg, f));
  }

  lemma {:induction false} RollbackBoot(s: Settings, h: Host, cfg: DomainConfig, f: Faults)
    requires HostOk(h) && !f.logFile && !f.hypervisorStart && !f.apiSocket
    ensures var m := Mounted(s, h, cfg, f);
            Cleanup(s, StartHypervisor(m, f), cfg.name, f.tap, MountPids(s, h, cfg, f),
                    HypervisorPid(m, f), f.tapDelete, f)
            == LaunchAborted(s, h, cfg, f, BootFailed)
  {
    StartedPidsAreFresh(h, MountsStarted(s, cfg, f));
    MountsOnlyWhenValidating(s, h, cfg, f);
  }

  /** A create that reaches the launch stages ends as they end, on the host with the TAP and work directory. */
  lemma {:induction false} LaunchIsLastStage(s: Settings, st: State, cfg: DomainConfig, env: map<string, string>,
      f: Faults)
    requires cfg.name !in st.processes && !f.workDir && Reserve(s, st.held, cfg).Ok? && !f.cloudInit
    requires s.ipTool ==> f.tap !in st.host.taps && !f.tapAdd && !f.tapUp && !f.tapBridge
    ensures var h := st.host.(dirs := st.host.dirs + {cfg.name},
                          taps := if s.ipTool then st.host.taps + {f.tap} else st.host.taps);
            var ip := Reserve(s, st.held, cfg).value;
            match Launch(s, h, cfg, f, ip)
            case Err(e) => Failure(s, st, cfg, f) == Some(e)
                         && Create(s, st, cfg, env, f) == st.(host := HostAfterLaunch(s, h, cfg, f, ip))
            case Ok(vm) =>
              && Failure(s, st, cfg, f).None?
              && Create(s, st, cfg, env, f) == State(
                   st.processes[cfg.name := VMProcess(cfg.name, f.tap, ip, vm.virtiofsd, vm.pid, vm.config,
                                                      CloudInit(Derive(s.defaults, cfg, ip)),
                                                      GuestEnv(env, Derive(s.defaults, cfg, ip)))],
                   st.held + {ip}, HostAfterLaunch(s, h, cfg, f, ip))
  {
    hide BuildVMConfig, Derive, GuestEnv, CloudInit, Reserve, PidSet, Pids;
    LaunchFailuresDeleteTap(s, cfg, f, Reserve(s, st.held, cfg).value);
  }

  /** A create that stops before the launch stages leaves the work directory, and the TAP if only its set-up failed. */
  lemma {:induction false} EarlyStages(s: Settings, st: State, cfg: DomainConfig, env: map<string, string>, f: Faults)
    ensures var after := Create(s, st, cfg, env, f);
            var failure := Failure(s, st, cfg, f);
            var kept := st.host.(dirs := st.host.dirs + {cfg.name});
            if cfg.name in st.processes then failure == Some(AlreadyExists) && after == st
            else if f.workDir then failure == Some(WorkDirFailed) && after == st
            else match Reserve(s, st.held, cfg)
              case Err(why) => failure == Some(AddressRefused(why)) && after == State(st.processes, st.held, kept)
              case Ok(_) =>
                if f.cloudInit then failure == Some(CloudInitFailed) && after == State(st.processes, st.held, kept)
                else if s.ipTool && (f.tap in st.host.taps || f.tapAdd) then
                  failure == Some(TapAddFailed) && after == State(st.processes, st.held, kept)
                else if s.ipTool && (f.tapUp || f.tapBridge) then
                  failure == Some(TapSetupFailed)
                    && after == State(st.processes, st.held, kept.(taps := st.host.taps + {f.tap}))
                else true
  {
    hide Reserve, LaunchFailure, NewProcess;
  }

  lemma {:induction false} BootedHost(s: Settings, h: Host, cfg: DomainConfig, f: Faults)
    requires !f.logFile && !f.hypervisorStart && !f.apiSocket
    ensures var m := Mounted(s, h, cfg, f);
            var pid := h.nextPid + MountsStarted(s, cfg, f);
            && HypervisorPid(m, f) == [pid]
            && StartHypervisor(m, f)
               == h.(procs := h.procs + PidSet(MountPids(s, h, cfg, f)) + {pid}, nextPid := pid + 1)
  {
  }

  // ----- The driver -----

  /** Live process ids are below the next one the host hands out. */
  predicate HostOk(h: Host) {
    forall p :: p in h.procs ==> p < h.nextPid
  }

  lemma {:induction false} MountsOnlyWhenValidating(s: Settings, h: Host, cfg: DomainConfig, f: Faults)
    ensures s.skipValidation ==> !MountsFail(s, cfg, f) && PidSet(Pids(h.nextPid, MountsStarted(s, cfg, f))) == {}
  {
  }

  lemma {:induction false} LaunchFailuresDeleteTap(s: Settings, cfg: DomainConfig, f: Faults, ip: string)
    ensures LaunchFailure(s, cfg, f, ip).Some? ==> DeletesTap(LaunchFailure(s, cfg, f, ip).value)
  {
  }

  /** Processes a call starts are none of those that ran before it. */
  lemma {:induction false} StartedPidsAreFresh(h: Host, n: nat)
    requires HostOk(h)
    ensures PidSet(Pids(h.nextPid, n)) !! h.procs
    ensures h.nextPid + n !in h.procs && h.nextPid + n !in PidSet(Pids(h.nextPid, n))
    ensures PidSet([]) == {}
    ensures |Pids(h.nextPid, n)| == n
  {
  }

  /** What CreateDomain needs of the host, it leaves for the next call. */
  lemma {:induction false} CreateKeepsHostOk(s: Settings, st: State, cfg: DomainConfig, env: map<string, string>,
      f: Faults)
    requires HostOk(st.host)
    ensures HostOk(Create(s, st, cfg, env, f).host)
  {
    hide BuildVMConfig, Derive, GuestEnv, CloudInit, Reserve;
  }

  class Driver {
    // Parsed network configuration
    var subnet: Option<Prefix>
    var gatewayIP: Option<Addr>
    var ipPoolStart: Option<Addr>
    var ipPoolEnd: Option<Addr>
    // Registry of VMs and address table
    var processes: map<string, VMProcess>
    var allocatedIPs: set<string>
    // The machine the driver runs on
    var host: Host

    const networkConfig: Network
    const gatewayText: string
    const defaultKernel: string
    const defaultInitramfs: string
    const ipTool: bool
    const skipBinaryValidation: bool
    const virtiofsd: bool
    const v6: map<string, string>

    function NetState(): Net
      reads `subnet, `gatewayIP, `ipPoolStart, `ipPoolEnd
    {
      Net(subnet, gatewayIP, ipPoolStart, ipPoolEnd)
    }

    function Config(): Settings
      reads `subnet, `gatewayIP, `ipPoolStart, `ipPoolEnd
      ensures Config().ipTool == ipTool && Config().skipValidation == skipBinaryValidation
    {
      Settings(Defaults(NetState(), gatewayText, defaultKernel, defaultInitramfs),
               ipTool, skipBinaryValidation, virtiofsd, v6)
    }

    ghost function Current(): State
      reads `processes, `allocatedIPs, `host
    {
      State(processes, allocatedIPs, host)
    }

    constructor (nc: Network, gatewayText: string, kernel: string, initramfs: string,
                 ipTool: bool, skip: bool, virtiofsd: bool, v6: map<string, string>, host: Host)
      ensures networkConfig == nc && NetState() == Initialized(nc)
      ensures Current() == State(map[], {}, host)
      ensures this.ipTool == ipTool && skipBinaryValidation == skip && this.virtiofsd == virtiofsd && this.v6 == v6
      ensures this.gatewayText == gatewayText && defaultKernel == kernel && defaultInitramfs == initramfs
    {
      networkConfig := nc;
      this.gatewayText, defaultKernel, defaultInitramfs := gatewayText, kernel, initramfs;
      this.ipTool, skipBinaryValidation, this.virtiofsd, this.v6 := ipTool, skip, virtiofsd, v6;
      subnet, gatewayIP, ipPoolStart, ipPoolEnd := None, None, None, None;
      processes, allocatedIPs, this.host := map[], {}, host;
      new;
      InitializeNetworkConfig();
    }

    method InitializeNetworkConfig()
      requires subnet.None? && gatewayIP.None? && ipPoolStart.None? && ipPoolEnd.None?
      modifies `subnet, `gatewayIP, `ipPoolStart, `ipPoolEnd
      ensures NetState() == Initialized(networkConfig)
    {
      if networkConfig.subnetCIDR.Some? {
        subnet := Some(Masked(networkConfig.subnetCIDR.value));
      }
      ipPoolStart := networkConfig.ipPoolStart;
      ipPoolEnd := networkConfig.ipPoolEnd;
      gatewayIP := networkConfig.gateway;
      if subnet.Some? {
        if gatewayIP.None? {
          var networkAddr := subnet.value.addr;
          if networkAddr < 0xFFFF_FFFF && Contains(subnet.value, networkAddr + 1) {
            gatewayIP := Some(networkAddr + 1);
          }
        }
        if ipPoolStart.Some? && !Contains(subnet.value, ipPoolStart.value) {
          ipPoolStart := None;
        }
        if ipPoolEnd.Some? && !Contains(subnet.value, ipPoolEnd.value) {
          ipPoolEnd := None;
        }
      }
    }

    method AllocateIP() returns (r: Result<string, AllocError>)
      modifies `allocatedIPs
      ensures match Allocate(NetState(), Taken(old(allocatedIPs)))
              case Ok(a) => r == Ok(Dotted(a)) && allocatedIPs == old(allocatedIPs) + {Dotted(a)}
              case Err(e) => r == Err(e) && allocatedIPs == old(allocatedIPs)
    {
      hide Dotted, Taken, Contains;
      if ipPoolStart.None? || ipPoolEnd.None? {
        return Err(NotConfigured);
      }
      ghost var taken := Taken(allocatedIPs);
      var ip := ipPoolStart.value;
      while true
        invariant allocatedIPs == old(allocatedIPs) && taken == Taken(allocatedIPs)
        invariant Allocate(NetState(), taken) == Scan(NetState(), taken, ip)
        decreases 0xFFFF_FFFF - ip
      {
        if subnet.Some? && !Contains(subnet.value, ip) {
          return Err(OutsideSubnet);
        }
        TakenByText(allocatedIPs, ip);
        if gatewayIP.Some? && ip == gatewayIP.value {
          if ip == ipPoolEnd.value || ip == 0xFFFF_FFFF {
            break;
          }
          ip := ip + 1;
          continue;
        }
        var text := Dotted(ip);
        if text !in allocatedIPs {
          allocatedIPs := allocatedIPs + {text};
          return Ok(text);
        }
        if ip == ipPoolEnd.value || ip == 0xFFFF_FFFF {
          break;
        }
        ip := ip + 1;
      }
      r := Err(Exhausted);
    }

    method DeallocateIP(ip: string)
      modifies `allocatedIPs
      ensures allocatedIPs == old(allocatedIPs) - {ip}
    {
      allocatedIPs := allocatedIPs - {ip};
    }

    /** Creates the TAP and attaches it; a failure after the creation leaves it behind. */
    method SetupNetworking(f: Faults) returns (r: Option<CreateError>)
      modifies `host
      ensures r == if !ipTool then None
                   else if f.tap in old(host).taps || f.tapAdd then Some(TapAddFailed)
                   else if f.tapUp || f.tapBridge then Some(TapSetupFailed)
                   else None
      ensures host == if !ipTool || r == Some(TapAddFailed) then old(host)
                      else old(host).(taps := old(host).taps + {f.tap})
    {
      if !ipTool {
        return None;
      }
      if f.tap in host.taps || f.tapAdd {
        return Some(TapAddFailed);
      }
      host := host.(taps := host.taps + {f.tap});
      if f.tapUp {
        return Some(TapSetupFailed);
      }
      if f.tapBridge {
        return Some(TapSetupFailed);
      }
      r := None;
    }

    method CleanupNetworking(tap: string, fails: bool)
      modifies `host
      ensures host == DeleteTap(Config(), old(host), tap, fails)
    {
      if ipTool && !fails {
        host := host.(taps := host.taps - {tap});
      }
    }

    method StartVirtiofsd(cfg: DomainConfig, f: Faults) returns (ok: bool, pids: seq<nat>)
      modifies `host
      ensures ok <==> !MountsFail(Config(), cfg, f)
      ensures pids == MountPids(Config(), old(host), cfg, f)
      ensures host == Mounted(Config(), old(host), cfg, f)
    {
      pids := [];
      if skipBinaryValidation || !virtiofsd {
        return true, pids;
      }
      if f.virtiofsdStat {
        return false, pids;
      }
      var i := 0;
      while i < |cfg.mounts|
        invariant i <= |cfg.mounts| && i <= f.mountsStarted
        invariant pids == Pids(old(host).nextPid, i)
        invariant host == RunPids(old(host), pids)
      {
        if i == f.mountsStarted {
          return false, pids;
        }
        var pid := host.nextPid;
        host := host.(procs := host.procs + {pid}, nextPid := pid + 1);
        pids := pids + [pid];
        i := i + 1;
      }
      ok := true;
    }

    method StopVirtiofsd(pids: seq<nat>)
      modifies `host
      ensures host == StopPids(old(host), pids)
    {
      for i := 0 to |pids|
        invariant host == StopPids(old(host), pids[..i])
      {
        host := host.(procs := host.procs - {pids[i]});
        assert PidSet(pids[..i + 1]) == PidSet(pids[..i]) + {pids[i]};
      }
      assert pids[..|pids|] == pids;
    }

    /** Starts the hypervisor and reports its process id, if a process was started at all. */
    method StartCHProcess(f: Faults) returns (ok: bool, pid: seq<nat>)
      modifies `host
      ensures ok <==> !f.logFile && !f.hypervisorStart && !f.apiSocket
      ensures pid == HypervisorPid(old(host), f)
      ensures host == StartHypervisor(old(host), f)
    {
      if f.logFile || f.hypervisorStart {
        return false, [];
      }
      pid := [host.nextPid];
      host := host.(procs := host.procs + {host.nextPid}, nextPid := host.nextPid + 1);
      if f.apiSocket {
        host := host.(procs := host.procs - {pid[0]});
        return false, pid;
      }
      ok := true;
    }

    /** Stops everything a VM process runs and removes its TAP and work directory. */
    method CleanupProcess(name: string, tap: string, pids: seq<nat>, pid: seq<nat>, tapFails: bool, f: Faults)
      requires |pid| <= 1
      modifies `host
      ensures host == Cleanup(Config(), old(host), name, tap, pids, pid, tapFails, f)
    {
      if !skipBinaryValidation {
        StopVirtiofsd(pids);
      }
      if pid != [] {
        host := host.(procs := host.procs - {pid[0]});
      }
      CleanupNetworking(tap, tapFails);
      if !f.workDirRemove {
        host := host.(dirs := host.dirs - {name});
      }
    }

    /** Reserves the task's static address, or one from the pool. */
    method ReserveAddress(cfg: DomainConfig) returns (r: Result<string, AddressError>)
      modifies `allocatedIPs
      ensures r == Reserve(Config(), old(allocatedIPs), cfg)
      ensures allocatedIPs == if r.Ok? then old(allocatedIPs) + {r.value} else old(allocatedIPs)
    {
      if StaticAddress(cfg) != "" {
        var ip := StaticAddress(cfg);
        if subnet.Some? {
          match ParseV4(ip) {
            case Some(a) =>
              if !Contains(subnet.value, a) {
                return Err(StaticOutsideSubnet);
              }
            case None =>
              if ip in v6 {
                return Err(StaticOutsideSubnet);
              }
          }
        }
        if ip in allocatedIPs {
          return Err(StaticTaken);
        }
        allocatedIPs := allocatedIPs + {ip};
        return Ok(ip);
      }
      var held := AllocateIP();
      match held {
        case Ok(ip) => r := Ok(ip);
        case Err(_) => r := Err(NoPoolAddress);
      }
    }

    /** The second half of a create: everything after the TAP is up. */
    method LaunchDomain(cfg: DomainConfig, f: Faults, ip: string) returns (r: Result<LaunchedVM, CreateError>)
      requires HostOk(host)
      requires ipTool ==> f.tap in host.taps
      modifies `allocatedIPs, `host
      ensures r == Launch(Config(), old(host), cfg, f, ip)
      ensures host == HostAfterLaunch(Config(), old(host), cfg, f, ip)
      ensures allocatedIPs == if r.Ok? then old(allocatedIPs) else old(allocatedIPs) - {ip}
    {
      hide BuildVMConfig, HostOk, Pids, PidSet, MountsStarted, MountsFail;
      hide Cleanup, DeleteTap, StopPids, Mounted, StartHypervisor, LaunchAborted, Config, NetState;
      ghost var s, h := Config(), host;
      var mounted, pids := StartVirtiofsd(cfg, f);
      if !mounted {
        DeallocateIP(ip);
        CleanupNetworking(f.tap, f.tapDelete);
        CleanupProcess(cfg.name, f.tap, pids, [], f.tapDeleteAgain, f);
        RollbackVirtiofsd(s, h, cfg, f);
        return Err(VirtiofsdFailed);
      }
      var config := BuildVMConfig(Config().defaults, cfg, f.tap, ip);
      if config.None? {
        DeallocateIP(ip);
        CleanupNetworking(f.tap, f.tapDelete);
        StopVirtiofsd(pids);
        CleanupProcess(cfg.name, f.tap, [], [], f.tapDeleteAgain, f);
        RollbackConfig(s, h, cfg, f);
        return Err(ConfigFailed);
      }
      if cfg.vfioDevices != [] && f.vfio {
        DeallocateIP(ip);
        CleanupNetworking(f.tap, f.tapDelete);
        StopVirtiofsd(pids);
        RollbackVfio(s, h, cfg, f);
        return Err(VfioFailed);
      }
      var started, pid := StartCHProcess(f);
      if !started {
        DeallocateIP(ip);
        CleanupNetworking(f.tap, f.tapDelete);
        StopVirtiofsd(pids);
        CleanupProcess(cfg.name, f.tap, [], pid, f.tapDeleteAgain, f);
        RollbackHypervisor(s, h, cfg, f);
        return Err(HypervisorFailed);
      }
      if f.boot {
        CleanupProcess(cfg.name, f.tap, pids, pid, f.tapDelete, f);
        DeallocateIP(ip);
        RollbackBoot(s, h, cfg, f);
        return Err(BootFailed);
      }
      BootedHost(s, h, cfg, f);
      r := Ok(Launched(pids, pid[0], config.value));
    }

    method CreateDomain(cfg: DomainConfig, env: map<string, string>, f: Faults) returns (r: Option<CreateError>)
      requires HostOk(host)
      modifies `processes, `allocatedIPs, `host
      ensures r == Failure(Config(), old(Current()), cfg, f)
      ensures Current() == Create(Config(), old(Current()), cfg, env, f)
    {
      hide BuildVMConfig, Derive, GuestEnv, CloudInit, Reserve, Reserved, Pids, PidSet, LaunchFailure, Config,
          NetState, MountsStarted, MountsFail;
      hide LaunchAborted, Launch, HostAfterLaunch, Create, Failure;
      EarlyStages(Config(), Current(), cfg, env, f);
      if cfg.name in processes {
        return Some(AlreadyExists);
      }
      if f.workDir {
        return Some(WorkDirFailed);
      }
      host := host.(dirs := host.dirs + {cfg.name});
      var reserved := ReserveAddress(cfg);
      if reserved.Err? {
        return Some(AddressRefused(reserved.error));
      }
      var ip := reserved.value;
      ReserveIsFresh(Config(), old(allocatedIPs), cfg);
      var settings := Derive(Config().defaults, cfg, ip);
      if f.cloudInit {
        DeallocateIP(ip);
        return Some(CloudInitFailed);
      }
      var setup := SetupNetworking(f);
      if setup.Some? {
        DeallocateIP(ip);
        return setup;
      }
      LaunchIsLastStage(Config(), old(Current()), cfg, env, f);
      var launched := LaunchDomain(cfg, f, ip);
      if launched.Err? {
        return Some(launched.error);
      }
      var vm := launched.value;
      var proc := VMProcess(cfg.name, f.tap, ip, vm.virtiofsd, vm.pid, vm.config,
                              CloudInit(settings), GuestEnv(env, settings));
      processes := processes[cfg.name := proc];
      r := None;
    }

    method DestroyDomain(name: string, f: Faults) returns (found: bool)
      modifies `processes, `allocatedIPs, `host
      ensures found <==> name in old(processes)
      ensures Current() == Destroy(Config(), old(Current()), name, f)
      ensures old(HostOk(host)) ==> HostOk(host)
    {
      if name !in processes {
        return false;
      }
      var p := processes[name];
      CleanupProcess(name, p.tap, p.virtiofsd, [p.pid], f.tapDelete, f);
      DeallocateIP(p.ip);
      processes := processes - {name};
      found := true;
    }
  }
}
