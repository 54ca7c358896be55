/**
 The answers of a create, told from the request, the driver's state and the
 faults alone: the stages it runs, the fault that stops it and what it registers.
 */
module Creates {
  import opened Outcomes
  import opened Ipv4
  import opened Subnet
  import opened Pool
  import opened Guest
  import opened Virtualizer

  /** A step of a create: whether it works, and the error that is returned when it does not. */
  datatype Step = Step(works: bool, error: CreateError)

  /** The pool gives a: the first address neither held nor the gateway's, with none before it that ends the search. */
  predicate PoolGives(net: Net, held: set<string>, a: Addr) {
    && net.poolStart.Some? && net.poolEnd.Some? && net.poolStart.value <= a
    && (net.subnet.Some? ==> forall b: Addr :: net.poolStart.value <= b <= a ==> Contains(net.subnet.value, b))
    && (forall b: Addr :: net.poolStart.value <= b < a ==>
          b != net.poolEnd.value && (net.gateway == Some(b) || Dotted(b) in held))
    && net.gateway != Some(a) && Dotted(a) !in held
  }

  /** What a create is asked for, as far as that decides whether it works. */
  datatype Asked = Asked(name: string, staticIP: string, mounts: nat, kernel: string, initramfs: string, devices: nat)

  function AskedOf(cfg: DomainConfig): Asked {
    Asked(cfg.name, if cfg.bridge.Some? then cfg.bridge.value.staticIP else "", |cfg.mounts|,
          cfg.kernel, cfg.initramfs, |cfg.vfioDevices|)
  }

  /** The steps in the order of the source. */
  ghost function Steps(s: Settings, st: State, a: Asked, f: Faults): seq<Step> {
    var net := s.defaults.net;
    var own := ParseV4(a.staticIP);
    [Step(a.name !in st.processes, AlreadyExists),
     Step(!f.workDir, WorkDirFailed),
     Step(a.staticIP != "" && net.subnet.Some? ==>
            if own.Some? then Contains(net.subnet.value, own.value) else a.staticIP !in s.v6,
          AddressRefused(StaticOutsideSubnet)),
     Step(a.staticIP != "" ==> a.staticIP !in st.held, AddressRefused(StaticTaken)),
     Step(a.staticIP == "" ==> exists b: Addr :: PoolGives(net, st.held, b), AddressRefused(NoPoolAddress)),
     Step(!f.cloudInit, CloudInitFailed),
     Step(s.ipTool ==> f.tap !in st.host.taps && !f.tapAdd, TapAddFailed),
     Step(s.ipTool ==> !f.tapUp && !f.tapBridge, TapSetupFailed),
     Step(!s.skipValidation && s.virtiofsd ==> !f.virtiofsdStat && f.mountsStarted >= a.mounts, VirtiofsdFailed),
     Step((a.kernel != "" || s.defaults.kernel != "") && (a.initramfs != "" || s.defaults.initramfs != ""),
          ConfigFailed),
     Step(a.devices > 0 ==> !f.vfio, VfioFailed),
     Step(!f.logFile && !f.hypervisorStart && !f.apiSocket, HypervisorFailed),
     Step(!f.boot, BootFailed)]
  }

  predicate AllWork(steps: seq<Step>) {
    forall i :: 0 <= i < |steps| ==> steps[i].works
  }

  predicate FaultAt(steps: seq<Step>, i: nat)
    requires i < |steps|
  {
    !steps[i].works && forall j :: 0 <= j < i ==> steps[j].works
  }

  /** The first step that does not work has this error. */
  predicate FirstFault(steps: seq<Step>, e: CreateError) {
    exists i :: 0 <= i < |steps| && FaultAt(steps, i) && steps[i].error == e
  }

  // ----- Addresses -----

  lemma {:induction false} ScanIff(net: Net, taken: set<Addr>, ip: Addr, a: Addr)
    ensures Scan(net, taken, ip) == Ok(a) <==>
              && ip <= a
              && (net.subnet.Some? ==> forall b: Addr :: ip <= b <= a ==> Contains(net.subnet.value, b))
              && (forall b: Addr :: ip <= b < a ==> net.poolEnd != Some(b) && (net.gateway == Some(b) || b in taken))
              && net.gateway != Some(a) && a !in taken
    decreases 0x1_0000_0000 - ip
  {
    hide Contains;
    if ip < 0xFFFF_FFFF {
      ScanIff(net, taken, ip + 1, a);
    }
  }

  /** The pool's answer, for any configuration. */
  lemma {:induction false} AllocateIff(net: Net, held: set<string>, a: Addr)
    ensures Allocate(net, Taken(held)) == Ok(a) <==> PoolGives(net, held, a)
  {
    forall b: Addr ensures b in Taken(held) <==> Dotted(b) in held {
      TakenByText(held, b);
    }
    hide Contains, Scan, Taken, Dotted;
    if net.poolStart.Some? {
      ScanIff(net, Taken(held), net.poolStart.value, a);
    }
  }

  predicate Inside(net: Net, a: Addr) {
    net.subnet.Some? ==> Contains(net.subnet.value, a)
  }

  predicate Skipped(net: Net, taken: set<Addr>, a: Addr) {
    net.gateway == Some(a) || a in taken
  }

  /** The search from ip gets to b: it passes over every address before. */
  predicate GetsTo(net: Net, taken: set<Addr>, ip: Addr, b: Addr) {
    ip <= b && forall c: Addr :: ip <= c < b ==> Inside(net, c) && Skipped(net, taken, c) && net.poolEnd != Some(c)
  }

  /** The search ends without an address where it leaves the subnet, or behind the last address there is. */
  lemma {:induction false} ScanErrors(net: Net, taken: set<Addr>, ip: Addr)
    ensures Scan(net, taken, ip) == Err(OutsideSubnet) <==>
            exists b: Addr :: GetsTo(net, taken, ip, b) && !Inside(net, b)
    ensures Scan(net, taken, ip) == Err(Exhausted) <==>
            exists b: Addr :: GetsTo(net, taken, ip, b) && Inside(net, b) && Skipped(net, taken, b)
                              && (net.poolEnd == Some(b) || b == 0xFFFF_FFFF)
    ensures Scan(net, taken, ip) != Err(NotConfigured)
    decreases 0x1_0000_0000 - ip
  {
    hide Contains;
    assert GetsTo(net, taken, ip, ip);
    if Inside(net, ip) && Skipped(net, taken, ip) && net.poolEnd != Some(ip) && ip < 0xFFFF_FFFF {
      ScanErrors(net, taken, ip + 1);
      forall b: Addr ensures GetsTo(net, taken, ip, b) <==> b == ip || GetsTo(net, taken, ip + 1, b) {
        if b > ip && GetsTo(net, taken, ip + 1, b) {
          forall c: Addr | ip <= c < b ensures Inside(net, c) && Skipped(net, taken, c) && net.poolEnd != Some(c) {
            assert c == ip || ip + 1 <= c;
          }
        }
      }
      hide GetsTo;
    } else {
      forall b: Addr | GetsTo(net, taken, ip, b) ensures b == ip {
        assert b > ip ==> !(Inside(net, ip) && Skipped(net, taken, ip) && net.poolEnd != Some(ip));
      }
      hide GetsTo;
    }
  }

  /** Which error an allocation ends with, for any configuration. */
  lemma {:induction false} AllocateErrors(net: Net, taken: set<Addr>)
    ensures var r := Allocate(net, taken);
            && (r == Err(NotConfigured) <==> net.poolStart.None? || net.poolEnd.None?)
            && (r == Err(OutsideSubnet) <==>
                  && net.poolStart.Some? && net.poolEnd.Some?
                  && exists b: Addr :: GetsTo(net, taken, net.poolStart.value, b) && !Inside(net, b))
            && (r == Err(Exhausted) <==>
                  && net.poolStart.Some? && net.poolEnd.Some?
                  && exists b: Addr :: GetsTo(net, taken, net.poolStart.value, b) && Inside(net, b)
                       && Skipped(net, taken, b) && (net.poolEnd == Some(b) || b == 0xFFFF_FFFF))
  {
    hide GetsTo, Inside, Skipped;
    if net.poolStart.Some? {
      ScanErrors(net, taken, net.poolStart.value);
    }
  }

  lemma {:induction false} AllocateOkIff(net: Net, held: set<string>)
    ensures Allocate(net, Taken(held)).Ok? <==> exists a: Addr :: PoolGives(net, held, a)
  {
    hide PoolGives, Allocate;
    forall a: Addr ensures Allocate(net, Taken(held)) == Ok(a) <==> PoolGives(net, held, a) {
      AllocateIff(net, held, a);
    }
  }

  /** Reserving works, and fails, by the address steps. */
  lemma {:induction false} ReserveIff(s: Settings, st: State, cfg: DomainConfig, f: Faults)
    ensures var steps := Steps(s, st, AskedOf(cfg), f);
            match Reserve(s, st.held, cfg)
            case Ok(_) => steps[2].works && steps[3].works && steps[4].works
            case Err(StaticOutsideSubnet) => !steps[2].works
            case Err(StaticTaken) => steps[2].works && !steps[3].works
            case Err(NoPoolAddress) => steps[2].works && steps[3].works && !steps[4].works
  {
    AllocateOkIff(s.defaults.net, st.held);
    hide PoolGives, Allocate, Contains, ParseV4, Taken;
  }

  // ----- Answers -----

  /** Where an error's step stands. */
  function Position(e: CreateError): (i: nat)
    ensures i < 13
  {
    match e
    case AlreadyExists => 0
    case WorkDirFailed => 1
    case AddressRefused(StaticOutsideSubnet) => 2
    case AddressRefused(StaticTaken) => 3
    case AddressRefused(NoPoolAddress) => 4
    case CloudInitFailed => 5
    case TapAddFailed => 6
    case TapSetupFailed => 7
    case VirtiofsdFailed => 8
    case ConfigFailed => 9
    case VfioFailed => 10
    case HypervisorFailed => 11
    case BootFailed => 12
  }

  lemma {:induction false} LaunchAnswers(s: Settings, st: State, cfg: DomainConfig, f: Faults, ip: string)
    ensures var steps := Steps(s, st, AskedOf(cfg), f);
            match LaunchFailure(s, cfg, f, ip)
            case None => forall i :: 8 <= i < 13 ==> steps[i].works
            case Some(e) => var i := Position(e);
                            && 8 <= i && steps[i].error == e && !steps[i].works
                            && forall j :: 8 <= j < i ==> steps[j].works
  {
    hide PoolGives, Derive, NetmaskDotted, AddIpToken, Contains, ParseV4, MaskStringFromPrefix;
  }

  lemma {:induction false} FaultFound(s: Settings, st: State, cfg: DomainConfig, f: Faults)
    ensures var steps := Steps(s, st, AskedOf(cfg), f);
            match Failure(s, st, cfg, f)
            case None => AllWork(steps)
            case Some(e) => FaultAt(steps, Position(e)) && steps[Position(e)].error == e
  {
    hide LaunchFailure, Reserve, Steps;
    ReserveIff(s, st, cfg, f);
    EarlySteps(s, st, cfg, f);
    var failure := Failure(s, st, cfg, f);
    var ip := if Reserve(s, st.held, cfg).Ok? then Reserve(s, st.held, cfg).value else "";
    LaunchAnswers(s, st, cfg, f, ip);
    if failure.Some? && Position(failure.value) < 8 {
      hide AllWork;
    } else {
      assert failure == LaunchFailure(s, cfg, f, ip);
      var steps := Steps(s, st, AskedOf(cfg), f);
      assert forall i :: 0 <= i < 8 ==> steps[i].works;
    }
  }

  lemma {:induction false} EarlySteps(s: Settings, st: State, cfg: DomainConfig, f: Faults)
    ensures var steps := Steps(s, st, AskedOf(cfg), f);
            && |steps| == 13
            && steps[0] == Step(cfg.name !in st.processes, AlreadyExists)
            && steps[1] == Step(!f.workDir, WorkDirFailed)
            && steps[2].error == AddressRefused(StaticOutsideSubnet)
            && steps[3].error == AddressRefused(StaticTaken)
            && steps[4].error == AddressRefused(NoPoolAddress)
            && steps[5] == Step(!f.cloudInit, CloudInitFailed)
            && steps[6] == Step(s.ipTool ==> f.tap !in st.host.taps && !f.tapAdd, TapAddFailed)
            && steps[7] == Step(s.ipTool ==> !f.tapUp && !f.tapBridge, TapSetupFailed)
  {
    hide PoolGives, Contains, ParseV4;
  }

  lemma {:induction false} OneFirstFault(steps: seq<Step>, e: CreateError, e': CreateError)
    requires FirstFault(steps, e)
    ensures !AllWork(steps)
    ensures FirstFault(steps, e') ==> e == e'
  {
    if FirstFault(steps, e') {
      var i :| 0 <= i < |steps| && FaultAt(steps, i) && steps[i].error == e;
      var j :| 0 <= j < |steps| && FaultAt(steps, j) && steps[j].error == e';
      assert i == j;
    }
  }

  /** A create returns no error exactly when every step works, and otherwise the error of the first that does not. */
  lemma {:induction false} FirstFaultDecides(s: Settings, st: State, cfg: DomainConfig, f: Faults)
    ensures var steps := Steps(s, st, AskedOf(cfg), f);
            && (Failure(s, st, cfg, f).None? <==> AllWork(steps))
            && forall e :: Failure(s, st, cfg, f) == Some(e) <==> FirstFault(steps, e)
  {
    FaultFound(s, st, cfg, f);
    hide Failure, Steps, AllWork, FaultAt;
    var steps := Steps(s, st, AskedOf(cfg), f);
    EarlySteps(s, st, cfg, f);
    assert Failure(s, st, cfg, f).Some? ==> FirstFault(steps, Failure(s, st, cfg, f).value);
    hide FirstFault;
    forall e, e' | FirstFault(steps, e) ensures !AllWork(steps) && (FirstFault(steps, e') ==> e == e') {
      OneFirstFault(steps, e, e');
    }
  }

  /** A create that registers a VM under a name nobody had. */
  predicate RegistersNew(s: Settings, st: State, cfg: DomainConfig, env: map<string, string>, f: Faults) {
    cfg.name !in st.processes && cfg.name in Create(s, st, cfg, env, f).processes
  }

  lemma {:induction false} RegistersUnlessFailure(s: Settings, st: State, cfg: DomainConfig, env: map<string, string>,
      f: Faults)
    ensures RegistersNew(s, st, cfg, env, f) <==> Failure(s, st, cfg, f).None?
    ensures !RegistersNew(s, st, cfg, env, f) ==> Create(s, st, cfg, env, f).processes == st.processes
  {
    hide LaunchFailure, NewProcess, Reserve;
  }

  /** A create registers a new name exactly when every stage it runs meets no fault. */
  lemma {:induction false} RegistersIff(s: Settings, st: State, cfg: DomainConfig, env: map<string, string>, f: Faults)
    ensures var net := s.defaults.net;
            var staticIP := if cfg.bridge.Some? then cfg.bridge.value.staticIP else "";
            RegistersNew(s, st, cfg, env, f) <==>
            && cfg.name !in st.processes && !f.workDir
            && (if staticIP == "" then exists a: Addr :: PoolGives(net, st.held, a)
                else && staticIP !in st.held
                     && (net.subnet.Some? ==>
                           if ParseV4(staticIP).Some? then Contains(net.subnet.value, ParseV4(staticIP).value)
                           else staticIP !in s.v6))
            && !f.cloudInit
            && (s.ipTool ==> f.tap !in st.host.taps && !f.tapAdd && !f.tapUp && !f.tapBridge)
            && (!s.skipValidation && s.virtiofsd ==> !f.virtiofsdStat && f.mountsStarted >= |cfg.mounts|)
            && (cfg.kernel != "" || s.defaults.kernel != "") && (cfg.initramfs != "" || s.defaults.initramfs != "")
            && (cfg.vfioDevices != [] ==> !f.vfio)
            && !f.logFile && !f.hypervisorStart && !f.apiSocket && !f.boot
  {
    hide PoolGives, Contains, ParseV4, Failure, Create;
    FirstFaultDecides(s, st, cfg, f);
    RegistersUnlessFailure(s, st, cfg, env, f);
    hide RegistersNew;
    var steps := Steps(s, st, AskedOf(cfg), f);
    assert AllWork(steps) <==>
        && steps[0].works && steps[1].works && steps[2].works && steps[3].works && steps[4].works
        && steps[5].works && steps[6].works && steps[7].works && steps[8].works && steps[9].works
        && steps[10].works && steps[11].works && steps[12].works;
  }

  /** The address a create reserves: the static one, or the one the pool gives. */
  lemma {:induction false} ReservedIs(s: Settings, st: State, cfg: DomainConfig, f: Faults)
    ensures Reserve(s, st.held, cfg).Ok? ==>
              var ip := Reserve(s, st.held, cfg).value;
              var staticIP := if cfg.bridge.Some? then cfg.bridge.value.staticIP else "";
              if staticIP != "" then ip == staticIP
              else exists a: Addr :: PoolGives(s.defaults.net, st.held, a) && ip == Dotted(a)
  {
    hide Contains, ParseV4, Taken, Dotted, PoolGives;
    if StaticAddress(cfg) == "" && Reserve(s, st.held, cfg).Ok? {
      AllocateIff(s.defaults.net, st.held, Allocate(s.defaults.net, Taken(st.held)).value);
      hide Allocate;
    }
  }

  /** The processes of a new VM: one for each served mount and one for the hypervisor, none seen before. */
  ghost predicate OwnProcesses(before: Host, after: Host, vm: VMProcess, mounts: nat) {
    && |vm.virtiofsd| == mounts && vm.pid == before.nextPid + mounts
    && (forall i :: 0 <= i < mounts ==> vm.virtiofsd[i] == before.nextPid + i)
    && (forall pid :: pid in after.procs <==> pid in before.procs || pid in vm.virtiofsd || pid == vm.pid)
    && after.nextPid == vm.pid + 1
  }

  /** What a create that works adds to the registry, the address table and the host. */
  lemma {:induction false} RegistersThis(s: Settings, st: State, cfg: DomainConfig, env: map<string, string>, f: Faults)
    ensures var after := Create(s, st, cfg, env, f);
            RegistersNew(s, st, cfg, env, f) ==>
              var vm := after.processes[cfg.name];
              var staticIP := if cfg.bridge.Some? then cfg.bridge.value.staticIP else "";
              && after.processes == st.processes[cfg.name := vm] && vm.name == cfg.name && vm.tap == f.tap
              && (if staticIP != "" then vm.ip == staticIP
                  else exists a: Addr :: PoolGives(s.defaults.net, st.held, a) && vm.ip == Dotted(a))
              && after.held == st.held + {vm.ip}
              && OwnProcesses(st.host, after.host, vm, if !s.skipValidation && s.virtiofsd then |cfg.mounts| else 0)
              && after.host.taps == (if s.ipTool then st.host.taps + {f.tap} else st.host.taps)
              && after.host.dirs == st.host.dirs + {cfg.name}
  {
    hide Reserve, BuildVMConfig, Derive, CloudInit, GuestEnv, PoolGives, Dotted;
    ReservedIs(s, st, cfg, f);
  }

  /** The payload the hypervisor of a new VM is given, and its TAP. */
  lemma {:induction false} Boots(s: Settings, st: State, cfg: DomainConfig, env: map<string, string>, f: Faults)
    ensures RegistersNew(s, st, cfg, env, f) ==>
              var vm := Create(s, st, cfg, env, f).processes[cfg.name].config;
              && vm.kernel == (if cfg.kernel != "" then cfg.kernel else s.defaults.kernel)
              && vm.initramfs == (if cfg.initramfs != "" then cfg.initramfs else s.defaults.initramfs)
              && vm.kernel != "" && vm.initramfs != "" && vm.tap == f.tap
  {
    hide Reserve, Derive, CloudInit, GuestEnv, AddIpToken, NetmaskDotted, MaskStringFromPrefix;
  }

  /** The process ids a create uses up, by the stage it gets to. */
  lemma {:induction false} PidsUsed(s: Settings, st: State, cfg: DomainConfig, env: map<string, string>, f: Faults)
    ensures var served := if !s.skipValidation && s.virtiofsd then |cfg.mounts| else 0;
            Create(s, st, cfg, env, f).host.nextPid == st.host.nextPid +
              match Failure(s, st, cfg, f)
              case None => served + 1
              case Some(VirtiofsdFailed) => if f.virtiofsdStat then 0 else f.mountsStarted
              case Some(ConfigFailed) => served
              case Some(VfioFailed) => served
              case Some(HypervisorFailed) => served + if f.logFile || f.hypervisorStart then 0 else 1
              case Some(BootFailed) => served + 1
              case Some(_) => 0
  {
    hide Reserve, BuildVMConfig, Derive, CloudInit, GuestEnv;
  }

  /** What a destroy takes from the registry, the address table and the host, one by one. */
  lemma {:induction false} DestroyRemoves(s: Settings, st: State, name: string, f: Faults)
    ensures var after := Destroy(s, st, name, f);
            if name !in st.processes then after == st
            else
              var vm := st.processes[name];
              && after.processes == st.processes - {name}
              && (forall ip :: ip in after.held <==> ip in st.held && ip != vm.ip)
              && (forall p :: p in after.host.procs <==>
                    p in st.host.procs && p != vm.pid && (s.skipValidation || p !in vm.virtiofsd))
              && (forall t :: t in after.host.taps <==>
                    t in st.host.taps && !(s.ipTool && !f.tapDelete && t == vm.tap))
              && (forall d :: d in after.host.dirs <==> d in st.host.dirs && (f.workDirRemove || d != name))
  {
  }
}
