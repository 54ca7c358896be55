/**
 The answers of StartTask and DestroyTask, told from the task's request and
 the state alone, and what a started task's VM is made of.
 */
module Tasks {
  import opened Outcomes
  import opened Text
  import opened Ipv4
  import opened Pool
  import opened Guest
  import opened Virtualizer
  import opened Rules
  import opened NetController
  import opened Ledger
  import opened Plugin
  import opened WholeSystem
  import opened Creates
  import opened Vfio
  import opened Bindings
  import opened Builds

  // ----- Requests -----

  /** A domain is named after the task and its unique id; the allocation is left out. */
  lemma {:induction false} NameOfTask(alloc: string, task: string, unique: string)
    requires '/' !in alloc && '/' !in task && '/' !in unique
    ensures DomainName(alloc + "/" + task + "/" + unique) == task + "-" + unique
  {
    hide Split;
    var parts := [alloc, task, unique];
    SplitJoin(parts, '/');
    assert parts[1..] == [task, unique];
    JoinTwo(task, unique, "/");
    JoinTwo(task, unique, "-");
    assert Join(parts, "/") == alloc + "/" + (task + "/" + unique);
    assert alloc + "/" + (task + "/" + unique) == alloc + "/" + task + "/" + unique;
    assert "/" == ['/'];
  }

  lemma {:induction false} JoinTwo(a: string, b: string, sep: string)
    ensures Join([a, b], sep) == a + sep + b
  {
    assert [a, b][1..] == [b];
  }

  /** The request passes StartTask's checks: a new id with a name, and a bridge block only with a name. */
  predicate Accepted(sys: System, id: string, req: TaskRequest) {
    && id !in sys.tasks && req.checksPass && DomainName(id) != ""
    && (req.bridge.Some? ==> req.bridge.value.name != "")
  }

  /** What the driver is asked for. */
  function VmAsked(id: string, req: TaskRequest): Asked {
    Asked(DomainName(id), if req.bridge.Some? then req.bridge.value.staticIP else "", |req.mounts|,
          req.kernel, req.initramfs, |req.vfioDevices|)
  }

  /** What the network controller is asked for. */
  function NetAsked(req: TaskRequest): Ask {
    Ask(if req.bridge.Some? then req.bridge.value.ports else [], req.ports)
  }

  function TaskBridgeName(p: Setup, req: TaskRequest): string {
    if req.bridge.Some? then req.bridge.value.name else if p.bridge != "" then p.bridge else "br0"
  }

  lemma {:induction false} AcceptedIff(p: Setup, sys: System, id: string, req: TaskRequest)
    ensures Accepted(sys, id, req) <==> id !in sys.tasks && Acceptable(p, DomainName(id), req)
    ensures VmAsked(id, req) == AskedOf(TaskConfig(p, DomainName(id), req))
  {
    hide DomainName;
  }

  /** How the controller writes an address the driver holds: an IPv6 one in its canonical form, any other as it is. */
  function AsSeen(s: Settings, ip: string): string {
    if ParseV4(ip).None? && ip in s.v6 && s.v6[ip] != "" then s.v6[ip] else ip
  }

  /** A reserved address always gives the controller something to forward to. */
  lemma {:induction false} TargetThere(p: Setup, held: set<string>, name: string, req: TaskRequest)
    requires Reserve(p.driver, held, TaskConfig(p, name, req)).Ok?
    ensures var ip := Reserve(p.driver, held, TaskConfig(p, name, req)).value;
            Target(NetRequest(p, req, ip)) == AsSeen(p.driver, ip) != ""
  {
    var ip := Reserve(p.driver, held, TaskConfig(p, name, req)).value;
    if StaticAddress(TaskConfig(p, name, req)) == "" {
      ParseDotted(Allocate(p.driver.defaults.net, Taken(held)).value);
    }
    if ParseV4(ip).Some? {
      DottedParse(ip);
      NoEmptyAddress(ParseV4(ip).value);
    }
    hide Dotted, ParseV4;
  }

  lemma {:induction false} NoEmptyAddress(a: Addr)
    ensures Dotted(a) != ""
  {
    ParseDotted(a);
  }

  // ----- Starting -----

  /** A start's result in terms of its create and its build. */
  lemma {:induction false} StartThrough(p: Setup, sys: System, id: string, req: TaskRequest)
    ensures var r := Start(p, sys, id, req).result;
            var cfg := TaskConfig(p, DomainName(id), req);
            if id in sys.tasks then r == AlreadyStarted
            else if !Accepted(sys, id, req) then r == Invalid
            else match Failure(p.driver, sys.vms, cfg, req.create)
              case Some(e) => r == NotCreated(e)
              case None =>
                && Reserve(p.driver, sys.vms.held, cfg).Ok?
                && match BuildNetwork(p.bridge, NetRequest(p, req, Reserve(p.driver, sys.vms.held, cfg).value),
                                      req.net).result
                   case Err(e) => r == NoNetwork(e)
                   case Ok(response) => r == if req.stateEncodes then Started(response.driverIP) else StateNotStored
  {
    AcceptedIff(p, sys, id, req);
    CreateOutcome(p.driver, sys.vms, TaskConfig(p, DomainName(id), req), req.env, req.create);
    hide Create, Failure, Reserve, BuildNetwork, DomainName, NetRequest, Acceptable, Accepted, Destroy, Record,
        TaskConfig;
  }

  /** Every answer of a start, and exactly when it is given. */
  lemma {:induction false} StartAnswers(p: Setup, sys: System, id: string, req: TaskRequest)
    ensures var r := Start(p, sys, id, req).result;
            var steps := Steps(p.driver, sys.vms, VmAsked(id, req), req.create);
            var created := Accepted(sys, id, req) && AllWork(steps);
            var bridge := BridgeThere(p.bridge, TaskBridgeName(p, req), req.net.bridges);
            var built := created && bridge && (req.net.iptables ==> GetsThrough(NetAsked(req), req.net));
            && (r == AlreadyStarted <==> id in sys.tasks)
            && (r == Invalid <==> id !in sys.tasks && !Accepted(sys, id, req))
            && (forall e :: r == NotCreated(e) <==> Accepted(sys, id, req) && FirstFault(steps, e))
            && (r == NoNetwork(BuildError.NoBridge) <==> created && !bridge)
            && (r != NoNetwork(NoAddress))
            && (r == NoNetwork(AppendFailed) <==>
                  created && bridge && req.net.iptables && AppendBreaks(NetAsked(req), req.net))
            && (r == NoNetwork(NoInterface) <==>
                  created && bridge && req.net.iptables && InterfaceMissing(NetAsked(req), req.net))
            && (r == StateNotStored <==> built && !req.stateEncodes)
            && (r.Started? <==> built && req.stateEncodes)
  {
    var cfg := TaskConfig(p, DomainName(id), req);
    AcceptedIff(p, sys, id, req);
    FirstFaultDecides(p.driver, sys.vms, cfg, req.create);
    StartThrough(p, sys, id, req);
    assert Accepted(sys, id, req) ==> id !in sys.tasks;
    hide *;
    if Accepted(sys, id, req) && Failure(p.driver, sys.vms, cfg, req.create).None? {
      TargetThere(p, sys.vms.held, DomainName(id), req);
      var ip := Reserve(p.driver, sys.vms.held, cfg).value;
      BuildAnswers(p.bridge, NetRequest(p, req, ip), req.net);
      RequestedNet(p, req, ip);
    }
  }

  /** The address Nomad is told, with any configuration: the VM's, as the controller writes it. */
  lemma {:induction false} StartedAddress(p: Setup, sys: System, id: string, req: TaskRequest)
    ensures var start := Start(p, sys, id, req);
            start.result.Started? ==>
              && DomainName(id) in start.system.vms.processes
              && start.result.driverIP == Some(AsSeen(p.driver, start.system.vms.processes[DomainName(id)].ip))
  {
    hide *;
    if Start(p, sys, id, req).result.Started? {
      StartedSystem(p, sys, id, req);
      TargetThere(p, sys.vms.held, DomainName(id), req);
      var ip := Reserve(p.driver, sys.vms.held, TaskConfig(p, DomainName(id), req)).value;
      BuildAnswers(p.bridge, NetRequest(p, req, ip), req.net);
      RequestedNet(p, req, ip);
    }
  }

  lemma {:induction false} RequestedNet(p: Setup, req: TaskRequest, ip: string)
    ensures var r := NetRequest(p, req, ip);
            && r.netInterface.Some? && r.reserved.Some?
            && r.netInterface.value.bridgeName == TaskBridgeName(p, req)
            && Ask(r.netInterface.value.ports, r.reserved.value) == NetAsked(req)
  {
  }

  // ----- What a start leaves -----

  /** The rules of a started task: its reserved ports, in order, forwarded to the address. */
  ghost predicate Forwards(rules: seq<Rule>, req: TaskRequest, ip: string) {
    && RulesOf(rules, NetAsked(req), req.net, ip)
    && |rules| == if req.net.iptables then 2 * |ReservedLabels(NetAsked(req).labels, req.ports)| else 0
  }

  /** The address a task's VM gets: its own static one, else the one the pool gives. */
  ghost predicate Addressed(p: Setup, sys: System, req: TaskRequest, ip: string) {
    if req.bridge.Some? && req.bridge.value.staticIP != "" then ip == req.bridge.value.staticIP
    else exists a: Addr :: PoolGives(p.driver.defaults.net, sys.vms.held, a) && ip == Dotted(a)
  }

  /** What the request says of the VM: its address, payload, TAP and mounts. */
  ghost predicate MadeFor(p: Setup, sys: System, req: TaskRequest, vm: VMProcess, after: Host) {
    && Addressed(p, sys, req, vm.ip)
    && vm.tap == req.create.tap
    && vm.config.kernel == (if req.kernel != "" then req.kernel else p.driver.defaults.kernel)
    && vm.config.initramfs == (if req.initramfs != "" then req.initramfs else p.driver.defaults.initramfs)
    && OwnProcesses(sys.vms.host, after, vm, if !p.driver.skipValidation && p.driver.virtiofsd then |req.mounts| else 0)
  }

  /** The VM a create registers for a request. */
  lemma {:induction false} CreatedFor(p: Setup, sys: System, id: string, req: TaskRequest)
    ensures var cfg := TaskConfig(p, DomainName(id), req);
            var created := Create(p.driver, sys.vms, cfg, req.env, req.create);
            Failure(p.driver, sys.vms, cfg, req.create).None? ==>
              && DomainName(id) !in sys.vms.processes && DomainName(id) in created.processes
              && var vm := created.processes[DomainName(id)];
                 && created.processes == sys.vms.processes[DomainName(id) := vm]
                 && vm.name == DomainName(id)
                 && created.held == sys.vms.held + {vm.ip}
                 && MadeFor(p, sys, req, vm, created.host)
  {
    var cfg := TaskConfig(p, DomainName(id), req);
    hide DomainName, Create, Failure, OwnProcesses, PoolGives, Dotted;
    RegistersUnlessFailure(p.driver, sys.vms, cfg, req.env, req.create);
    RegistersThis(p.driver, sys.vms, cfg, req.env, req.create);
    Boots(p.driver, sys.vms, cfg, req.env, req.create);
  }

  /**
   A started task's VM, its address, its rules and its handle, each from the request
   (with a subnet, as every driver that starts has, and books that hold the registered VMs).
   */
  lemma {:induction false} StartedTask(p: Setup, sys: System, id: string, req: TaskRequest)
    requires p.driver.defaults.net.subnet.Some? && sys.books.live.Keys == sys.vms.processes.Keys
    ensures var start := Start(p, sys, id, req);
            var name := DomainName(id);
            var after := start.system;
            start.result.Started? ==>
              && name !in sys.vms.processes && name in after.vms.processes
              && var vm := after.vms.processes[name];
                 && after.vms.processes == sys.vms.processes[name := vm] && vm.name == name
                 && after.vms.held == sys.vms.held + {vm.ip}
                 && MadeFor(p, sys, req, vm, after.vms.host)
                 && start.result.driverIP == Some(vm.ip)
                 && name in after.books.live
                 && var rules := after.books.live[name];
                    && Forwards(rules, req, vm.ip)
                    && after.books
                       == Books(AppendRules(sys.books.tables, rules), sys.books.live[name := rules], sys.books.orphans)
                    && after.tasks == sys.tasks[id := Handle(name, Some(rules))]
  {
    hide *;
    if Start(p, sys, id, req).result.Started? {
      StartedSystem(p, sys, id, req);
      CreatedFor(p, sys, id, req);
      var name := DomainName(id);
      var cfg := TaskConfig(p, name, req);
      var ip := Reserve(p.driver, sys.vms.held, cfg).value;
      var build := BuildNetwork(p.bridge, NetRequest(p, req, ip), req.net);
      StartedBuild(p, sys, name, req, ip);
      BuiltIsLive(sys.books, name, build.appended);
    }
  }

  lemma {:induction false} StartedSystem(p: Setup, sys: System, id: string, req: TaskRequest)
    requires Start(p, sys, id, req).result.Started?
    ensures var name := DomainName(id);
            var cfg := TaskConfig(p, name, req);
            && Failure(p.driver, sys.vms, cfg, req.create).None? && Reserve(p.driver, sys.vms.held, cfg).Ok?
            && var created := Create(p.driver, sys.vms, cfg, req.env, req.create);
               var ip := Reserve(p.driver, sys.vms.held, cfg).value;
               var build := BuildNetwork(p.bridge, NetRequest(p, req, ip), req.net);
            && name in created.processes && created.processes[name].ip == ip
            && build.result.Ok?
            && Start(p, sys, id, req).result == Started(build.result.value.driverIP)
            && Start(p, sys, id, req).system
               == System(created, Record(sys.books, Built(name, build.appended)),
                         sys.tasks[id := Handle(name, build.result.value.teardown)])
  {
    assert TaskConfig(p, DomainName(id), req).name == DomainName(id);
    CreateOutcome(p.driver, sys.vms, TaskConfig(p, DomainName(id), req), req.env, req.create);
    hide Create, Failure, Reserve, BuildNetwork, DomainName, NetRequest, Acceptable, Destroy, Record, TaskConfig;
  }

  lemma {:induction false} StartedBuild(p: Setup, sys: System, name: string, req: TaskRequest, ip: string)
    requires p.driver.defaults.net.subnet.Some?
    requires Reserve(p.driver, sys.vms.held, TaskConfig(p, name, req)) == Ok(ip)
    ensures var build := BuildNetwork(p.bridge, NetRequest(p, req, ip), req.net);
            build.result.Ok? ==>
              && build.result.value == Response(Some(ip), Some(build.appended))
              && Forwards(build.appended, req, ip)
  {
    ControllerUsesReserved(p, sys.vms.held, name, req);
    TargetIs(NetRequest(p, req, ip));
    BuildAnswers(p.bridge, NetRequest(p, req, ip), req.net);
    BuildAppends(p.bridge, NetRequest(p, req, ip), req.net);
    RequestedNet(p, req, ip);
    hide Reserve, BuildNetwork, NetRequest, TaskConfig, RulesOf, ReservedLabels, Target, GuestAddress, GetsThrough,
        AppendBreaks, InterfaceMissing, NetAsked;
  }

  lemma {:induction false} BuiltIsLive(b: Books, name: string, rules: seq<Rule>)
    requires name !in b.live
    ensures Record(b, Built(name, rules)) == Books(AppendRules(b.tables, rules), b.live[name := rules], b.orphans)
  {
  }

  lemma {:induction false} TargetIs(r: BuildRequest)
    requires r.netInterface.Some?
    ensures GuestAddress(r) == if Target(r) != "" then Some(Target(r)) else None
  {
  }

  /** The create a start asks for, with what its VFIO stage meets. */
  function DeviceCreate(p: Setup, id: string, req: TaskRequest, run: Passthrough): (e: DeviceEvent)
    requires Covers(run, req.vfioDevices)
    ensures WellFormed(e)
  {
    CreateWith(TaskConfig(p, DomainName(id), req), req.env, req.create, run)
  }

  /** Adding the devices fails. */
  predicate AddingFails(groups: Groups, drivers: Drivers, devices: seq<string>, run: Passthrough)
    requires Covers(run, devices)
  {
    !AddStage(groups, drivers, devices, run).Empty? && !AddStage(groups, drivers, devices, run).Added?
  }

  lemma {:induction false} FaultsMatch(groups: Groups, d: Drivers, e: DeviceEvent)
    requires e.CreateWith? && WellFormed(e)
    requires e.f.vfio <==> AddingFails(groups, d, e.cfg.vfioDevices, e.run)
    ensures FaultsOf(groups, d, e) == e.f
  {
    hide AddStage;
    SameFaults(e.f, FaultsOf(groups, d, e).vfio);
    hide *;
  }

  lemma {:induction false} SameFaults(f: Faults, vfio: bool)
    requires f.vfio == vfio
    ensures f.(vfio := vfio) == f
  {
  }

  lemma {:induction false} ActCreates(s: Settings, groups: Groups, m: Machine, e: DeviceEvent)
    requires e.CreateWith? && WellFormed(e)
    ensures Act(s, groups, m, e).vms == Create(s, m.vms, e.cfg, e.env, FaultsOf(groups, m.drivers, e))
  {
    hide Create, AddDrivers, Reaches, FaultsOf;
  }

  lemma {:induction false} DeviceFaults(p: Setup, id: string, req: TaskRequest, groups: Groups, m: Machine,
      run: Passthrough)
    requires Covers(run, req.vfioDevices) && (req.create.vfio <==> AddingFails(groups, m.drivers, req.vfioDevices, run))
    ensures var e := DeviceCreate(p, id, req, run);
            && Act(p.driver, groups, m, e).vms
               == Create(p.driver, m.vms, TaskConfig(p, DomainName(id), req), req.env, req.create)
            && (Failure(p.driver, m.vms, TaskConfig(p, DomainName(id), req), req.create).None? ==>
                  AllOnVfio(Act(p.driver, groups, m, e).drivers, req.vfioDevices))
  {
    var e := DeviceCreate(p, id, req, run);
    assert e.cfg.vfioDevices == req.vfioDevices && e.cfg == TaskConfig(p, DomainName(id), req) && e.f == req.create;
    hide *;
    FaultsMatch(groups, m.drivers, e);
    ActCreates(p.driver, groups, m, e);
    LateFailureKeepsBindings(p.driver, groups, m, e);
  }

  /**
   The devices of a request, when the VFIO stage of its create fails just when adding
   them does: they are what the VFIO manager is asked for, and a start that answers
   Started leaves all of them on vfio-pci.
   */
  lemma {:induction false} StartedDevices(p: Setup, sys: System, id: string, req: TaskRequest, groups: Groups,
      drivers: Drivers, run: Passthrough)
    requires Covers(run, req.vfioDevices) && (req.create.vfio <==> AddingFails(groups, drivers, req.vfioDevices, run))
    ensures var after := Act(p.driver, groups, Machine(sys.vms, drivers), DeviceCreate(p, id, req, run));
            Start(p, sys, id, req).result.Started? ==>
              Start(p, sys, id, req).system.vms == after.vms && AllOnVfio(after.drivers, req.vfioDevices)
  {
    hide *;
    DeviceFaults(p, id, req, groups, Machine(sys.vms, drivers), run);
    if Start(p, sys, id, req).result.Started? {
      StartedSystem(p, sys, id, req);
    }
  }

  // ----- Destroying -----

  /** The destroy gets as far as the virtualizer. */
  predicate Destroys(sys: System, id: string, req: DestroyRequest) {
    id in sys.tasks && (req.running ==> req.force) && DomainName(id) in sys.vms.processes
  }

  /** Some rule of the stored specification cannot be deleted. */
  predicate RuleStays(spec: Option<seq<Rule>>, req: DestroyRequest) {
    spec.Some? && req.iptables && exists i :: 0 <= i < |spec.value| && i in req.fails
  }

  /** Every answer of a destroy, and exactly when it is given. */
  lemma {:induction false} DestroyAnswers(p: Setup, sys: System, id: string, req: DestroyRequest)
    ensures var r := EndTask(p, sys, id, req).result;
            && (r == NoTask <==> id !in sys.tasks)
            && (r == StillRunning <==> id in sys.tasks && req.running && !req.force)
            && (r == NoDomain <==>
                  id in sys.tasks && (req.running ==> req.force) && DomainName(id) !in sys.vms.processes)
            && (r == NetworkLeft <==> Destroys(sys, id, req) && RuleStays(sys.tasks[id].teardown, req))
            && (r == Destroyed <==> Destroys(sys, id, req) && !RuleStays(sys.tasks[id].teardown, req))
  {
    hide DomainName, Destroy, TearDown;
  }

  /** The rules a destroy leaves in the chains: those of the failed deletions, or all of them without iptables. */
  function LeftRules(sys: System, id: string, req: DestroyRequest): seq<Rule> {
    if id !in sys.tasks || sys.tasks[id].teardown.None? then []
    else if req.iptables then Undeleted(sys.tasks[id].teardown.value, req.fails)
    else sys.tasks[id].teardown.value
  }

  /** A destroy that gets through takes the VM and its address away, whatever its teardown meets. */
  lemma {:induction false} DestroyTakes(p: Setup, sys: System, id: string, req: DestroyRequest)
    ensures var end := EndTask(p, sys, id, req);
            var name := DomainName(id);
            if !Destroys(sys, id, req) then end.system == sys
            else
              && end.system.vms.processes == sys.vms.processes - {name}
              && end.system.vms.held == sys.vms.held - {sys.vms.processes[name].ip}
              && end.system.books.live == sys.books.live - {name}
              && end.system.books.orphans == sys.books.orphans + LeftRules(sys, id, req)
              && end.system.tasks == if end.result == Destroyed then sys.tasks - {name} else sys.tasks
  {
    hide DomainName, Teardown, Undeleted;
  }

  /**
   With iptables on the host a destroy answers Destroyed exactly when it leaves no rule of the task
   behind, and NetworkLeft exactly when it does; without iptables it answers Destroyed all the same.
   */
  lemma {:induction false} AnswerTellsRules(p: Setup, sys: System, id: string, req: DestroyRequest)
    ensures var r := EndTask(p, sys, id, req).result;
            LeavesRules(p, sys, DestroyEvent(id, req)) <==>
            || r == NetworkLeft
            || (r == Destroyed && !req.iptables && sys.tasks[id].teardown.Some? && sys.tasks[id].teardown.value != [])
    ensures EndTask(p, sys, id, req).result == Destroyed && req.iptables ==> LeftRules(sys, id, req) == []
    ensures EndTask(p, sys, id, req).result == NetworkLeft ==> LeftRules(sys, id, req) != []
  {
    DestroyAnswers(p, sys, id, req);
    hide DomainName, EndTask;
    if id in sys.tasks && sys.tasks[id].teardown.Some? {
      UndeletedIff(sys.tasks[id].teardown.value, req.fails);
    }
  }

  lemma {:induction false} UndeletedIff(rules: seq<Rule>, fails: set<nat>)
    ensures Undeleted(rules, fails) == [] <==> forall i :: 0 <= i < |rules| ==> i !in fails
  {
    if rules != [] {
      UndeletedIff(rules[..|rules| - 1], fails);
    }
  }
}
