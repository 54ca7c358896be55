/**
 The driver plugin: StartTask and DestroyTask as ordered calls on the
 virtualizer, the network controller and the task store.
 */
module Plugin {
  import opened Outcomes
  import opened Text
  import opened Ipv4
  import opened Guest
  import opened Virtualizer
  import opened Chains
  import opened Rules
  import opened NetController
  import opened Ledger

  /** "allocID/taskName/uniqueID" without its first part, joined by dashes. */
  function DomainName(taskID: string): string {
    Join(Split(taskID, '/')[1..], "-")
  }

  /** A task as Nomad asks for it, and what the calls it leads to meet. */
  datatype TaskRequest = TaskRequest(
    checksPass: bool,      // decoding, image look-up and copy, and the other configuration checks
    hostname: string, bridge: Option<Bridge>, mounts: seq<string>,
    kernel: string, initramfs: string, cmdline: string, vfioDevices: seq<string>,
    env: map<string, string>, ports: map<string, Port>,
    create: Faults, net: HostNet, destroy: Faults,
    stateEncodes: bool)    // the driver state can be stored in the Nomad handle

  datatype Handle = Handle(name: string, teardown: Option<seq<Rule>>)

  /** The configuration of the plugin: the virtualizer's, and the default bridge. */
  datatype Setup = Setup(driver: Settings, bridge: string)

  /** The whole system; the books hold the chains and, as history, who each rule is for. */
  datatype System = System(vms: State, books: Books, tasks: map<string, Handle>)

  datatype StartResult =
    | AlreadyStarted | Invalid | NotCreated(create: CreateError) | NoNetwork(net: BuildError) | StateNotStored
    | Started(driverIP: Option<string>)

  /** The task's bridge block, or the default one. */
  function TaskBridge(p: Setup, req: TaskRequest): Bridge {
    if req.bridge.Some? then req.bridge.value else Bridge(OrElse(p.bridge, "br0"), [], "", "", "", [])
  }

  function TaskConfig(p: Setup, name: string, req: TaskRequest): DomainConfig {
    DomainConfig(name, OrElse(req.hostname, "nomad-" + name), Some(TaskBridge(p, req)), req.mounts,
                 req.kernel, req.initramfs, req.cmdline, req.vfioDevices)
  }

  /** Validate's checks on the name and the bridge; the others are in checksPass. */
  predicate Acceptable(p: Setup, name: string, req: TaskRequest) {
    req.checksPass && name != "" && TaskBridge(p, req).name != ""
  }

  /** The addresses GetNetworkInterfaces reports for a VM: its own, if it is one. */
  function GuestIPs(s: Settings, ip: string): seq<string> {
    match ReadAddr(s, ip)
    case V4(a) => [Dotted(a)]
    case V6(text) => [text]
    case NotAnAddress => []
  }

  function NetRequest(p: Setup, req: TaskRequest, ip: string): BuildRequest {
    var b := TaskBridge(p, req);
    BuildRequest(Some(NetInterface(b.name, b.ports, b.staticIP)), Some(req.ports), GuestIPs(p.driver, ip))
  }

  /** What StartTask does and returns. */
  datatype StartOutcome = StartOutcome(system: System, result: StartResult)

  function Start(p: Setup, sys: System, id: string, req: TaskRequest): StartOutcome {
    var name := DomainName(id);
    if id in sys.tasks then StartOutcome(sys, AlreadyStarted)
    else if !Acceptable(p, name, req) then StartOutcome(sys, Invalid)
    else
      var cfg := TaskConfig(p, name, req);
      var created := Create(p.driver, sys.vms, cfg, req.env, req.create);
      match Failure(p.driver, sys.vms, cfg, req.create)
      case Some(e) => StartOutcome(sys.(vms := created), NotCreated(e))
      case None =>
        var build := BuildNetwork(p.bridge, NetRequest(p, req, created.processes[name].ip), req.net);
        match build.result
        case Err(e) =>
          StartOutcome(System(Destroy(p.driver, created, name, req.destroy),
                              Record(sys.books, BuildFailed(build.appended)), sys.tasks),
                       NoNetwork(e))
        case Ok(response) =>
          var books := Record(sys.books, Built(name, build.appended));
          if !req.stateEncodes then StartOutcome(System(created, books, sys.tasks), StateNotStored)
          else StartOutcome(System(created, books, sys.tasks[id := Handle(name, response.teardown)]),
                            Started(response.driverIP))
  }

  datatype DestroyRequest = DestroyRequest(force: bool, running: bool, faults: Faults, iptables: bool, fails: set<nat>)

  datatype DestroyResult = NoTask | StillRunning | NoDomain | NetworkLeft | Destroyed

  datatype DestroyOutcome = DestroyOutcome(system: System, result: DestroyResult)

  /** The books after a teardown of the handle's specification for a domain. */
  function TearDown(b: Books, name: string, spec: seq<Rule>, iptables: bool, fails: set<nat>): Books {
    Books(Teardown(b.tables, spec, iptables, fails), b.live - {name},
          b.orphans + if iptables then Undeleted(spec, fails) else spec)
  }

  /** What DestroyTask does; it deletes the store entry under the domain's name, not the task's id. */
  function EndTask(p: Setup, sys: System, id: string, req: DestroyRequest): DestroyOutcome {
    if id !in sys.tasks then DestroyOutcome(sys, NoTask)
    else
      var name := DomainName(id);
      if req.running && !req.force then DestroyOutcome(sys, StillRunning)
      else if name !in sys.vms.processes then DestroyOutcome(sys, NoDomain)
      else
        var vms := Destroy(p.driver, sys.vms, name, req.faults);
        match sys.tasks[id].teardown
        case None => DestroyOutcome(System(vms, sys.books.(live := sys.books.live - {name}), sys.tasks - {name}),
                                 Destroyed)
        case Some(spec) =>
          var books := TearDown(sys.books, name, spec, req.iptables, req.fails);
          if TeardownReportsNil(spec, req.iptables, req.fails) then
            DestroyOutcome(System(vms, books, sys.tasks - {name}), Destroyed)
          else DestroyOutcome(System(vms, books, sys.tasks), NetworkLeft)
  }

  class VirtDriverPlugin {
    const virtualizer: Driver
    const networkController: Controller
    var tasks: map<string, Handle>
    ghost var live: map<string, seq<Rule>>
    ghost var orphans: seq<Rule>

    /** What every call of the plugin needs and leaves: a sane host, and a specification for each VM. */
    ghost predicate Valid()
      reads this, virtualizer
    {
      HostOk(virtualizer.host) && live.Keys == virtualizer.processes.Keys
    }

    ghost function Current(): System
      reads this, virtualizer, networkController
    {
      System(virtualizer.Current(), Books(networkController.Contents(), live, orphans), tasks)
    }

    function Configuration(): Setup
      reads virtualizer
    {
      Setup(virtualizer.Config(), networkController.bridge)
    }

    constructor (virtualizer: Driver, networkController: Controller)
      ensures this.virtualizer == virtualizer && this.networkController == networkController
      ensures Current() == System(virtualizer.Current(), Books(networkController.Contents(), map[], []), map[])
      ensures HostOk(virtualizer.host) && virtualizer.processes == map[] ==> Valid()
    {
      this.virtualizer, this.networkController := virtualizer, networkController;
      tasks, live, orphans := map[], map[], [];
    }

    method StartTask(id: string, req: TaskRequest) returns (r: StartResult)
      requires Valid()
      modifies this, virtualizer, networkController
      ensures Valid()
      ensures r == Start(old(Configuration()), old(Current()), id, req).result
      ensures Current() == Start(old(Configuration()), old(Current()), id, req).system
      ensures Configuration() == old(Configuration())
    {
      hide Create, Failure, Destroy, BuildNetwork, AppendRules;
      if id in tasks {
        return AlreadyStarted;
      }
      var taskName := DomainName(id);
      var p := Configuration();
      if !Acceptable(p, taskName, req) {
        return Invalid;
      }
      var dc := TaskConfig(p, taskName, req);
      CreateRegisters(p.driver, virtualizer.Current(), dc, req.env, req.create);
      CreateKeepsHostOk(p.driver, virtualizer.Current(), dc, req.env, req.create);
      var created := virtualizer.CreateDomain(dc, req.env, req.create);
      if created.Some? {
        return NotCreated(created.value);
      }
      var ip := virtualizer.processes[taskName].ip;
      var netBuildReq := NetRequest(p, req, ip);
      var netBuildResp := networkController.VMStartedBuild(netBuildReq, req.net);
      ghost var appended := BuildNetwork(p.bridge, netBuildReq, req.net).appended;
      if netBuildResp.Err? {
        orphans := orphans + appended;
        DestroyDeregisters(virtualizer.Config(), virtualizer.Current(), taskName, req.destroy);
        var _ := virtualizer.DestroyDomain(taskName, req.destroy);
        return NoNetwork(netBuildResp.error);
      }
      live := live[taskName := appended];
      if !req.stateEncodes {
        return StateNotStored;
      }
      tasks := tasks[id := Handle(taskName, netBuildResp.value.teardown)];
      r := Started(netBuildResp.value.driverIP);
    }

    method DestroyTask(id: string, req: DestroyRequest) returns (r: DestroyResult)
      modifies this, virtualizer, networkController
      ensures old(Valid()) ==> Valid()
      ensures r == EndTask(old(Configuration()), old(Current()), id, req).result
      ensures Current() == EndTask(old(Configuration()), old(Current()), id, req).system
      ensures Configuration() == old(Configuration())
    {
      assert DomainName(id) !in virtualizer.processes ==>
          Destroy(virtualizer.Config(), virtualizer.Current(), DomainName(id), req.faults) == virtualizer.Current();
      hide Virtualizer.Destroy, Teardown;
      if id !in tasks {
        return NoTask;
      }
      var handle := tasks[id];
      var taskName := DomainName(id);
      if req.running && !req.force {
        return StillRunning;
      }
      var found := virtualizer.DestroyDomain(taskName, req.faults);
      if !found {
        return NoDomain;
      }
      live := live - {taskName};
      if handle.teardown.Some? {
        orphans := orphans + if req.iptables then Undeleted(handle.teardown.value, req.fails)
                            else handle.teardown.value;
      }
      var ok := networkController.VMTerminatedTeardown(handle.teardown, req.iptables, req.fails);
      if !ok {
        return NetworkLeft;
      }
      tasks := tasks - {taskName};
      r := Destroyed;
    }
  }

  lemma {:induction false} CreateRegisters(s: Settings, st: State, cfg: DomainConfig, env: map<string, string>,
      f: Faults)
    ensures Failure(s, st, cfg, f).None? ==>
              && cfg.name !in st.processes
              && Create(s, st, cfg, env, f).processes.Keys == st.processes.Keys + {cfg.name}
    ensures Failure(s, st, cfg, f).Some? ==> Create(s, st, cfg, env, f).processes == st.processes
  {
    hide BuildVMConfig, Derive, GuestEnv, CloudInit, Reserve, Launch;
  }

  lemma {:induction false} DestroyDeregisters(s: Settings, st: State, name: string, f: Faults)
    ensures Destroy(s, st, name, f).processes == st.processes - {name}
  {
  }
}
