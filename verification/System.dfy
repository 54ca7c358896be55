/**
 Whole runs of the plugin: whom each forwarding rule leads to, when rules are
 left behind, and what happens to the task store.
 */
module WholeSystem {
  import opened Outcomes
  import opened Text
  import opened Ipv4
  import opened Subnet
  import opened Pool
  import opened Guest
  import opened Virtualizer
  import opened Accounting
  import opened Chains
  import opened Rules
  import opened NetController
  import opened Ledger
  import opened Plugin

  datatype TaskEvent =
    | StartEvent(id: string, start: TaskRequest)
    | DestroyEvent(id: string, destroy: DestroyRequest)
    | ExitEvent(pid: nat)

  function Next(p: Setup, sys: System, e: TaskEvent): System {
    match e
    case StartEvent(id, req) => Start(p, sys, id, req).system
    case DestroyEvent(id, req) => EndTask(p, sys, id, req).system
    case ExitEvent(pid) => sys.(vms := Step(p.driver, sys.vms, ProcessExits(pid)))
  }

  function RunTasks(p: Setup, sys: System, es: seq<TaskEvent>): System
    decreases |es|
  {
    if es == [] then sys else RunTasks(p, Next(p, sys, es[0]), es[1..])
  }

  // ----- Names -----

  lemma {:induction false} JoinAvoids(parts: seq<string>, sep: string, c: char)
    requires c !in sep && forall p :: p in parts ==> c !in p
    ensures c !in Join(parts, sep)
  {
    if |parts| > 1 {
      assert parts[0] in parts;
      JoinAvoids(parts[1..], sep, c);
    } else if |parts| == 1 {
      assert parts[0] in parts;
    }
  }

  /** A domain name has no slash, and only an id without a slash has an empty one. */
  lemma {:induction false} NamesHaveNoSlash(id: string)
    ensures '/' !in DomainName(id)
    ensures '/' !in id ==> DomainName(id) == ""
  {
    var parts := Split(id, '/');
    forall p | p in parts[1..] ensures '/' !in p {
      assert p in parts;
    }
    JoinAvoids(parts[1..], "-", '/');
  }

  /** Task ids that are in use have different domain names. */
  ghost predicate DistinctNames(ids: set<string>) {
    forall a, b :: a in ids && b in ids && a != b ==> DomainName(a) != DomainName(b)
  }

  ghost predicate Uses(e: TaskEvent, ids: set<string>) {
    match e
    case StartEvent(id, _) => id in ids
    case DestroyEvent(id, _) => id in ids
    case ExitEvent(_) => true
  }

  // ----- Addresses -----

  /** With an IPv4 subnet, a reserved address is the one the controller uses for the guest. */
  lemma {:induction false} ControllerUsesReserved(p: Setup, held: set<string>, name: string, req: TaskRequest)
    requires p.driver.defaults.net.subnet.Some?
    requires Reserve(p.driver, held, TaskConfig(p, name, req)).Ok?
    ensures GuestAddress(NetRequest(p, req, Reserve(p.driver, held, TaskConfig(p, name, req)).value))
            == Some(Reserve(p.driver, held, TaskConfig(p, name, req)).value)
  {
    var cfg := TaskConfig(p, name, req);
    var ip := Reserve(p.driver, held, cfg).value;
    ReserveIsFresh(p.driver, held, cfg);
    if ParseV4(ip).Some? {
      DottedParse(ip);
    } else if StaticAddress(cfg) == "" {
      ParseDotted(Allocate(p.driver.defaults.net, Taken(held)).value);
    }
  }

  /** The rules a build appends all lead to the guest address. */
  lemma {:induction false} BuildLeadsToGuest(bridge: string, req: BuildRequest, h: HostNet)
    ensures forall r :: r in BuildNetwork(bridge, req, h).appended ==>
              !r.Foreign? && GuestAddress(req).Some? && r.guestIP == GuestAddress(req).value
    ensures BuildNetwork(bridge, req, h).result.Ok? && req.netInterface.Some? && req.reserved.Some? ==>
              BuildNetwork(bridge, req, h).result.value
                == Response(GuestAddress(req), Some(BuildNetwork(bridge, req, h).appended))
  {
    if req.netInterface.Some? && req.reserved.Some? && GuestAddress(req).Some? {
      PlannedRules(req.netInterface.value.ports, req.reserved.value, h.lookup, GuestAddress(req).value);
    }
  }

  // ----- The invariant -----

  /** Every live specification leads to its own registered VM. */
  ghost predicate Directed(sys: System) {
    && sys.books.live.Keys == sys.vms.processes.Keys
    && forall name :: name in sys.books.live ==> LeadsTo(sys.books.live[name], sys.vms.processes[name].ip)
  }

  predicate LeadsTo(rules: seq<Rule>, ip: string) {
    forall r :: r in rules ==> !r.Foreign? && r.guestIP == ip
  }

  /** Stored handles carry the specification of the VM they started, for as long as it is registered. */
  ghost predicate Stored(sys: System, ids: set<string>) {
    && sys.tasks.Keys <= ids
    && forall id :: id in sys.tasks ==>
         && '/' in id
         && sys.tasks[id].teardown.Some?
         && (DomainName(id) in sys.books.live ==> sys.tasks[id].teardown.value == sys.books.live[DomainName(id)])
  }

  ghost predicate Sound(p: Setup, sys: System, base: Tables, ids: set<string>) {
    Accounted(sys.vms) && Directed(sys) && Conserved(sys.books, base) && Stored(sys, ids)
  }

  lemma {:induction false} CreateOutcome(s: Settings, st: State, cfg: DomainConfig, env: map<string, string>, f: Faults)
    ensures var after := Create(s, st, cfg, env, f);
            if Failure(s, st, cfg, f).Some? then after.processes == st.processes
            else
              && cfg.name !in st.processes
              && Reserve(s, st.held, cfg).Ok?
              && after.processes.Keys == st.processes.Keys + {cfg.name}
              && after.processes[cfg.name].ip == Reserve(s, st.held, cfg).value
              && forall n :: n in st.processes ==> after.processes[n] == st.processes[n]
  {
    hide BuildVMConfig, Derive, GuestEnv, CloudInit, Reserve, Launch;
  }

  lemma {:induction false} AddedDirected(sys: System, vms: State, name: string, rules: seq<Rule>,
      tasks: map<string, Handle>)
    requires Directed(sys) && name !in sys.vms.processes && vms.processes.Keys == sys.vms.processes.Keys + {name}
    requires forall n :: n in sys.vms.processes ==> vms.processes[n] == sys.vms.processes[n]
    requires LeadsTo(rules, vms.processes[name].ip)
    ensures Directed(System(vms, Record(sys.books, Built(name, rules)), tasks))
  {
    hide LeadsTo, AppendRules;
  }

  lemma {:induction false} AddedStored(sys: System, ids: set<string>, id: string, vms: State, rules: seq<Rule>)
    requires DistinctNames(ids) && id in ids && '/' in id && Stored(sys, ids) && DomainName(id) !in sys.books.live
    ensures id !in sys.tasks ==> Stored(System(vms, Record(sys.books, Built(DomainName(id), rules)), sys.tasks), ids)
    ensures Stored(System(vms, Record(sys.books, Built(DomainName(id), rules)),
                          sys.tasks[id := Handle(DomainName(id), Some(rules))]), ids)
  {
    hide DomainName, AppendRules;
  }

  /** A new VM with rules that lead to it, recorded under its name, and perhaps a handle for it. */
  lemma {:induction false} AddedSound(p: Setup, sys: System, base: Tables, ids: set<string>, id: string, vms: State,
      rules: seq<Rule>, stored: bool)
    requires DistinctNames(ids) && id in ids && '/' in id && Sound(p, sys, base, ids) && id !in sys.tasks
    requires Accounted(vms)
    requires DomainName(id) !in sys.vms.processes && vms.processes.Keys == sys.vms.processes.Keys + {DomainName(id)}
    requires forall n :: n in sys.vms.processes ==> vms.processes[n] == sys.vms.processes[n]
    requires LeadsTo(rules, vms.processes[DomainName(id)].ip)
    ensures var tasks := if stored then sys.tasks[id := Handle(DomainName(id), Some(rules))] else sys.tasks;
            Sound(p, System(vms, Record(sys.books, Built(DomainName(id), rules)), tasks), base, ids)
  {
    var tasks := if stored then sys.tasks[id := Handle(DomainName(id), Some(rules))] else sys.tasks;
    RecordConserves(sys.books, base, Built(DomainName(id), rules));
    AddedDirected(sys, vms, DomainName(id), rules, tasks);
    AddedStored(sys, ids, id, vms, rules);
    hide Accounted, Conserved, DomainName, LeadsTo, Directed, Stored, Record;
  }

  lemma {:induction false} NotAddedSound(p: Setup, sys: System, base: Tables, ids: set<string>, vms: State,
      prefix: seq<Rule>)
    requires Sound(p, sys, base, ids) && Accounted(vms) && vms.processes == sys.vms.processes
    ensures Sound(p, System(vms, Record(sys.books, BuildFailed(prefix)), sys.tasks), base, ids)
  {
    RecordConserves(sys.books, base, BuildFailed(prefix));
    hide Accounted, Conserved, DomainName, AppendRules;
  }

  /** What a start whose create succeeded leads to. */
  lemma {:induction false} StartAfterCreate(p: Setup, sys: System, id: string, req: TaskRequest)
    requires id !in sys.tasks && Acceptable(p, DomainName(id), req)
    requires Failure(p.driver, sys.vms, TaskConfig(p, DomainName(id), req), req.create).None?
    ensures var name := DomainName(id);
            var created := Create(p.driver, sys.vms, TaskConfig(p, name, req), req.env, req.create);
            && name in created.processes
            && var build := BuildNetwork(p.bridge, NetRequest(p, req, created.processes[name].ip), req.net);
            && Start(p, sys, id, req).system ==
                 match build.result
                 case Err(_) =>
                   System(Destroy(p.driver, created, name, req.destroy),
                          Record(sys.books, BuildFailed(build.appended)), sys.tasks)
                 case Ok(response) => System(created, Record(sys.books, Built(name, build.appended)),
                                             if req.stateEncodes then sys.tasks[id := Handle(name, response.teardown)]
                                             else sys.tasks)
  {
    CreateOutcome(p.driver, sys.vms, TaskConfig(p, DomainName(id), req), req.env, req.create);
    hide Create, Destroy, BuildNetwork, NetRequest, AppendRules, Failure, DomainName, Record;
  }

  /** Starting a task keeps the system sound, wherever it fails. */
  lemma {:induction false} StartKeepsSound(p: Setup, sys: System, base: Tables, ids: set<string>, id: string,
      req: TaskRequest)
    requires p.driver.defaults.net.subnet.Some?
    requires DistinctNames(ids) && id in ids && Sound(p, sys, base, ids)
    ensures Sound(p, Start(p, sys, id, req).system, base, ids)
  {
    var name := DomainName(id);
    NamesHaveNoSlash(id);
    if id !in sys.tasks && Acceptable(p, name, req) {
      var cfg := TaskConfig(p, name, req);
      CreateKeepsAccounts(p.driver, sys.vms, cfg, req.env, req.create);
      CreateOutcome(p.driver, sys.vms, cfg, req.env, req.create);
      if Failure(p.driver, sys.vms, cfg, req.create).None? {
        StartAfterCreate(p, sys, id, req);
        StartedKeepsSound(p, sys, base, ids, id, req);
      } else {
        hide Create, Failure, Accounted, Conserved, Directed, Stored;
        assert Start(p, sys, id, req).system.books == sys.books;
        SameProcessesSound(p, sys, base, ids, Create(p.driver, sys.vms, cfg, req.env, req.create));
      }
    }
  }

  lemma {:induction false} SameProcessesSound(p: Setup, sys: System, base: Tables, ids: set<string>, vms: State)
    requires Sound(p, sys, base, ids) && Accounted(vms) && vms.processes == sys.vms.processes
    ensures Sound(p, sys.(vms := vms), base, ids)
  {
    hide Accounted, Conserved;
  }

  lemma {:induction false} StartedKeepsSound(p: Setup, sys: System, base: Tables, ids: set<string>, id: string,
      req: TaskRequest)
    requires p.driver.defaults.net.subnet.Some?
    requires DistinctNames(ids) && id in ids && '/' in id && Sound(p, sys, base, ids)
    requires id !in sys.tasks && Acceptable(p, DomainName(id), req)
    requires Failure(p.driver, sys.vms, TaskConfig(p, DomainName(id), req), req.create).None?
    ensures Sound(p, Start(p, sys, id, req).system, base, ids)
  {
    hide Create, Failure, Destroy, Reserve, BuildNetwork, GuestAddress, Record, Sound, Start, Accounted, DomainName;
    var name := DomainName(id);
    var cfg := TaskConfig(p, name, req);
    var created := Create(p.driver, sys.vms, cfg, req.env, req.create);
    SoundParts(p, sys, base, ids);
    CreateKeepsAccounts(p.driver, sys.vms, cfg, req.env, req.create);
    CreateOutcome(p.driver, sys.vms, cfg, req.env, req.create);
    StartAfterCreate(p, sys, id, req);
    var netReq := NetRequest(p, req, created.processes[name].ip);
    var build := BuildNetwork(p.bridge, netReq, req.net);
    ControllerUsesReserved(p, sys.vms.held, name, req);
    BuildLeadsToGuest(p.bridge, netReq, req.net);
    assert LeadsTo(build.appended, created.processes[name].ip);
    if build.result.Err? {
      var vms := Destroy(p.driver, created, name, req.destroy);
      DestroyKeepsAccounts(p.driver, created, name, req.destroy);
      DestroyDeregisters(p.driver, created, name, req.destroy);
      assert vms.processes == sys.vms.processes;
      NotAddedSound(p, sys, base, ids, vms, build.appended);
    } else {
      AddedSound(p, sys, base, ids, id, created, build.appended, req.stateEncodes);
    }
  }

  lemma {:induction false} SoundParts(p: Setup, sys: System, base: Tables, ids: set<string>)
    requires Sound(p, sys, base, ids)
    ensures Accounted(sys.vms) && sys.tasks.Keys <= ids && sys.books.live.Keys == sys.vms.processes.Keys
  {
  }

  lemma {:induction false} RemovedParts(sys: System, ids: set<string>, name: string, vms: State, iptables: bool,
      fails: set<nat>)
    requires Directed(sys) && Stored(sys, ids) && name in sys.vms.processes
             && vms.processes == sys.vms.processes - {name}
    ensures var after := System(vms, Record(sys.books, TornDown(name, iptables, fails)), sys.tasks);
            Directed(after) && Stored(after, ids)
  {
    hide DomainName, LeadsTo, Teardown, Undeleted;
  }

  /** Deregistering a VM and tearing its specification down keeps the system sound. */
  lemma {:induction false} RemovedSound(p: Setup, sys: System, base: Tables, ids: set<string>, name: string,
      vms: State, iptables: bool, fails: set<nat>)
    requires DistinctNames(ids) && Sound(p, sys, base, ids) && name in sys.vms.processes
    requires Accounted(vms) && vms.processes == sys.vms.processes - {name}
    ensures Sound(p, System(vms, Record(sys.books, TornDown(name, iptables, fails)), sys.tasks), base, ids)
  {
    RecordConserves(sys.books, base, TornDown(name, iptables, fails));
    RemovedParts(sys, ids, name, vms, iptables, fails);
    hide Accounted, Conserved, DistinctNames, Directed, Stored, Record;
  }

  /** Destroying a task keeps the system sound, and never takes a handle out of the store. */
  lemma {:induction false} EndKeepsSound(p: Setup, sys: System, base: Tables, ids: set<string>, id: string,
      req: DestroyRequest)
    requires DistinctNames(ids) && id in ids && Sound(p, sys, base, ids)
    ensures Sound(p, EndTask(p, sys, id, req).system, base, ids)
    ensures EndTask(p, sys, id, req).system.tasks == sys.tasks
  {
    var name := DomainName(id);
    NamesHaveNoSlash(id);
    assert name !in sys.tasks && sys.tasks - {name} == sys.tasks;
    if id in sys.tasks && name in sys.vms.processes && !(req.running && !req.force) {
      var spec := sys.tasks[id].teardown.value;
      assert spec == sys.books.live[name];
      var vms := Destroy(p.driver, sys.vms, name, req.faults);
      DestroyKeepsAccounts(p.driver, sys.vms, name, req.faults);
      DestroyDeregisters(p.driver, sys.vms, name, req.faults);
      var books := Record(sys.books, TornDown(name, req.iptables, req.fails));
      assert TearDown(sys.books, name, spec, req.iptables, req.fails) == books;
      assert EndTask(p, sys, id, req).system == System(vms, books, sys.tasks);
      hide Destroy, Record, Sound, EndTask;
      RemovedSound(p, sys, base, ids, name, vms, req.iptables, req.fails);
    }
  }

  lemma {:induction false} NextKeepsSound(p: Setup, sys: System, base: Tables, ids: set<string>, e: TaskEvent)
    requires p.driver.defaults.net.subnet.Some?
    requires DistinctNames(ids) && Uses(e, ids) && Sound(p, sys, base, ids)
    ensures Sound(p, Next(p, sys, e), base, ids)
  {
    match e
    case StartEvent(id, req) => StartKeepsSound(p, sys, base, ids, id, req);
    case DestroyEvent(id, req) => EndKeepsSound(p, sys, base, ids, id, req);
    case ExitEvent(_) =>
  }

  /** Every run, whatever fails in it, keeps the system sound. */
  lemma {:induction false} RunsKeepSound(p: Setup, sys: System, base: Tables, ids: set<string>, es: seq<TaskEvent>)
    requires p.driver.defaults.net.subnet.Some?
    requires DistinctNames(ids) && (forall e :: e in es ==> Uses(e, ids)) && Sound(p, sys, base, ids)
    ensures Sound(p, RunTasks(p, sys, es), base, ids)
    decreases |es|
  {
    if es != [] {
      assert es[0] in es;
      NextKeepsSound(p, sys, base, ids, es[0]);
      RunsKeepSound(p, Next(p, sys, es[0]), base, ids, es[1..]);
    }
  }

  // ----- Runs seen by the network -----

  /** The build or teardown an event leads to, if it gets that far. */
  function NetEvents(p: Setup, sys: System, e: TaskEvent): seq<NetEvent> {
    match e
    case StartEvent(id, req) =>
      var name := DomainName(id);
      if id in sys.tasks || !Acceptable(p, name, req)
         || Failure(p.driver, sys.vms, TaskConfig(p, name, req), req.create).Some? then []
      else
        var ip := Create(p.driver, sys.vms, TaskConfig(p, name, req), req.env, req.create).processes[name].ip;
        var build := BuildNetwork(p.bridge, NetRequest(p, req, ip), req.net);
        if build.result.Err? then [BuildFailed(build.appended)] else [Built(name, build.appended)]
    case DestroyEvent(id, req) =>
      if id !in sys.tasks || (req.running && !req.force) || DomainName(id) !in sys.vms.processes then []
      else [TornDown(DomainName(id), req.iptables, req.fails)]
    case ExitEvent(_) => []
  }

  function Trace(p: Setup, sys: System, es: seq<TaskEvent>): seq<NetEvent>
    decreases |es|
  {
    if es == [] then [] else NetEvents(p, sys, es[0]) + Trace(p, Next(p, sys, es[0]), es[1..])
  }

  lemma {:induction false} StartBooks(p: Setup, sys: System, base: Tables, ids: set<string>, id: string,
      req: TaskRequest)
    requires Sound(p, sys, base, ids) && id in ids
    ensures Start(p, sys, id, req).system.books == RecordAll(sys.books, NetEvents(p, sys, StartEvent(id, req)))
  {
    hide Create, Failure, Destroy, BuildNetwork, NetRequest, Record, DomainName, Sound, Accounted, Acceptable;
    var name := DomainName(id);
    if id !in sys.tasks && Acceptable(p, name, req)
           && Failure(p.driver, sys.vms, TaskConfig(p, name, req), req.create).None? {
      StartAfterCreate(p, sys, id, req);
      var ip := Create(p.driver, sys.vms, TaskConfig(p, name, req), req.env, req.create).processes[name].ip;
      var build := BuildNetwork(p.bridge, NetRequest(p, req, ip), req.net);
      OneEvent(sys.books, if build.result.Err? then BuildFailed(build.appended) else Built(name, build.appended));
    }
  }

  lemma {:induction false} NextBooks(p: Setup, sys: System, base: Tables, ids: set<string>, e: TaskEvent)
    requires Sound(p, sys, base, ids) && Uses(e, ids)
    ensures Next(p, sys, e).books == RecordAll(sys.books, NetEvents(p, sys, e))
  {
    match e
    case StartEvent(id, req) => StartBooks(p, sys, base, ids, id, req);
    case DestroyEvent(id, req) =>
      hide Start, Destroy, DomainName, Teardown, Undeleted;
      if NetEvents(p, sys, e) != [] {
        OneEvent(sys.books, TornDown(DomainName(id), req.iptables, req.fails));
        assert sys.tasks[id].teardown.value == sys.books.live[DomainName(id)];
      }
    case ExitEvent(_) =>
  }

  lemma {:induction false} OneEvent(b: Books, e: NetEvent)
    ensures RecordAll(b, [e]) == Record(b, e)
  {
    assert [e][1..] == [];
    assert RecordAll(Record(b, e), []) == Record(b, e);
  }

  lemma {:induction false} RecordAllThen(b: Books, es: seq<NetEvent>, fs: seq<NetEvent>)
    ensures RecordAll(b, es + fs) == RecordAll(RecordAll(b, es), fs)
    decreases |es|
  {
    if es == [] {
      assert es + fs == fs;
    } else {
      assert (es + fs)[1..] == es[1..] + fs;
      RecordAllThen(Record(b, es[0]), es[1..], fs);
    }
  }

  /** The chains of a run are those of its builds and teardowns. */
  lemma {:induction false} RunBooks(p: Setup, sys: System, base: Tables, ids: set<string>, es: seq<TaskEvent>)
    requires p.driver.defaults.net.subnet.Some?
    requires DistinctNames(ids) && (forall e :: e in es ==> Uses(e, ids)) && Sound(p, sys, base, ids)
    ensures RunTasks(p, sys, es).books == RecordAll(sys.books, Trace(p, sys, es))
    decreases |es|
  {
    hide Next, NetEvents, Record, Sound;
    if es != [] {
      assert es[0] in es;
      NextBooks(p, sys, base, ids, es[0]);
      NextKeepsSound(p, sys, base, ids, es[0]);
      RunBooks(p, Next(p, sys, es[0]), base, ids, es[1..]);
      RecordAllThen(sys.books, NetEvents(p, sys, es[0]), Trace(p, Next(p, sys, es[0]), es[1..]));
    }
  }

  // ----- Main results -----

  /** The system before its first task. */
  function Initial(host: Host, base: Tables): System {
    System(State(map[], {}, host), Books(base, map[], []), map[])
  }

  lemma {:induction false} InitialSound(p: Setup, host: Host, base: Tables, ids: set<string>)
    requires WellPlaced(base)
    ensures Sound(p, Initial(host, base), base, ids)
  {
  }

  /** A VM is registered under the name, holds the address, and no other registered VM does. */
  ghost predicate SoleHolder(vms: State, name: string, ip: string) {
    && name in vms.processes && vms.processes[name].ip == ip
    && forall m :: m in vms.processes && m != name ==> vms.processes[m].ip != ip
  }

  /**
   Ownership over whole runs, with failures anywhere: a rule that occurs more
   often than in the chains at first and among the orphans belongs to a
   registered VM's task and leads to the address that VM alone holds.
   */
  lemma {:induction false} RulesLeadHome(p: Setup, host: Host, base: Tables, ids: set<string>, es: seq<TaskEvent>,
      r: Rule)
    requires p.driver.defaults.net.subnet.Some? && WellPlaced(base)
    requires DistinctNames(ids) && (forall e :: e in es ==> Uses(e, ids))
    ensures var sys := RunTasks(p, Initial(host, base), es);
            Total(sys.books.tables)[r] > Total(base)[r] + multiset(sys.books.orphans)[r] ==>
              !r.Foreign? &&
                exists name :: name in sys.books.live && r in sys.books.live[name]
                               && SoleHolder(sys.vms, name, r.guestIP)
  {
    var sys := RunTasks(p, Initial(host, base), es);
    InitialSound(p, host, base, ids);
    RunsKeepSound(p, Initial(host, base), base, ids, es);
    if Total(sys.books.tables)[r] > Total(base)[r] + multiset(sys.books.orphans)[r] {
      assert r in SumLive(sys.books.live);
      InLive(sys.books.live, r);
      var name :| name in sys.books.live && r in sys.books.live[name];
      assert LeadsTo(sys.books.live[name], sys.vms.processes[name].ip);
      assert SoleHolder(sys.vms, name, r.guestIP);
    }
  }

  /**
   The events that leave rules behind, told from what they are given: a start
   whose build stops part-way, and a destroy that reaches the teardown of a
   specification with rules and finds no iptables or fails to delete one.
   */
  predicate LeavesRules(p: Setup, sys: System, e: TaskEvent) {
    match e
    case StartEvent(id, req) =>
      var cfg := TaskConfig(p, DomainName(id), req);
      && id !in sys.tasks && Acceptable(p, DomainName(id), req)
      && Failure(p.driver, sys.vms, cfg, req.create).None?
      && StopsPartWay(p.bridge, NetRequest(p, req, Reserve(p.driver, sys.vms.held, cfg).value), req.net)
    case DestroyEvent(id, req) =>
      && id in sys.tasks && (!req.running || req.force) && DomainName(id) in sys.vms.processes
      && sys.tasks[id].teardown.Some? && sys.tasks[id].teardown.value != []
      && (!req.iptables || !AllDeleted(sys.tasks[id].teardown.value, req.fails))
    case ExitEvent(_) => false
  }

  /** No event of the run leaves rules behind. */
  predicate NetworkClean(p: Setup, sys: System, es: seq<TaskEvent>)
    decreases |es|
  {
    es != [] ==> !LeavesRules(p, sys, es[0]) && NetworkClean(p, Next(p, sys, es[0]), es[1..])
  }

  lemma {:induction false} RunOrphansOne(b: Books, e: NetEvent)
    ensures RunOrphans(b, [e]) <==> Orphaning(b, e)
  {
    assert [e][1..] == [];
    assert !RunOrphans(Record(b, e), []);
  }

  lemma {:induction false} StartLeavesIff(p: Setup, sys: System, id: string, req: TaskRequest)
    ensures LeavesRules(p, sys, StartEvent(id, req)) <==>
            RunOrphans(sys.books, NetEvents(p, sys, StartEvent(id, req)))
  {
    hide Create, Reserve, BuildNetwork, NetRequest, Record, DomainName, Acceptable, StopsPartWay;
    var name := DomainName(id);
    var cfg := TaskConfig(p, name, req);
    if id !in sys.tasks && Acceptable(p, name, req) && Failure(p.driver, sys.vms, cfg, req.create).None? {
      CreateOutcome(p.driver, sys.vms, cfg, req.env, req.create);
      hide Failure;
      var ip := Create(p.driver, sys.vms, cfg, req.env, req.create).processes[name].ip;
      var build := BuildNetwork(p.bridge, NetRequest(p, req, ip), req.net);
      StopsPartWayIff(p.bridge, NetRequest(p, req, ip), req.net);
      RunOrphansOne(sys.books, if build.result.Err? then BuildFailed(build.appended) else Built(name, build.appended));
    }
  }

  lemma {:induction false} EventLeavesIff(p: Setup, sys: System, base: Tables, ids: set<string>, e: TaskEvent)
    requires Sound(p, sys, base, ids) && Uses(e, ids)
    ensures LeavesRules(p, sys, e) <==> RunOrphans(sys.books, NetEvents(p, sys, e))
  {
    match e
    case StartEvent(id, req) => StartLeavesIff(p, sys, id, req);
    case DestroyEvent(id, req) =>
      if NetEvents(p, sys, e) != [] {
        RunOrphansOne(sys.books, TornDown(DomainName(id), req.iptables, req.fails));
        assert sys.tasks[id].teardown.value == sys.books.live[DomainName(id)];
      }
    case ExitEvent(_) =>
  }

  lemma {:induction false} NetworkCleanIff(p: Setup, sys: System, base: Tables, ids: set<string>, es: seq<TaskEvent>)
    requires p.driver.defaults.net.subnet.Some?
    requires DistinctNames(ids) && (forall e :: e in es ==> Uses(e, ids)) && Sound(p, sys, base, ids)
    ensures NetworkClean(p, sys, es) <==> !RunOrphans(sys.books, Trace(p, sys, es))
    decreases |es|
  {
    hide Next, NetEvents, LeavesRules, Sound, Orphaning, Record, Uses, DistinctNames;
    if es != [] {
      assert es[0] in es;
      var next := Next(p, sys, es[0]);
      EventLeavesIff(p, sys, base, ids, es[0]);
      NextBooks(p, sys, base, ids, es[0]);
      NextKeepsSound(p, sys, base, ids, es[0]);
      NetworkCleanIff(p, next, base, ids, es[1..]);
      RunOrphansThen(sys.books, NetEvents(p, sys, es[0]), Trace(p, next, es[1..]));
    }
  }

  /**
   A run leaves orphaned rules exactly when one of its events does by the
   conditions above: a build that stops after its first append, for want of an
   interface or of iptables, or a teardown that cannot delete.  When none does,
   every forwarding rule beyond the chains' first contents leads to the address
   its own task's VM alone holds.
   */
  lemma {:induction false} CleanRunsLeadHome(p: Setup, host: Host, base: Tables, ids: set<string>, es: seq<TaskEvent>,
      r: Rule)
    requires p.driver.defaults.net.subnet.Some? && WellPlaced(base)
    requires DistinctNames(ids) && (forall e :: e in es ==> Uses(e, ids))
    ensures var sys := RunTasks(p, Initial(host, base), es);
            && (sys.books.orphans == [] <==> NetworkClean(p, Initial(host, base), es))
            && (NetworkClean(p, Initial(host, base), es) && r.Dnat?
                && multiset(sys.books.tables.prerouting)[r] > multiset(base.prerouting)[r] ==>
                  exists name :: name in sys.books.live && r in sys.books.live[name]
                                 && SoleHolder(sys.vms, name, r.guestIP))
  {
    var start := Initial(host, base);
    var sys := RunTasks(p, start, es);
    InitialSound(p, host, base, ids);
    RunsKeepSound(p, start, base, ids, es);
    RunBooks(p, start, base, ids, es);
    OrphansIff(start.books, Trace(p, start, es));
    NetworkCleanIff(p, start, base, ids, es);
    RulesLeadHome(p, host, base, ids, es, r);
    PlacedCount(sys.books.tables, [], r);
    PlacedCount(base, [], r);
    hide NetworkClean, RunTasks, Trace, RunOrphans, RecordAll, DistinctNames, Uses;
  }

  /** Nomad's handle for a task leaves the store exactly when the task's id is empty. */
  lemma {:induction false} HandleRemovedIff(p: Setup, sys: System, id: string, req: DestroyRequest)
    requires id in sys.tasks && EndTask(p, sys, id, req).result == Destroyed
    ensures id !in EndTask(p, sys, id, req).system.tasks <==> id == ""
  {
    hide Destroy, Teardown;
    NamesHaveNoSlash(id);
    assert DomainName(id) == id <==> id == "";
  }

  /** So in a run no started task's id ever becomes free again, however often it is destroyed. */
  lemma {:induction false} StartedIdsStayTaken(p: Setup, sys: System, base: Tables, ids: set<string>,
      es: seq<TaskEvent>, id: string, req: TaskRequest)
    requires p.driver.defaults.net.subnet.Some?
    requires DistinctNames(ids) && (forall e :: e in es ==> Uses(e, ids)) && Sound(p, sys, base, ids)
    requires id in sys.tasks
    ensures Start(p, RunTasks(p, sys, es), id, req) == StartOutcome(RunTasks(p, sys, es), AlreadyStarted)
    decreases |es|
  {
    hide Create, Destroy, Failure, BuildNetwork, Accounted, Directed, Conserved;
    if es != [] {
      assert es[0] in es;
      NextKeepsSound(p, sys, base, ids, es[0]);
      assert id in Next(p, sys, es[0]).tasks by {
        if es[0].DestroyEvent? {
          EndKeepsSound(p, sys, base, ids, es[0].id, es[0].destroy);
        }
      }
      hide Next, Sound, Start;
      StartedIdsStayTaken(p, Next(p, sys, es[0]), base, ids, es[1..], id, req);
    }
  }

  /**
   A destroy that got as far as the virtualizer cannot be retried: it stops before the
   teardown and changes nothing.
   */
  lemma {:induction false} SecondDestroyRefused(p: Setup, sys: System, base: Tables, ids: set<string>, id: string,
      first: DestroyRequest, second: DestroyRequest)
    requires DistinctNames(ids) && id in ids && Sound(p, sys, base, ids)
    requires EndTask(p, sys, id, first).result in {Destroyed, NetworkLeft} && (second.running ==> second.force)
    ensures var after := EndTask(p, sys, id, first).system;
            EndTask(p, after, id, second) == DestroyOutcome(after, NoDomain)
  {
    EndKeepsSound(p, sys, base, ids, id, first);
    DestroyDeregisters(p.driver, sys.vms, DomainName(id), first.faults);
  }

  /** A rule in the chains that leads to an address no VM holds. */
  predicate Stranded(sys: System, r: Rule) {
    !r.Foreign? && Total(sys.books.tables)[r] > 0 && r.guestIP !in sys.vms.held
  }

  /** After a start whose build failed: its VM is gone, and each rule it appended is in the chains. */
  ghost predicate Strands(before: System, after: System, appended: seq<Rule>) {
    && after.vms.processes == before.vms.processes
    && after.books.orphans == before.books.orphans + appended
    && forall r :: r in appended ==> Stranded(after, r)
  }

  /** A build that fails after appending strands the rules it appended: its VM is destroyed, they stay. */
  lemma {:induction false} FailedBuildStrandsRules(p: Setup, sys: System, base: Tables, ids: set<string>, id: string,
      req: TaskRequest)
      returns (prefix: seq<Rule>)
    requires p.driver.defaults.net.subnet.Some?
    requires DistinctNames(ids) && id in ids && Sound(p, sys, base, ids)
    ensures Start(p, sys, id, req).result.NoNetwork? ==>
              && NetEvents(p, sys, StartEvent(id, req)) == [BuildFailed(prefix)]
              && Strands(sys, Start(p, sys, id, req).system, prefix)
  {
    hide Create, Failure, Destroy, Reserve, BuildNetwork, GuestAddress, DomainName, Accounted;
    prefix := [];
    if Start(p, sys, id, req).result.NoNetwork? {
      var name := DomainName(id);
      var cfg := TaskConfig(p, name, req);
      var created := Create(p.driver, sys.vms, cfg, req.env, req.create);
      SoundParts(p, sys, base, ids);
      CreateOutcome(p.driver, sys.vms, cfg, req.env, req.create);
      CreateKeepsAccounts(p.driver, sys.vms, cfg, req.env, req.create);
      StartAfterCreate(p, sys, id, req);
      StartKeepsSound(p, sys, base, ids, id, req);
      var netReq := NetRequest(p, req, created.processes[name].ip);
      var build := BuildNetwork(p.bridge, netReq, req.net);
      ControllerUsesReserved(p, sys.vms.held, name, req);
      BuildLeadsToGuest(p.bridge, netReq, req.net);
      DestroyKeepsAccounts(p.driver, created, name, req.destroy);
      DestroyDeregisters(p.driver, created, name, req.destroy);
      assert created.processes - {name} == sys.vms.processes;
      prefix := build.appended;
      var after := Start(p, sys, id, req).system;
      assert after == System(Destroy(p.driver, created, name, req.destroy),
                             Record(sys.books, BuildFailed(prefix)), sys.tasks);
      OrphansAreInChains(after.books, base);
      hide Start, Record, Sound;
      forall r | r in prefix ensures Stranded(after, r) {
        assert r in after.books.orphans;
      }
    }
  }

  lemma {:induction false} OrphansAreInChains(b: Books, base: Tables)
    requires Conserved(b, base)
    ensures forall r :: r in b.orphans ==> Total(b.tables)[r] > 0
  {
    forall r | r in b.orphans ensures Total(b.tables)[r] > 0 {
      assert multiset(b.orphans)[r] > 0;
    }
  }

  /** What a create tells and gives the VM it registers. */
  lemma {:induction false} CreateTells(s: Settings, st: State, cfg: DomainConfig, env: map<string, string>, f: Faults)
    requires Failure(s, st, cfg, f).None?
    ensures Reserve(s, st.held, cfg).Ok?
    ensures var vm := Create(s, st, cfg, env, f).processes[cfg.name];
            && vm.ip == Reserve(s, st.held, cfg).value && Reserved(cfg, vm.ip)
            && vm.ip in Create(s, st, cfg, env, f).held
            && BuildVMConfig(s.defaults, cfg, vm.tap, vm.ip) == Some(vm.config)
            && vm.network == CloudInit(Derive(s.defaults, cfg, vm.ip))
            && vm.env == GuestEnv(env, Derive(s.defaults, cfg, vm.ip))
  {
    ReserveIsFresh(s, st.held, cfg);
    hide BuildVMConfig, Derive, GuestEnv, CloudInit, Reserve, Reserved, MountsStarted, Pids;
  }

  /**
   The address a started task's VM holds is the one told to Nomad, the guest and
   the hypervisor, with one prefix length and one gateway: the task's own where it
   names them, else the driver's.
   */
  ghost predicate AddressAgrees(p: Setup, sys: System, driverIP: Option<string>, name: string, req: TaskRequest) {
    && name in sys.vms.processes
    && sys.vms.processes[name].ip in sys.vms.held
    && driverIP == Some(sys.vms.processes[name].ip)
    && VmAgrees(p.driver.defaults, sys.vms.processes[name],
                if req.bridge.Some? then req.bridge.value else Bridge("", [], "", "", "", []),
                if req.hostname != "" then req.hostname else "nomad-" + name,
                if req.cmdline != "" then req.cmdline else "console=hvc0 root=/dev/vda1 rw")
    && EnvKept(sys.vms.processes[name].env, req.env)
  }

  /** The task's own variables other than the four the driver sets. */
  ghost predicate EnvKept(told: map<string, string>, env: map<string, string>) {
    forall k :: k !in ["VM_IP", "VM_CIDR", "VM_GATEWAY", "VM_DNS"] ==>
      (k in told <==> k in env) && (k in env ==> told[k] == env[k])
  }

  ghost predicate VmAgrees(d: Defaults, vm: VMProcess, own: Bridge, host: string, requested: string) {
    var gateway := if own.gateway != "" then own.gateway
                   else if d.net.gateway.Some? then Dotted(d.net.gateway.value) else d.gatewayText;
    && (own.staticIP != "" ==> vm.ip == own.staticIP)
    && vm.config.ip == vm.ip
    && "VM_IP" in vm.env && vm.env["VM_IP"] == vm.ip
    && vm.network.Some? && vm.network.value.address == vm.ip && vm.network.value.gateway == gateway
    && ("VM_GATEWAY" in vm.env <==> gateway != "") && (gateway != "" ==> vm.env["VM_GATEWAY"] == gateway)
    && vm.network.value.interfaceName == "eth0"
    && vm.network.value.nameservers == (if own.dns != [] then own.dns else ["8.8.8.8", "8.8.4.4"])
    && "VM_DNS" in vm.env && vm.env["VM_DNS"] == Join(vm.network.value.nameservers, " ")
    && exists bits: nat :: bits <= 32
         && bits == (if LengthText(own.netmask) then Text.Atoi(Digits(own.netmask))
                     else if d.net.subnet.Some? then d.net.subnet.value.bits else 24)
         && LengthAgrees(vm, bits)
         && KernelAgrees(vm, if gateway != "" then gateway else "0.0.0.0", bits, host, requested)
  }

  ghost predicate LengthAgrees(vm: VMProcess, bits: nat)
    requires bits <= 32
  {
    && "VM_CIDR" in vm.env && vm.env["VM_CIDR"] == Itoa(bits)
    && vm.network.Some? && vm.network.value.netmask == Itoa(bits)
    && vm.config.mask == Dotted(Mask(bits))
  }

  /**
   The kernel's command line ends in the ip= parameter when the one asked for names
   no address; else it is that one, and holds the parameter only if that did.  The
   kernel reads from it this address, gateway and mask.
   */
  ghost predicate KernelAgrees(vm: VMProcess, gateway: string, bits: nat, host: string, requested: string)
    requires bits <= 32
  {
    var mask := Dotted(Mask(bits));
    var token := "ip=" + Join([vm.ip, "", gateway, mask, host, "eth0", "none"], ":");
    && CarriesToken(vm.config.cmdline, requested, token)
    && (HasSubstring(vm.config.cmdline, token) <==> !NamesAddress(requested) || HasSubstring(requested, token))
    && (':' !in vm.ip && ':' !in gateway && ':' !in host ==>
          ReadKernelAddress(token) == Some(KernelAddress(vm.ip, "", gateway, mask, host, "eth0", "none")))
  }

  lemma {:induction false} KernelTold(d: Defaults, cfg: DomainConfig, vm: VMProcess)
    requires Reserved(cfg, vm.ip) && BuildVMConfig(d, cfg, vm.tap, vm.ip) == Some(vm.config)
    ensures Derive(d, cfg, vm.ip).Some?
    ensures var s := Derive(d, cfg, vm.ip).value;
            && vm.config.ip == vm.ip && vm.config.mask == Dotted(Mask(s.cidrBits))
            && KernelAgrees(vm, if s.gateway != "" then s.gateway else "0.0.0.0", s.cidrBits,
                            OrElse(cfg.hostName, cfg.name), RequestedLine(cfg))
  {
    HypervisorAgrees(d, cfg, vm.tap, vm.ip);
    hide BuildVMConfig, CarriesToken, HasSubstring, NamesAddress, RequestedLine, Dotted, Mask, Join, ReadKernelAddress,
        KernelToken;
    var s := Derive(d, cfg, vm.ip).value;
    var gateway := OrElse(s.gateway, "0.0.0.0");
    var mask := Dotted(Mask(s.cidrBits));
    var host := OrElse(cfg.hostName, cfg.name);
    var token := "ip=" + Join([vm.ip, "", gateway, mask, host, "eth0", "none"], ":");
    TokenGivenIff(vm.config.cmdline, RequestedLine(cfg), token);
    DottedHasNoColon(Mask(s.cidrBits));
    if ':' !in vm.ip && ':' !in gateway && ':' !in host {
      TokenReads(vm.ip, gateway, mask, host, "eth0");
      TokenText(vm.ip, gateway, mask, host, "eth0");
    }
  }

  lemma {:induction false} DottedHasNoColon(a: Addr)
    ensures ':' !in Dotted(a)
  {
    var parts := [Itoa(Octet(a, 0)), Itoa(Octet(a, 1)), Itoa(Octet(a, 2)), Itoa(Octet(a, 3))];
    hide Itoa, Join;
    JoinAvoids(parts, ".", ':');
  }

  lemma {:induction false} ToldAgrees(d: Defaults, cfg: DomainConfig, vm: VMProcess, env: map<string, string>)
    requires Reserved(cfg, vm.ip) && BuildVMConfig(d, cfg, vm.tap, vm.ip) == Some(vm.config)
    requires vm.network == CloudInit(Derive(d, cfg, vm.ip)) && vm.env == GuestEnv(env, Derive(d, cfg, vm.ip))
    ensures VmAgrees(d, vm, if cfg.bridge.Some? then cfg.bridge.value else Bridge("", [], "", "", "", []),
                     OrElse(cfg.hostName, cfg.name), RequestedLine(cfg))
    ensures EnvKept(vm.env, env)
  {
    DerivedSettings(d, cfg, vm.ip);
    LengthRead("");
    KernelTold(d, cfg, vm);
    var s := Derive(d, cfg, vm.ip).value;
    EnvTold(env, s);
    CloudInitTold(s);
    hide Derive, BuildVMConfig, GuestEnv, CloudInit, Dotted, Mask, Itoa, RequestedLine, KernelAgrees, LengthText;
    assert LengthAgrees(vm, s.cidrBits);
  }

  /** Address agreement, for every task that starts. */
  lemma {:induction false} StartedAgrees(p: Setup, sys: System, id: string, req: TaskRequest)
    requires p.driver.defaults.net.subnet.Some?
    ensures var after := Start(p, sys, id, req);
            after.result.Started? ==>
              AddressAgrees(p, after.system, after.result.driverIP, DomainName(id), req)
  {
    if Start(p, sys, id, req).result.Started? {
      var name := DomainName(id);
      var cfg := TaskConfig(p, name, req);
      var s := p.driver;
      var created := Create(s, sys.vms, cfg, req.env, req.create);
      CreateOutcome(s, sys.vms, cfg, req.env, req.create);
      CreateTells(s, sys.vms, cfg, req.env, req.create);
      var vm := created.processes[name];
      ControllerUsesReserved(p, sys.vms.held, name, req);
      BuildLeadsToGuest(p.bridge, NetRequest(p, req, vm.ip), req.net);
      hide Create, Failure, Reserve, BuildNetwork, GuestAddress, Derive, BuildVMConfig, GuestEnv, DomainName,
          Reserved, RequestedLine, VmAgrees, CloudInit, EnvKept;
      ToldAgrees(s.defaults, cfg, vm, req.env);
      DefaultBridgeIsBare(s.defaults, vm, req, TaskBridge(p, req), OrElse(cfg.hostName, cfg.name), RequestedLine(cfg));
      HostNameGiven(cfg, req, name);
    }
  }

  /** The default bridge block says nothing of addresses. */
  lemma {:induction false} DefaultBridgeIsBare(d: Defaults, vm: VMProcess, req: TaskRequest, bridge: Bridge,
      host: string, requested: string)
    requires if req.bridge.Some? then bridge == req.bridge.value
             else bridge.(name := "") == Bridge("", [], "", "", "", [])
    ensures VmAgrees(d, vm, bridge, host, requested) <==>
            VmAgrees(d, vm, if req.bridge.Some? then req.bridge.value else Bridge("", [], "", "", "", []), host,
                     requested)
  {
    hide KernelAgrees, LengthAgrees, LengthText, Dotted;
  }

  /** A host name and a command line are never missing. */
  lemma {:induction false} HostNameGiven(cfg: DomainConfig, req: TaskRequest, name: string)
    requires cfg.hostName == OrElse(req.hostname, "nomad-" + name) && cfg.cmdline == req.cmdline
    ensures OrElse(cfg.hostName, cfg.name) == (if req.hostname != "" then req.hostname else "nomad-" + name)
    ensures RequestedLine(cfg) == (if req.cmdline != "" then req.cmdline else "console=hvc0 root=/dev/vda1 rw")
  {
    assert "nomad-" + name != "";
  }
}
