/** Packets over whole runs of the plugin: a forwarded packet goes to the VM of the task that reserved its port. */
module Delivery {
  import opened Outcomes
  import opened Guest
  import opened Rules
  import opened NetController
  import opened Virtualizer
  import opened Accounting
  import opened Ledger
  import opened Forwarding
  import opened Plugin
  import opened WholeSystem

  lemma {:induction false} PortMapFromRule(rules: seq<Rule>, k: Key)
    requires k in PortMap(rules)
    ensures exists r :: r in rules && r.Dnat? && KeyOf(r) == k && r.guestIP == PortMap(rules)[k].target.guestIP
  {
    var r := rules[0];
    assert rules == [r] + rules[1..];
    if r.Dnat? && KeyOf(r) == k {
      assert r in rules;
    } else {
      PortMapFromRule(rules[1..], k);
      var x :| x in rules[1..] && x.Dnat? && KeyOf(x) == k && x.guestIP == PortMap(rules[1..])[k].target.guestIP;
      assert x in rules;
    }
  }

  /** The binding of a key in the map leads to the address held by the VM of a task with that key. */
  lemma {:induction false} BindingLeadsHome(sys: System, base: Tables, m: map<Key, Binding>, k: Key)
    requires Directed(sys) && Routed(m, sys.books, base) && k in m && k !in Keys(sys.books.orphans)
    ensures exists name :: name in sys.books.live && k in Keys(sys.books.live[name])
              && name in sys.vms.processes && sys.vms.processes[name].ip == m[k].target.guestIP
  {
    hide Keys, PortMap;
    assert OwnedKey(sys.books.live, k);
    var name :| name in sys.books.live && k in Keys(sys.books.live[name]);
    var rules := sys.books.live[name];
    assert Serves(m, sys.books.tables.prerouting, Keys(sys.books.orphans), rules);
    assert ServesKey(m, sys.books.tables.prerouting, rules, k);
    PortMapFromRule(rules, k);
    assert LeadsTo(rules, sys.vms.processes[name].ip);
  }

  // ----- Host ports -----

  /** The host addresses and ports a task asks to have forwarded: those of its reserved labels. */
  function AskedKeys(p: Setup, req: TaskRequest): set<Key> {
    set l | l in TaskBridge(p, req).ports && l in req.ports :: Key(req.ports[l].hostIP, req.ports[l].value)
  }

  /** A start that gets as far as its build asks for host ports of no live task and of no rule of the first chain. */
  ghost predicate PortsFree(p: Setup, sys: System, base: Tables, e: TaskEvent) {
    match e
    case StartEvent(id, req) =>
      id !in sys.tasks && Acceptable(p, DomainName(id), req)
      && Failure(p.driver, sys.vms, TaskConfig(p, DomainName(id), req), req.create).None? ==>
        forall k :: k in AskedKeys(p, req) ==> !OwnedKey(sys.books.live, k) && k !in Keys(base.prerouting)
    case _ => true
  }

  ghost predicate PortsFreeRun(p: Setup, sys: System, base: Tables, es: seq<TaskEvent>)
    decreases |es|
  {
    es != [] ==> PortsFree(p, sys, base, es[0]) && PortsFreeRun(p, Next(p, sys, es[0]), base, es[1..])
  }

  lemma {:induction false} PlanKeys(labels: seq<string>, reserved: map<string, Port>, lookup: map<string, string>,
      ip: string, r: Rule)
    requires r in PlanRules(labels, reserved, lookup, ip).rules && r.Dnat?
    ensures exists l :: l in labels && l in reserved && KeyOf(r) == Key(reserved[l].hostIP, reserved[l].value)
  {
    var rest := PlanRules(labels[1..], reserved, lookup, ip).rules;
    if r in rest {
      PlanKeys(labels[1..], reserved, lookup, ip, r);
      var l :| l in labels[1..] && l in reserved && KeyOf(r) == Key(reserved[l].hostIP, reserved[l].value);
      assert l in labels;
    } else {
      assert labels[0] in labels && labels[0] in reserved;
    }
  }

  /** The rules of a task's build are for keys it asked for, through one interface for each host address. */
  lemma {:induction false} BuildKeys(p: Setup, req: TaskRequest, ip: string)
    ensures var rules := BuildNetwork(p.bridge, NetRequest(p, req, ip), req.net).appended;
            Keys(rules) <= AskedKeys(p, req) && OneInterface(rules)
  {
    hide PlanRules, GuestIPs;
    var net := NetRequest(p, req, ip);
    var rules := BuildNetwork(p.bridge, net, req.net).appended;
    if GuestAddress(net).Some? {
      var labels, guest := TaskBridge(p, req).ports, GuestAddress(net).value;
      var plan := PlanRules(labels, req.ports, req.net.lookup, guest);
      assert forall r :: r in rules ==> r in plan.rules;
      PlansHaveOneInterface(labels, req.ports, req.net.lookup, guest);
      forall r | r in rules && r.Dnat? ensures KeyOf(r) in AskedKeys(p, req) {
        PlanKeys(labels, req.ports, req.net.lookup, guest, r);
      }
    }
  }

  /** Such an event is clean for the port map, whose keys are the live tasks'. */
  lemma {:induction false} EventIsClean(p: Setup, sys: System, m: map<Key, Binding>, base: Tables, e: TaskEvent)
    requires PortsFree(p, sys, base, e) && MapOwned(m, sys.books, base)
    ensures |NetEvents(p, sys, e)| <= 1
    ensures NetEvents(p, sys, e) != [] ==> Clean(m, base, NetEvents(p, sys, e)[0])
  {
    hide Create, Failure, BuildNetwork, NetRequest, DomainName, Acceptable, AskedKeys, Keys, OneInterface, OwnedKey;
    if e.StartEvent? && NetEvents(p, sys, e) != [] {
      var cfg := TaskConfig(p, DomainName(e.id), e.start);
      CreateOutcome(p.driver, sys.vms, cfg, e.start.env, e.start.create);
      BuildKeys(p, e.start, Create(p.driver, sys.vms, cfg, e.start.env, e.start.create).processes[DomainName(e.id)].ip);
    }
  }

  /** So the whole run is. */
  lemma {:induction false} RunIsClean(p: Setup, sys: System, m: map<Key, Binding>, base: Tables, ids: set<string>,
      es: seq<TaskEvent>)
    requires p.driver.defaults.net.subnet.Some?
    requires DistinctNames(ids) && (forall e :: e in es ==> Uses(e, ids)) && Sound(p, sys, base, ids)
    requires Routed(m, sys.books, base) && PortsFreeRun(p, sys, base, es)
    ensures CleanRun(m, sys.books, base, Trace(p, sys, es))
    decreases |es|
  {
    hide Next, NetEvents, Sound, PortsFree, Clean, Uses, DistinctNames, Record, RouteStep, LiveServed, RestAsBase,
        MapOwned;
    if es != [] {
      assert es[0] in es;
      var now, next := NetEvents(p, sys, es[0]), Next(p, sys, es[0]);
      EventIsClean(p, sys, m, base, es[0]);
      NextBooks(p, sys, base, ids, es[0]);
      NextKeepsSound(p, sys, base, ids, es[0]);
      hide Routed;
      if now == [] {
        RunIsClean(p, next, m, base, ids, es[1..]);
        assert [] + Trace(p, next, es[1..]) == Trace(p, next, es[1..]);
      } else {
        OneCleanEvent(m, sys.books, base, now[0]);
        assert now == [now[0]];
        RunIsClean(p, next, RouteStep(m, sys.books, now[0]), base, ids, es[1..]);
        assert ([now[0]] + Trace(p, next, es[1..]))[1..] == Trace(p, next, es[1..]);
      }
    }
  }

  lemma {:induction false} OneCleanEvent(m: map<Key, Binding>, b: Books, base: Tables, e: NetEvent)
    requires Routed(m, b, base) && Clean(m, base, e)
    ensures Routed(RouteStep(m, b, e), Record(b, e), base) && RecordAll(b, [e]) == Record(b, e)
  {
    hide Routed, Clean, RouteStep, Record;
    assert [e][1..] == [];
    assert CleanRun(RouteStep(m, b, e), Record(b, e), base, []);
    assert RouteAll(RouteStep(m, b, e), Record(b, e), []) == RouteStep(m, b, e);
    OneEvent(b, e);
    RunRoutes(m, b, base, [e]);
  }

  // ----- Packets -----

  lemma {:induction false} RunIsRouted(p: Setup, host: Host, base: Tables, ids: set<string>, es: seq<TaskEvent>)
    requires p.driver.defaults.net.subnet.Some? && WellPlaced(base)
    requires DistinctNames(ids) && (forall e :: e in es ==> Uses(e, ids))
    requires PortsFreeRun(p, Initial(host, base), base, es)
    ensures var sys := RunTasks(p, Initial(host, base), es);
            && Routed(RouteAll(map[], Initial(host, base).books, Trace(p, Initial(host, base), es)), sys.books, base)
            && Directed(sys) && Accounted(sys.vms)
  {
    var start := Initial(host, base);
    assert Routed(map[], start.books, base);
    hide Routed, RunTasks, Trace, CleanRun, PortsFreeRun, RouteAll, RecordAll, Uses, DistinctNames, WellPlaced,
        Conserved, Stored, Directed, Accounted;
    InitialSound(p, host, base, ids);
    RunsKeepSound(p, start, base, ids, es);
    RunBooks(p, start, base, ids, es);
    RunIsClean(p, start, map[], base, ids, es);
    RunRoutes(map[], start.books, base, Trace(p, start, es));
  }

  /**
   From any first chains, after any run of starts and destroys, with failures
   anywhere, in which each start asks for host ports that no live task and no
   rule of the first chain uses: a packet to a host port for which no orphaned
   rule is left is treated as the port map says if a live task uses the port,
   and the map sends it to the address that the VM of that task alone holds; if
   none does, it is treated as it was at first.
   */
  lemma {:induction false} PacketsReachTheirVM(p: Setup, host: Host, base: Tables, ids: set<string>,
      es: seq<TaskEvent>, pkt: Packet)
    requires p.driver.defaults.net.subnet.Some? && WellPlaced(base)
    requires DistinctNames(ids) && (forall e :: e in es ==> Uses(e, ids))
    requires PortsFreeRun(p, Initial(host, base), base, es)
    ensures var sys := RunTasks(p, Initial(host, base), es);
            var m := RouteAll(map[], Initial(host, base).books, Trace(p, Initial(host, base), es));
            pkt.key !in Keys(sys.books.orphans) ==>
              && FirstMatch(sys.books.tables.prerouting, pkt)
                 == (if pkt.key in m then Lookup(m, pkt) else FirstMatch(base.prerouting, pkt))
              && (pkt.key in m <==> OwnedKey(sys.books.live, pkt.key))
              && (pkt.key in m ==>
                    exists name :: name in sys.books.live && pkt.key in Keys(sys.books.live[name])
                                   && SoleHolder(sys.vms, name, m[pkt.key].target.guestIP))
  {
    var start := Initial(host, base);
    var sys := RunTasks(p, start, es);
    var m := RouteAll(map[], start.books, Trace(p, start, es));
    RunIsRouted(p, host, base, ids, es);
    assert pkt.key in m <==> OwnedKey(sys.books.live, pkt.key);
    hide RunTasks, Trace, RouteAll, Routed, FirstMatch, PortsFreeRun, Keys, Uses, DistinctNames, WellPlaced, OwnedKey;
    if pkt.key !in Keys(sys.books.orphans) {
      RoutedMatch(m, sys.books, base, pkt);
      if pkt.key in m {
        BindingLeadsHome(sys, base, m, pkt.key);
        var name :| name in sys.books.live && pkt.key in Keys(sys.books.live[name])
                    && name in sys.vms.processes && sys.vms.processes[name].ip == m[pkt.key].target.guestIP;
        assert SoleHolder(sys.vms, name, m[pkt.key].target.guestIP);
      }
    }
  }
}
