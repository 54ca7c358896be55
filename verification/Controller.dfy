/**
 The network controller's port-forwarding rules: what a build appends to the
 two shared chains and what a teardown deletes from them.
 */
module Rules {
  import opened Outcomes
  import opened Text
  import opened Chains

  /**
   The rules of the driver's two chains.  Foreign rules are ones somebody else
   put there, in the NAT chain or in the filter chain.
   */
  datatype Rule =
    | Dnat(hostIP: string, iface: string, hostPort: nat, guestIP: string, guestPort: nat)
    | Accept(guestIP: string, guestPort: nat)
    | Foreign(inNat: bool, text: string)

  /** Which of the two tables a rule belongs to. */
  predicate InNat(r: Rule) {
    r.Dnat? || (r.Foreign? && r.inNat)
  }

  predicate InFilter(r: Rule) {
    !InNat(r)
  }

  /** The argument list the driver passes to iptables, table and chain first. */
  function Args(r: Rule): seq<string>
    requires !r.Foreign?
  {
    match r
    case Dnat(hostIP, iface, hostPort, guestIP, guestPort) =>
      ["nat", "NOMAD_CH_PRT", "-d", hostIP, "-i", iface, "-p", "tcp", "-m", "tcp",
       "--dport", Itoa(hostPort), "-j", "DNAT", "--to-destination", guestIP + ":" + Itoa(guestPort)]
    case Accept(guestIP, guestPort) =>
      ["filter", "NOMAD_CH_FW", "-d", guestIP, "-p", "tcp", "-m", "state", "--state", "NEW", "-m", "tcp",
       "--dport", Itoa(guestPort), "-j", "ACCEPT"]
  }

  /** The argument after an option, as iptables reads the list. */
  function Given(args: seq<string>, option: string): Option<string> {
    if |args| < 2 then None
    else if args[0] == option then Some(args[1])
    else Given(args[1..], option)
  }

  /** The tables and chains, and what iptables reads after each option it is given. */
  lemma {:induction false} ArgsRead(r: Rule)
    requires !r.Foreign?
    ensures var args := Args(r);
            if r.Dnat? then
              && |args| == 16 && args[..2] == ["nat", "NOMAD_CH_PRT"]
              && Given(args[2..], "-d") == Some(r.hostIP) && Given(args[4..], "-i") == Some(r.iface)
              && Given(args[6..], "-p") == Some("tcp") && Given(args[8..], "-m") == Some("tcp")
              && Given(args[10..], "--dport") == Some(Itoa(r.hostPort))
              && Given(args[12..], "-j") == Some("DNAT")
              && Given(args[14..], "--to-destination") == Some(r.guestIP + ":" + Itoa(r.guestPort))
            else
              && |args| == 16 && args[..2] == ["filter", "NOMAD_CH_FW"]
              && Given(args[2..], "-d") == Some(r.guestIP) && Given(args[4..], "-p") == Some("tcp")
              && Given(args[6..], "-m") == Some("state") && Given(args[8..], "--state") == Some("NEW")
              && Given(args[10..], "-m") == Some("tcp")
              && Given(args[12..], "--dport") == Some(Itoa(r.guestPort))
              && Given(args[14..], "-j") == Some("ACCEPT")
  {
    hide Itoa;
  }

  /** Rules are the same exactly when the driver writes them the same way, so a saved argument list names one rule. */
  lemma {:induction false} ArgsInjective(a: Rule, b: Rule)
    requires !a.Foreign? && !b.Foreign? && Args(a) == Args(b)
    ensures a == b
  {
    assert Args(a)[0] == Args(b)[0];
    match a {
      case Dnat(_, _, _, _, _) =>
        assert Args(a)[3] == Args(b)[3] && Args(a)[5] == Args(b)[5] && Args(a)[11] == Args(b)[11]
                   && Args(a)[15] == Args(b)[15];
        LastSeparator(a.guestIP, Itoa(a.guestPort), b.guestIP, Itoa(b.guestPort), ':');
      case Accept(_, _) =>
        assert Args(a)[3] == Args(b)[3] && Args(a)[13] == Args(b)[13];
    }
    if a.Dnat? {
      ItoaInjective(a.hostPort, b.hostPort);
    }
    ItoaInjective(a.guestPort, b.guestPort);
  }

  // ----- Chains -----

  /** The NAT prerouting chain and the filter forward chain. */
  datatype Tables = Tables(prerouting: seq<Rule>, forward: seq<Rule>)

  function AppendRules(c: Tables, rs: seq<Rule>): Tables {
    Tables(c.prerouting + Filter(InNat, rs), c.forward + Filter(InFilter, rs))
  }

  function DeleteRules(c: Tables, rs: seq<Rule>): Tables {
    Tables(DeleteAll(c.prerouting, Filter(InNat, rs)), DeleteAll(c.forward, Filter(InFilter, rs)))
  }

  lemma {:induction false} AppendNone(c: Tables)
    ensures AppendRules(c, []) == c && DeleteRules(c, []) == c
  {
  }

  lemma {:induction false} DeleteAllOne<T(!new)>(s: seq<T>, r: T)
    ensures DeleteAll(s, []) == s && DeleteAll(s, [r]) == DeleteFirst(s, r)
  {
    assert [r][1..] == [];
  }

  /** A single rule is appended to, or deleted from, its own chain. */
  lemma {:induction false} OneRule(c: Tables, r: Rule)
    ensures AppendRules(c, [r]) == if InNat(r) then c.(prerouting := c.prerouting + [r])
            else c.(forward := c.forward + [r])
    ensures DeleteRules(c, [r])
            == if InNat(r) then c.(prerouting := DeleteFirst(c.prerouting, r))
               else c.(forward := DeleteFirst(c.forward, r))
  {
    assert c.prerouting + [] == c.prerouting && c.forward + [] == c.forward;
    DeleteAllOne(c.prerouting, r);
    DeleteAllOne(c.forward, r);
    assert Filter(InNat, [r]) == if InNat(r) then [r] else [];
    assert Filter(InFilter, [r]) == if InNat(r) then [] else [r];
  }

  lemma {:induction false} AppendThen(c: Tables, rs: seq<Rule>, ts: seq<Rule>)
    ensures AppendRules(AppendRules(c, rs), ts) == AppendRules(c, rs + ts)
  {
    hide Filter;
    FilterConcat(InNat, rs, ts);
    FilterConcat(InFilter, rs, ts);
    assert c.prerouting + Filter(InNat, rs) + Filter(InNat, ts)
            == c.prerouting + (Filter(InNat, rs) + Filter(InNat, ts));
    assert c.forward + Filter(InFilter, rs) + Filter(InFilter, ts)
            == c.forward + (Filter(InFilter, rs) + Filter(InFilter, ts));
  }

  lemma {:induction false} DeleteAllThen<T(!new)>(s: seq<T>, rs: seq<T>, ts: seq<T>)
    ensures DeleteAll(DeleteAll(s, rs), ts) == DeleteAll(s, rs + ts)
    decreases |rs|
  {
    if rs == [] {
      assert rs + ts == ts;
    } else {
      assert (rs + ts)[1..] == rs[1..] + ts;
      DeleteAllThen(DeleteFirst(s, rs[0]), rs[1..], ts);
    }
  }

  lemma {:induction false} DeleteThen(c: Tables, rs: seq<Rule>, ts: seq<Rule>)
    ensures DeleteRules(DeleteRules(c, rs), ts) == DeleteRules(c, rs + ts)
  {
    FilterConcat(InNat, rs, ts);
    FilterConcat(InFilter, rs, ts);
    DeleteAllThen(c.prerouting, Filter(InNat, rs), Filter(InNat, ts));
    DeleteAllThen(c.forward, Filter(InFilter, rs), Filter(InFilter, ts));
  }

  // ----- Builds -----

  /** A port Nomad reserved: host address and port, and the guest port it maps to. */
  datatype Port = Port(hostIP: string, value: nat, to: nat)

  function PortRules(p: Port, iface: string, ip: string): seq<Rule> {
    [Dnat(p.hostIP, iface, p.value, ip, p.to), Accept(ip, p.to)]
  }

  /** The rules for a list of port labels, looking every host interface up afresh. */
  datatype Planned = Plan(rules: seq<Rule>, complete: bool)

  /** Unreserved labels are skipped; the plan stops where an interface is unknown. */
  function PlanRules(labels: seq<string>, reserved: map<string, Port>, lookup: map<string, string>,
      ip: string): Planned {
    if labels == [] then Plan([], true)
    else if labels[0] !in reserved then PlanRules(labels[1..], reserved, lookup, ip)
    else
      var port := reserved[labels[0]];
      if port.hostIP !in lookup then Plan([], false)
      else
        var rest := PlanRules(labels[1..], reserved, lookup, ip);
        Plan(PortRules(port, lookup[port.hostIP], ip) + rest.rules, rest.complete)
  }

  /** A plan whose first rules are done and whose remaining ones are a plan of their own. */
  ghost predicate Continues(plan: Planned, done: seq<Rule>, rest: Planned) {
    plan.rules == done + rest.rules && plan.complete == rest.complete
  }

  lemma {:induction false} PlanStep(labels: seq<string>, i: nat, reserved: map<string, Port>,
      lookup: map<string, string>, ip: string)
    requires i < |labels|
    ensures var here := PlanRules(labels[i..], reserved, lookup, ip);
            var rest := PlanRules(labels[i + 1..], reserved, lookup, ip);
            if labels[i] !in reserved then here == rest
            else
              var port := reserved[labels[i]];
              if port.hostIP !in lookup then here == Plan([], false)
              else
                var dnat := Dnat(port.hostIP, lookup[port.hostIP], port.value, ip, port.to);
                here == Plan([dnat, Accept(ip, port.to)] + rest.rules, rest.complete)
  {
    assert labels[i..][0] == labels[i] && labels[i..][1..] == labels[i + 1..];
  }

  /** Doing a port's two rules moves a plan on to the rest. */
  lemma {:induction false} PlanAdvance(plan: Planned, done: seq<Rule>, a: Rule, b: Rule, rest: Planned)
    requires Continues(plan, done, Plan([a, b] + rest.rules, rest.complete))
    ensures |plan.rules| >= |done| + 2
    ensures plan.rules[|done|] == a && plan.rules[|done| + 1] == b
    ensures plan.rules[..|done|] == done && plan.rules[..|done| + 1] == done + [a]
    ensures Continues(plan, done + [a] + [b], rest)
  {
    assert done + ([a, b] + rest.rules) == done + [a] + [b] + rest.rules;
  }

  lemma {:induction false} PlanEnd(reserved: map<string, Port>, lookup: map<string, string>, ip: string)
    ensures PlanRules([], reserved, lookup, ip) == Plan([], true)
  {
  }

  /** Every planned rule is one of the driver's, leads to the guest, and names the interface of its host address. */
  lemma {:induction false} PlannedRules(labels: seq<string>, reserved: map<string, Port>, lookup: map<string, string>,
      ip: string)
    ensures forall r :: r in PlanRules(labels, reserved, lookup, ip).rules ==>
              && !r.Foreign? && r.guestIP == ip
              && (r.Dnat? ==> r.hostIP in lookup && r.iface == lookup[r.hostIP])
  {
    if labels != [] {
      PlannedRules(labels[1..], reserved, lookup, ip);
    }
  }

  /** The labels a build acts on, in order. */
  function ReservedLabels(labels: seq<string>, reserved: map<string, Port>): (r: seq<string>)
    ensures forall i :: 0 <= i < |r| ==> r[i] in reserved
  {
    var kept := Filter(l => l in reserved, labels);
    assert forall l :: l in kept ==> l in reserved;
    kept
  }

  /** A plan has two rules for each reserved label up to the first whose host address has no interface, if any. */
  lemma {:induction false} PlanLength(labels: seq<string>, reserved: map<string, Port>, lookup: map<string, string>,
      ip: string)
    ensures var plan := PlanRules(labels, reserved, lookup, ip);
            var kept := ReservedLabels(labels, reserved);
            && |plan.rules| % 2 == 0 && |plan.rules| <= 2 * |kept|
            && (plan.complete <==> |plan.rules| == 2 * |kept|)
            && (!plan.complete ==> reserved[kept[|plan.rules| / 2]].hostIP !in lookup)
  {
    if labels != [] {
      PlanLength(labels[1..], reserved, lookup, ip);
    }
  }

  /** The rules of the k-th reserved label: a DNAT from its host address and port, and the ACCEPT for where it leads. */
  lemma {:induction false} PlanByPosition(labels: seq<string>, reserved: map<string, Port>,
      lookup: map<string, string>, ip: string, k: nat)
    requires 2 * k < |PlanRules(labels, reserved, lookup, ip).rules|
    ensures var plan := PlanRules(labels, reserved, lookup, ip);
            var kept := ReservedLabels(labels, reserved);
            && k < |kept| && 2 * k + 1 < |plan.rules|
            && var port := reserved[kept[k]];
               && port.hostIP in lookup
               && plan.rules[2 * k] == Dnat(port.hostIP, lookup[port.hostIP], port.value, ip, port.to)
               && plan.rules[2 * k + 1] == Accept(ip, port.to)
  {
    if labels[0] !in reserved {
      PlanByPosition(labels[1..], reserved, lookup, ip, k);
    } else if k > 0 {
      PlanByPosition(labels[1..], reserved, lookup, ip, k - 1);
    }
  }

  /**
   A plan is complete exactly when every reserved label's host address has an interface, and
   empty when the first has none.
   */
  lemma {:induction false} PlanCompleteIff(labels: seq<string>, reserved: map<string, Port>,
      lookup: map<string, string>, ip: string)
    ensures var plan := PlanRules(labels, reserved, lookup, ip);
            var kept := ReservedLabels(labels, reserved);
            && (plan.complete <==> forall i :: 0 <= i < |kept| ==> reserved[kept[i]].hostIP in lookup)
            && (plan.rules == [] <==> kept == [] || reserved[kept[0]].hostIP !in lookup)
  {
    hide PlanRules, ReservedLabels;
    var plan := PlanRules(labels, reserved, lookup, ip);
    var kept := ReservedLabels(labels, reserved);
    PlanLength(labels, reserved, lookup, ip);
    forall i | 0 <= i < |plan.rules| / 2 ensures reserved[kept[i]].hostIP in lookup {
      PlanByPosition(labels, reserved, lookup, ip, i);
    }
  }

  datatype BuildError = NoBridge | NoAddress | NoInterface | AppendFailed

  /** The part of a plan that reaches the chains when the append numbered `appends` fails. */
  function Appended(plan: Planned, appends: nat): seq<Rule> {
    if appends < |plan.rules| then plan.rules[..appends] else plan.rules
  }

  function ConfigureResult(plan: Planned, appends: nat): Result<seq<Rule>, BuildError> {
    if appends < |plan.rules| then Err(AppendFailed)
    else if !plan.complete then Err(NoInterface)
    else Ok(plan.rules)
  }

  /** The three ways a build can stop, given the rules it has appended so far. */
  lemma {:induction false} ConfigureStops(plan: Planned, done: seq<Rule>, appends: nat)
    requires |done| <= appends
    ensures |done| == appends && |done| < |plan.rules| && plan.rules[..|done|] == done ==>
              ConfigureResult(plan, appends) == Err(AppendFailed) && Appended(plan, appends) == done
    ensures Continues(plan, done, Plan([], false)) ==>
              ConfigureResult(plan, appends) == Err(NoInterface) && Appended(plan, appends) == done
    ensures Continues(plan, done, Plan([], true)) ==>
              ConfigureResult(plan, appends) == Ok(done) && Appended(plan, appends) == done
  {
    assert done + [] == done;
  }

  // ----- Teardowns -----

  /** The rules of a specification whose deletion goes through; `fails` are the indices of the others. */
  function Deleted(rules: seq<Rule>, fails: set<nat>): (r: seq<Rule>)
    ensures forall x :: x in r ==> x in rules
  {
    if rules == [] then []
    else
      var last := |rules| - 1;
      if last in fails then Deleted(rules[..last], fails) else Deleted(rules[..last], fails) + [rules[last]]
  }

  function Undeleted(rules: seq<Rule>, fails: set<nat>): seq<Rule> {
    if rules == [] then []
    else
      var last := |rules| - 1;
      if last in fails then Undeleted(rules[..last], fails) + [rules[last]] else Undeleted(rules[..last], fails)
  }

  /** Whether a teardown reports no error. */
  predicate AllDeleted(rules: seq<Rule>, fails: set<nat>) {
    forall i :: 0 <= i < |rules| ==> i !in fails
  }

  lemma {:induction false} DeletedStep(rules: seq<Rule>, i: nat, fails: set<nat>)
    requires i < |rules|
    ensures Deleted(rules[..i + 1], fails)
            == if i in fails then Deleted(rules[..i], fails) else Deleted(rules[..i], fails) + [rules[i]]
    ensures AllDeleted(rules[..i + 1], fails) <==> AllDeleted(rules[..i], fails) && i !in fails
  {
    assert rules[..i + 1][..i] == rules[..i];
  }

  lemma {:induction false} DeletedSplit(rules: seq<Rule>, fails: set<nat>)
    ensures multiset(Deleted(rules, fails)) + multiset(Undeleted(rules, fails)) == multiset(rules)
  {
    if rules != [] {
      var last := |rules| - 1;
      DeletedSplit(rules[..last], fails);
      assert rules == rules[..last] + [rules[last]];
    }
  }

  lemma {:induction false} DeletedEvery(rules: seq<Rule>, fails: set<nat>)
    requires AllDeleted(rules, fails)
    ensures Deleted(rules, fails) == rules && Undeleted(rules, fails) == []
  {
    if rules != [] {
      var last := |rules| - 1;
      DeletedEvery(rules[..last], fails);
      assert rules == rules[..last] + [rules[last]];
    }
  }
}

/** The controller as the plugin calls it, over the host's two chains. */
module NetController {
  import opened Outcomes
  import opened Text
  import opened Chains
  import opened Rules

  /** What a build is asked for; the interface, when there is one, has a bridge block. */
  datatype NetInterface = NetInterface(bridgeName: string, ports: seq<string>, staticIP: string)
  datatype BuildRequest = BuildRequest(netInterface: Option<NetInterface>, reserved: Option<map<string, Port>>,
      guestIPs: seq<string>)

  datatype Response = Response(driverIP: Option<string>, teardown: Option<seq<Rule>>)

  /**
   What one build meets on the host: its bridges, whether iptables is usable, its interfaces,
   and the append that fails.
   */
  datatype HostNet = HostNet(bridges: set<string>, iptables: bool, lookup: map<string, string>, appends: nat)

  /** The guest address: the virtualizer's, else the task's static one. */
  function GuestAddress(req: BuildRequest): Option<string> {
    if req.guestIPs != [] && req.guestIPs[0] != "" then Some(req.guestIPs[0])
    else if req.netInterface.Some? && req.netInterface.value.staticIP != "" then Some(req.netInterface.value.staticIP)
    else None
  }

  function BridgeName(defaultBridge: string, n: NetInterface): string {
    if n.bridgeName != "" then n.bridgeName else defaultBridge
  }

  /** The rules a build appends, and what it returns. */
  datatype Build = Build(appended: seq<Rule>, result: Result<Response, BuildError>)

  function BuildNetwork(defaultBridge: string, req: BuildRequest, h: HostNet): Build {
    if req.netInterface.None? || req.reserved.None? then Build([], Ok(Response(None, None)))
    else
      var n := req.netInterface.value;
      var bridge := BridgeName(defaultBridge, n);
      if bridge == "" || bridge !in h.bridges then Build([], Err(NoBridge))
      else
        match GuestAddress(req)
        case None => Build([], Err(NoAddress))
        case Some(ip) =>
          if !h.iptables then Build([], Ok(Response(Some(ip), Some([]))))
          else
            var plan := PlanRules(n.ports, req.reserved.value, h.lookup, ip);
            Build(Appended(plan, h.appends),
                  match ConfigureResult(plan, h.appends)
                  case Ok(rules) => Ok(Response(Some(ip), Some(rules)))
                  case Err(e) => Err(e))
  }

  /** The bridge the task names, else the driver's, is one of the host's. */
  predicate BridgeThere(defaultBridge: string, taskBridge: string, bridges: set<string>) {
    if taskBridge != "" then taskBridge in bridges else defaultBridge != "" && defaultBridge in bridges
  }

  /**
   What makes a build stop after it appended rules: it gets as far as the first
   append, that one works, and a later append fails or some reserved label's
   host address is on no interface.
   */
  predicate StopsPartWay(defaultBridge: string, req: BuildRequest, h: HostNet) {
    && req.netInterface.Some? && req.reserved.Some?
    && BridgeThere(defaultBridge, req.netInterface.value.bridgeName, h.bridges)
    && ((|req.guestIPs| > 0 && req.guestIPs[0] != "") || req.netInterface.value.staticIP != "")
    && h.iptables && h.appends > 0
    && var reserved := req.reserved.value;
       var kept := ReservedLabels(req.netInterface.value.ports, reserved);
       && kept != [] && reserved[kept[0]].hostIP in h.lookup
       && (h.appends < 2 * |kept| || exists i :: 0 <= i < |kept| && reserved[kept[i]].hostIP !in h.lookup)
  }

  /** A build returns an error and leaves rules in the chains exactly then. */
  lemma {:induction false} StopsPartWayIff(defaultBridge: string, req: BuildRequest, h: HostNet)
    ensures var build := BuildNetwork(defaultBridge, req, h);
            build.result.Err? && build.appended != [] <==> StopsPartWay(defaultBridge, req, h)
  {
    if req.netInterface.Some? && req.reserved.Some? && GuestAddress(req).Some? {
      hide PlanRules, ReservedLabels;
      var labels, reserved, ip := req.netInterface.value.ports, req.reserved.value, GuestAddress(req).value;
      PlanLength(labels, reserved, h.lookup, ip);
      PlanCompleteIff(labels, reserved, h.lookup, ip);
      var plan := PlanRules(labels, reserved, h.lookup, ip);
      assert h.appends < |plan.rules| ==> |plan.rules[..h.appends]| == h.appends;
    }
  }

  /** With two host addresses, one of them on no interface, that happens although iptables never fails. */
  lemma {:induction false} UnknownInterfaceLeavesRules(appends: nat)
    requires appends >= 2
    ensures var reserved := map["a" := Port("192.0.2.1", 8080, 80), "b" := Port("192.0.2.9", 8081, 81)];
            var req := BuildRequest(Some(NetInterface("br0", ["a", "b"], "")), Some(reserved), ["10.0.0.2"]);
            var build := BuildNetwork("", req, HostNet({"br0"}, true, map["192.0.2.1" := "eth0"], appends));
            && build.result == Err(NoInterface)
            && build.appended == [Dnat("192.0.2.1", "eth0", 8080, "10.0.0.2", 80), Accept("10.0.0.2", 80)]
  {
    var reserved := map["a" := Port("192.0.2.1", 8080, 80), "b" := Port("192.0.2.9", 8081, 81)];
    var lookup := map["192.0.2.1" := "eth0"];
    assert ["a", "b"][1..] == ["b"];
    assert PlanRules(["b"], reserved, lookup, "10.0.0.2") == Plan([], false);
    assert PlanRules(["a", "b"], reserved, lookup, "10.0.0.2")
        == Plan([Dnat("192.0.2.1", "eth0", 8080, "10.0.0.2", 80), Accept("10.0.0.2", 80)] + [], false);
  }

  /** The chains after a teardown; without iptables it does nothing and reports no error. */
  function Teardown(c: Tables, rules: seq<Rule>, iptables: bool, fails: set<nat>): Tables {
    if iptables then DeleteRules(c, Deleted(rules, fails)) else c
  }

  predicate TeardownReportsNil(rules: seq<Rule>, iptables: bool, fails: set<nat>) {
    !iptables || AllDeleted(rules, fails)
  }

  class Controller {
    // The host's chains, NOMAD_CH_PRT and NOMAD_CH_FW
    var prerouting: seq<Rule>
    var forward: seq<Rule>
    const bridge: string

    function Contents(): Tables
      reads `prerouting, `forward
    {
      Tables(prerouting, forward)
    }

    constructor (bridge: string, prerouting: seq<Rule>, forward: seq<Rule>)
      ensures this.bridge == bridge && Contents() == Tables(prerouting, forward)
    {
      this.bridge, this.prerouting, this.forward := bridge, prerouting, forward;
    }

    method Append(r: Rule)
      modifies `prerouting, `forward
      ensures Contents() == AppendRules(old(Contents()), [r])
    {
      OneRule(Contents(), r);
      if InNat(r) {
        prerouting := prerouting + [r];
      } else {
        forward := forward + [r];
      }
    }

    method DeleteIfExists(r: Rule)
      modifies `prerouting, `forward
      ensures Contents() == DeleteRules(old(Contents()), [r])
    {
      OneRule(Contents(), r);
      if InNat(r) {
        prerouting := DeleteFirst(prerouting, r);
      } else {
        forward := DeleteFirst(forward, r);
      }
    }

    /** Adds the rules for the given port labels, looking each host address up once. */
    method ConfigureIPTables(labels: seq<string>, reserved: map<string, Port>, ip: string, h: HostNet)
        returns (r: Result<seq<Rule>, BuildError>)
      modifies `prerouting, `forward
      ensures !h.iptables ==> r == Ok([]) && Contents() == old(Contents())
      ensures h.iptables ==>
                var plan := PlanRules(labels, reserved, h.lookup, ip);
                && r == ConfigureResult(plan, h.appends)
                && Contents() == AppendRules(old(Contents()), Appended(plan, h.appends))
    {
      var teardownRules: seq<Rule> := [];
      if !h.iptables {
        return Ok(teardownRules);
      }
      var interfaceMapping: map<string, string> := map[];
      ghost var plan := PlanRules(labels, reserved, h.lookup, ip);
      ghost var before := Contents();
      AppendNone(before);
      PlanEnd(reserved, h.lookup, ip);
      assert labels[0..] == labels;
      assert Continues(plan, [], plan);
      hide PlanRules, AppendRules, Continues, ConfigureResult, Appended;
      var i := 0;
      while i < |labels|
        invariant i <= |labels|
        invariant forall a :: a in interfaceMapping ==> a in h.lookup && interfaceMapping[a] == h.lookup[a]
        invariant Continues(plan, teardownRules, PlanRules(labels[i..], reserved, h.lookup, ip))
        invariant |teardownRules| <= h.appends
        invariant Contents() == AppendRules(before, teardownRules)
      {
        PlanStep(labels, i, reserved, h.lookup, ip);
        var portLabel := labels[i];
        i := i + 1;
        if portLabel !in reserved {
          continue;
        }
        var port := reserved[portLabel];
        var iface;
        if port.hostIP in interfaceMapping {
          iface := interfaceMapping[port.hostIP];
        } else {
          if port.hostIP !in h.lookup {
            ConfigureStops(plan, teardownRules, h.appends);
            return Err(NoInterface);
          }
          iface := h.lookup[port.hostIP];
          interfaceMapping := interfaceMapping[port.hostIP := iface];
        }
        var preRouteArgs := Dnat(port.hostIP, iface, port.value, ip, port.to);
        var filterArgs := Accept(ip, port.to);
        PlanAdvance(plan, teardownRules, preRouteArgs, filterArgs, PlanRules(labels[i..], reserved, h.lookup, ip));
        if |teardownRules| == h.appends {
          ConfigureStops(plan, teardownRules, h.appends);
          return Err(AppendFailed);
        }
        AppendThen(before, teardownRules, [preRouteArgs]);
        Append(preRouteArgs);
        teardownRules := teardownRules + [preRouteArgs];
        if |teardownRules| == h.appends {
          ConfigureStops(plan, teardownRules, h.appends);
          return Err(AppendFailed);
        }
        AppendThen(before, teardownRules, [filterArgs]);
        Append(filterArgs);
        teardownRules := teardownRules + [filterArgs];
      }
      assert labels[i..] == [];
      ConfigureStops(plan, teardownRules, h.appends);
      r := Ok(teardownRules);
    }

    method VMStartedBuild(req: BuildRequest, h: HostNet) returns (r: Result<Response, BuildError>)
      modifies `prerouting, `forward
      ensures r == BuildNetwork(bridge, req, h).result
      ensures Contents() == AppendRules(old(Contents()), BuildNetwork(bridge, req, h).appended)
    {
      if req.netInterface.None? || req.reserved.None? {
        return Ok(Response(None, None));
      }
      var n := req.netInterface.value;
      var bridgeName := if n.bridgeName != "" then n.bridgeName else bridge;
      if bridgeName != "" {
        if bridgeName !in h.bridges {
          return Err(NoBridge);
        }
      } else {
        return Err(NoBridge);
      }
      var ip;
      if |req.guestIPs| > 0 && req.guestIPs[0] != "" {
        ip := req.guestIPs[0];
      } else if n.staticIP != "" {
        ip := n.staticIP;
      } else {
        return Err(NoAddress);
      }
      var rules := ConfigureIPTables(n.ports, req.reserved.value, ip, h);
      match rules {
        case Err(e) => r := Err(e);
        case Ok(teardownRules) => r := Ok(Response(Some(ip), Some(teardownRules)));
      }
    }

    /** Deletes every rule of a specification, carrying on past failures. */
    method VMTerminatedTeardown(spec: Option<seq<Rule>>, iptables: bool, fails: set<nat>) returns (ok: bool)
      modifies `prerouting, `forward
      ensures spec.None? ==> ok && Contents() == old(Contents())
      ensures spec.Some? ==> (ok <==> TeardownReportsNil(spec.value, iptables, fails))
      ensures spec.Some? ==> Contents() == Teardown(old(Contents()), spec.value, iptables, fails)
    {
      ok := true;
      if spec.None? || !iptables {
        return;
      }
      var rules := spec.value;
      ghost var before := Contents();
      AppendNone(before);
      assert Deleted([], fails) == [] && AllDeleted([], fails);
      hide DeleteRules, Deleted, AllDeleted;
      for i := 0 to |rules|
        invariant ok <==> AllDeleted(rules[..i], fails)
        invariant Contents() == DeleteRules(before, Deleted(rules[..i], fails))
      {
        DeletedStep(rules, i, fails);
        if i in fails {
          ok := false;
        } else {
          DeleteThen(before, Deleted(rules[..i], fails), [rules[i]]);
          DeleteIfExists(rules[i]);
        }
      }
      assert rules[..|rules|] == rules;
    }
  }
}
