/**
 The answers of a build, told from the request and the host alone: which of
 its four errors it returns, and which rules are in the chains after it.
 */
module Builds {
  import opened Outcomes
  import opened Text
  import opened Chains
  import opened Rules
  import opened NetController

  /** What a build asks of the host's network once it has a bridge and an address. */
  datatype Ask = Ask(labels: seq<string>, reserved: map<string, Port>)

  /** Label i of the reserved ones has a host address on a known interface. */
  predicate Known(a: Ask, h: HostNet, i: nat) {
    i < |ReservedLabels(a.labels, a.reserved)|
    && a.reserved[ReservedLabels(a.labels, a.reserved)[i]].hostIP in h.lookup
  }

  /** Every reserved label before the i-th has a known host address, and its two appends precede the failing one. */
  predicate Gets(a: Ask, h: HostNet, i: nat) {
    (forall j :: 0 <= j < i ==> Known(a, h, j)) && 2 * i <= h.appends
  }

  /** The failing append belongs to a label the build gets to. */
  predicate AppendBreaks(a: Ask, h: HostNet) {
    forall j :: 0 <= j <= h.appends / 2 ==> Known(a, h, j)
  }

  /** The build gets to a label whose host address is on no interface. */
  predicate InterfaceMissing(a: Ask, h: HostNet) {
    exists i :: 0 <= i < |ReservedLabels(a.labels, a.reserved)| && Gets(a, h, i) && !Known(a, h, i)
  }

  /** The build gets through all reserved labels. */
  predicate GetsThrough(a: Ask, h: HostNet) {
    Gets(a, h, |ReservedLabels(a.labels, a.reserved)|)
  }

  /** Which error configuring the chains ends with, if any. */
  lemma {:induction false} ConfigureAnswers(a: Ask, h: HostNet, ip: string)
    ensures var r := ConfigureResult(PlanRules(a.labels, a.reserved, h.lookup, ip), h.appends);
            && (r == Err(AppendFailed) <==> AppendBreaks(a, h))
            && (r == Err(NoInterface) <==> InterfaceMissing(a, h))
            && (r.Ok? <==> GetsThrough(a, h))
  {
    hide PlanRules, ReservedLabels;
    var plan := PlanRules(a.labels, a.reserved, h.lookup, ip);
    var kept := ReservedLabels(a.labels, a.reserved);
    PlanLength(a.labels, a.reserved, h.lookup, ip);
    var u := |plan.rules| / 2;
    forall j | 0 <= j < u ensures Known(a, h, j) {
      PlanByPosition(a.labels, a.reserved, h.lookup, ip, j);
    }
    assert !plan.complete ==> !Known(a, h, u);
    assert !Known(a, h, |kept|);
    assert h.appends < |plan.rules| <==> h.appends / 2 < u;
  }

  /** The appended rules, by position: a DNAT and an ACCEPT for each reserved label, in order. */
  ghost predicate RulesOf(rules: seq<Rule>, a: Ask, h: HostNet, ip: string) {
    forall k: nat :: k < |rules| ==>
      && Known(a, h, k / 2)
      && var port := a.reserved[ReservedLabels(a.labels, a.reserved)[k / 2]];
         rules[k] == if k % 2 == 0 then Dnat(port.hostIP, h.lookup[port.hostIP], port.value, ip, port.to)
                     else Accept(ip, port.to)
  }

  lemma {:induction false} AppendedRules(a: Ask, h: HostNet, ip: string)
    ensures var plan := PlanRules(a.labels, a.reserved, h.lookup, ip);
            var rules := Appended(plan, h.appends);
            && RulesOf(rules, a, h, ip)
            && (AppendBreaks(a, h) ==> |rules| == h.appends)
            && (GetsThrough(a, h) ==> rules == plan.rules && |rules| == 2 * |ReservedLabels(a.labels, a.reserved)|)
            && (InterfaceMissing(a, h) ==> exists i :: |rules| == 2 * i && Gets(a, h, i) && !Known(a, h, i))
  {
    hide PlanRules, ReservedLabels;
    var plan := PlanRules(a.labels, a.reserved, h.lookup, ip);
    var rules := Appended(plan, h.appends);
    ConfigureAnswers(a, h, ip);
    PlanLength(a.labels, a.reserved, h.lookup, ip);
    forall k: nat | k < |plan.rules|
      ensures Known(a, h, k / 2)
      ensures var port := a.reserved[ReservedLabels(a.labels, a.reserved)[k / 2]];
              plan.rules[k] == if k % 2 == 0 then Dnat(port.hostIP, h.lookup[port.hostIP], port.value, ip, port.to)
                               else Accept(ip, port.to)
    {
      PlanByPosition(a.labels, a.reserved, h.lookup, ip, k / 2);
    }
    forall j | 0 <= j < |plan.rules| / 2 ensures Known(a, h, j) {
      assert Known(a, h, (2 * j) / 2);
    }
    if InterfaceMissing(a, h) {
      assert Gets(a, h, |plan.rules| / 2) && !Known(a, h, |plan.rules| / 2);
    }
  }

  /** The address a build forwards to: the guest's first one, else the task's static one; empty if it has neither. */
  function Target(req: BuildRequest): string
    requires req.netInterface.Some?
  {
    if |req.guestIPs| > 0 && req.guestIPs[0] != "" then req.guestIPs[0] else req.netInterface.value.staticIP
  }

  /** Every answer of a build, and exactly when it is given. */
  lemma {:induction false} BuildAnswers(defaultBridge: string, req: BuildRequest, h: HostNet)
    ensures var build := BuildNetwork(defaultBridge, req, h);
            if req.netInterface.None? || req.reserved.None? then build == Build([], Ok(Response(None, None)))
            else
              var n := req.netInterface.value;
              var a := Ask(n.ports, req.reserved.value);
              var bridge := BridgeThere(defaultBridge, n.bridgeName, h.bridges);
              var configures := bridge && Target(req) != "" && h.iptables;
              && (build.result == Err(NoBridge) <==> !bridge)
              && (build.result == Err(NoAddress) <==> bridge && Target(req) == "")
              && (build.result == Err(AppendFailed) <==> configures && AppendBreaks(a, h))
              && (build.result == Err(NoInterface) <==> configures && InterfaceMissing(a, h))
              && (build.result.Ok? <==> bridge && Target(req) != "" && (h.iptables ==> GetsThrough(a, h)))
              && (build.result.Ok? ==> build.result.value == Response(Some(Target(req)), Some(build.appended)))
  {
    hide PlanRules, AppendBreaks, InterfaceMissing, GetsThrough;
    if req.netInterface.Some? && req.reserved.Some? {
      var a := Ask(req.netInterface.value.ports, req.reserved.value);
      ConfigureAnswers(a, h, Target(req));
    }
  }

  /** The rules a build leaves in the chains, one by one, whatever it answers. */
  lemma {:induction false} BuildAppends(defaultBridge: string, req: BuildRequest, h: HostNet)
    requires req.netInterface.Some? && req.reserved.Some?
    ensures var build := BuildNetwork(defaultBridge, req, h);
            var a := Ask(req.netInterface.value.ports, req.reserved.value);
            && RulesOf(build.appended, a, h, Target(req))
            && match build.result
               case Err(NoBridge) => build.appended == []
               case Err(NoAddress) => build.appended == []
               case Err(AppendFailed) => |build.appended| == h.appends
               case Err(NoInterface) => exists i :: |build.appended| == 2 * i && Gets(a, h, i) && !Known(a, h, i)
               case Ok(_) =>
                 |build.appended| == if h.iptables then 2 * |ReservedLabels(a.labels, a.reserved)| else 0
  {
    hide PlanRules, AppendBreaks, InterfaceMissing, GetsThrough;
    var a := Ask(req.netInterface.value.ports, req.reserved.value);
    AppendedRules(a, h, Target(req));
    BuildAnswers(defaultBridge, req, h);
    hide Known, Gets, ReservedLabels;
  }
}
