/**
 What the NAT chain does to packets: with distinct host ports for live tasks,
 evaluating the chain rule by rule is looking the packet's destination up in a
 finite map, in whatever order tasks came and went.
 */
module Forwarding {
  import opened Outcomes
  import opened Chains
  import opened Rules
  import opened NetController
  import opened Ledger

  datatype Key = Key(hostIP: string, hostPort: nat)
  datatype Packet = Packet(key: Key, iface: string)
  datatype Target = Target(guestIP: string, guestPort: nat)
  datatype Binding = Binding(iface: string, target: Target)

  function KeyOf(r: Rule): Key
    requires r.Dnat?
  {
    Key(r.hostIP, r.hostPort)
  }

  /** The DNAT rules for one key. */
  function ForKey(k: Key): Rule -> bool {
    (r: Rule) => r.Dnat? && KeyOf(r) == k
  }

  function Keys(rules: seq<Rule>): set<Key> {
    set r | r in rules && r.Dnat? :: KeyOf(r)
  }

  /** iptables takes the first rule that matches. */
  function FirstMatch(chain: seq<Rule>, p: Packet): Option<Target> {
    if chain == [] then None
    else if chain[0].Dnat? && KeyOf(chain[0]) == p.key && chain[0].iface == p.iface then
      Some(Target(chain[0].guestIP, chain[0].guestPort))
    else FirstMatch(chain[1..], p)
  }

  /** The map a list of rules stands for: for each key, the first rule's binding. */
  function PortMap(rules: seq<Rule>): (m: map<Key, Binding>)
    ensures m.Keys == Keys(rules)
  {
    if rules == [] then map[]
    else
      assert rules == [rules[0]] + rules[1..];
      var rest := PortMap(rules[1..]);
      if rules[0].Dnat? then
        rest[KeyOf(rules[0]) := Binding(rules[0].iface, Target(rules[0].guestIP, rules[0].guestPort))]
      else rest
  }

  function Lookup(m: map<Key, Binding>, p: Packet): Option<Target> {
    if p.key in m && m[p.key].iface == p.iface then Some(m[p.key].target) else None
  }

  /** A host address is on one interface, as it is throughout one build. */
  predicate OneInterface(rules: seq<Rule>) {
    forall a, b :: a in rules && b in rules && a.Dnat? && b.Dnat? && a.hostIP == b.hostIP ==> a.iface == b.iface
  }

  /** Every rule list a build plans has one interface for each host address. */
  lemma {:induction false} PlansHaveOneInterface(labels: seq<string>, reserved: map<string, Port>,
      lookup: map<string, string>, ip: string)
    ensures OneInterface(PlanRules(labels, reserved, lookup, ip).rules)
  {
    PlannedRules(labels, reserved, lookup, ip);
  }

  lemma {:induction false} MatchIsByKey(chain: seq<Rule>, p: Packet)
    ensures FirstMatch(chain, p) == FirstMatch(Filter(ForKey(p.key), chain), p)
  {
    if chain != [] {
      MatchIsByKey(chain[1..], p);
      if ForKey(p.key)(chain[0]) {
        assert Filter(ForKey(p.key), chain)[1..] == Filter(ForKey(p.key), chain[1..]);
      }
    }
  }

  /** On one task's rules, first match is map lookup. */
  lemma {:induction false} TaskMatchIsLookup(rules: seq<Rule>, p: Packet)
    requires OneInterface(rules)
    ensures FirstMatch(rules, p) == Lookup(PortMap(rules), p)
  {
    if rules != [] {
      var r := rules[0];
      TaskMatchIsLookup(rules[1..], p);
      if r.Dnat? && KeyOf(r) == p.key && r.iface != p.iface {
        assert r in rules;
        NoMatch(rules[1..], p);
      }
    }
  }

  lemma {:induction false} NoMatch(rules: seq<Rule>, p: Packet)
    requires forall r :: r in rules && r.Dnat? && r.hostIP == p.key.hostIP ==> r.iface != p.iface
    ensures FirstMatch(rules, p).None?
  {
    if rules != [] {
      assert rules[0] in rules;
      NoMatch(rules[1..], p);
    }
  }

  // ----- The refinement -----

  /** The abstract router: a map, to which builds add their bindings and from which teardowns take their keys. */
  function RouteStep(m: map<Key, Binding>, b: Books, e: NetEvent): map<Key, Binding> {
    match e
    case Built(task, rules) => if task in b.live then m else m + PortMap(rules)
    case BuildFailed(_) => m
    case TornDown(task, _, _) => if task in b.live then m - Keys(b.live[task]) else m
  }

  /** Only this is asked of a run, whatever fails in it: new host ports are nobody's yet. */
  ghost predicate Clean(m: map<Key, Binding>, base: Tables, e: NetEvent) {
    e.Built? ==> OneInterface(e.rules) && Keys(e.rules) !! m.Keys && Keys(e.rules) !! Keys(base.prerouting)
  }

  /** The concrete and abstract machines run side by side on such events. */
  ghost predicate CleanRun(m: map<Key, Binding>, b: Books, base: Tables, es: seq<NetEvent>)
    decreases |es|
  {
    es != [] ==> Clean(m, base, es[0]) && CleanRun(RouteStep(m, b, es[0]), Record(b, es[0]), base, es[1..])
  }

  function RouteAll(m: map<Key, Binding>, b: Books, es: seq<NetEvent>): map<Key, Binding>
    decreases |es|
  {
    if es == [] then m else RouteAll(RouteStep(m, b, es[0]), Record(b, es[0]), es[1..])
  }

  /** One key's part of a chain and of the map are those of a list of rules. */
  ghost predicate ServesKey(m: map<Key, Binding>, chain: seq<Rule>, rules: seq<Rule>, k: Key) {
    Filter(ForKey(k), chain) == Filter(ForKey(k), rules) && k in m && k in PortMap(rules) && m[k] == PortMap(rules)[k]
  }

  /** Every key of a task's rules is served, but for keys that an orphaned rule takes part in. */
  ghost predicate Serves(m: map<Key, Binding>, chain: seq<Rule>, lost: set<Key>, rules: seq<Rule>) {
    OneInterface(rules) && forall k :: k in Keys(rules) && k !in lost ==> ServesKey(m, chain, rules, k)
  }

  /** Every live task is served by its own rules, and no two share a key. */
  ghost predicate LiveServed(m: map<Key, Binding>, b: Books) {
    && (forall task :: task in b.live ==> Serves(m, b.tables.prerouting, Keys(b.orphans), b.live[task]))
    && (forall s, t :: s in b.live && t in b.live && s != t ==> Keys(b.live[s]) !! Keys(b.live[t]))
  }

  /** The map's keys are exactly the live tasks', none of them the base chain's. */
  ghost predicate MapOwned(m: map<Key, Binding>, b: Books, base: Tables) {
    && (forall k :: k in m ==> k !in Keys(base.prerouting))
    && (forall k :: k in m <==> OwnedKey(b.live, k))
  }

  ghost predicate OwnedKey(live: map<string, seq<Rule>>, k: Key) {
    exists task :: task in live && k in Keys(live[task])
  }

  /** Keys of no live task and no orphaned rule are treated as at first. */
  ghost predicate RestAsBase(m: map<Key, Binding>, b: Books, base: Tables) {
    forall k :: k !in m && k !in Keys(b.orphans) ==>
      Filter(ForKey(k), b.tables.prerouting) == Filter(ForKey(k), base.prerouting)
  }

  ghost predicate Routed(m: map<Key, Binding>, b: Books, base: Tables) {
    LiveServed(m, b) && MapOwned(m, b, base) && RestAsBase(m, b, base)
  }

  lemma {:induction false} AbsentKey(rules: seq<Rule>, k: Key)
    requires k !in Keys(rules)
    ensures Filter(ForKey(k), rules) == []
  {
    forall r | r in rules ensures !ForKey(k)(r) {
      if r.Dnat? {
        assert KeyOf(r) in Keys(rules);
      }
    }
    FilterNone(ForKey(k), rules);
  }

  lemma {:induction false} NatSideByKey(rules: seq<Rule>, k: Key)
    ensures Filter(ForKey(k), Filter(InNat, rules)) == Filter(ForKey(k), rules)
  {
    FilterFilter(ForKey(k), InNat, rules);
  }

  lemma {:induction false} AppendByKey(c: Tables, rules: seq<Rule>, k: Key)
    ensures Filter(ForKey(k), AppendRules(c, rules).prerouting)
            == Filter(ForKey(k), c.prerouting) + Filter(ForKey(k), rules)
  {
    FilterConcat(ForKey(k), c.prerouting, Filter(InNat, rules));
    NatSideByKey(rules, k);
  }

  lemma {:induction false} DeleteByKey(c: Tables, rules: seq<Rule>, k: Key)
    ensures Filter(ForKey(k), DeleteRules(c, rules).prerouting)
            == DeleteAll(Filter(ForKey(k), c.prerouting), Filter(ForKey(k), rules))
  {
    FilterDeleteAll(ForKey(k), c.prerouting, Filter(InNat, rules));
    NatSideByKey(rules, k);
  }

  /** An append changes the part of the chain for the appended keys only. */
  lemma {:induction false} AppendAtKey(c: Tables, rules: seq<Rule>, k: Key)
    ensures k !in Keys(rules) ==> Filter(ForKey(k), AppendRules(c, rules).prerouting) == Filter(ForKey(k), c.prerouting)
    ensures Filter(ForKey(k), c.prerouting) == [] ==>
              Filter(ForKey(k), AppendRules(c, rules).prerouting) == Filter(ForKey(k), rules)
  {
    AppendByKey(c, rules, k);
    hide Filter, AppendRules;
    if k !in Keys(rules) {
      AbsentKey(rules, k);
    }
  }

  lemma {:induction false} KeysConcat(a: seq<Rule>, b: seq<Rule>)
    ensures Keys(a + b) == Keys(a) + Keys(b)
  {
    forall k | k in Keys(a) + Keys(b) ensures k in Keys(a + b) {
      var r :| (r in a || r in b) && r.Dnat? && KeyOf(r) == k;
      assert r in a + b;
    }
  }

  /** A key none of whose rules is left undeleted has all of them deleted. */
  lemma {:induction false} DeletedAtKey(rules: seq<Rule>, fails: set<nat>, k: Key)
    requires k !in Keys(Undeleted(rules, fails))
    ensures Filter(ForKey(k), Deleted(rules, fails)) == Filter(ForKey(k), rules)
  {
    if rules != [] {
      var init, last := rules[..|rules| - 1], rules[|rules| - 1];
      assert rules == init + [last];
      if |rules| - 1 in fails {
        KeysConcat(Undeleted(init, fails), [last]);
        AbsentKey([last], k);
      }
      DeletedAtKey(init, fails, k);
      FilterConcat(ForKey(k), init, [last]);
      FilterConcat(ForKey(k), Deleted(init, fails), [last]);
    }
  }

  /** Leaving rules behind at some keys, a change of the chain empties a task's other keys and spares the rest. */
  ghost predicate Vacates(chain: seq<Rule>, after: seq<Rule>, rules: seq<Rule>, lost: set<Key>) {
    forall k :: k !in lost ==>
      && (k !in Keys(rules) ==> Filter(ForKey(k), after) == Filter(ForKey(k), chain))
      && (k in Keys(rules) && Filter(ForKey(k), chain) == Filter(ForKey(k), rules) ==> Filter(ForKey(k), after) == [])
  }

  /** A teardown, wherever its deletions fail, does that to the keys of the rules it leaves. */
  lemma {:induction false} DeleteVacates(c: Tables, rules: seq<Rule>, fails: set<nat>)
    ensures Vacates(c.prerouting, DeleteRules(c, Deleted(rules, fails)).prerouting,
                    rules, Keys(Undeleted(rules, fails)))
  {
    hide Filter, DeleteRules, ForKey;
    var gone := Deleted(rules, fails);
    forall k | k !in Keys(Undeleted(rules, fails))
      ensures k !in Keys(rules) ==>
                Filter(ForKey(k), DeleteRules(c, gone).prerouting) == Filter(ForKey(k), c.prerouting)
      ensures k in Keys(rules) && Filter(ForKey(k), c.prerouting) == Filter(ForKey(k), rules) ==>
                Filter(ForKey(k), DeleteRules(c, gone).prerouting) == []
    {
      DeletedAtKey(rules, fails, k);
      DeleteByKey(c, gone, k);
      if k !in Keys(rules) {
        AbsentKey(rules, k);
      }
      DeleteEverything(Filter(ForKey(k), rules), Filter(ForKey(k), rules));
    }
  }

  lemma {:induction false} TornDownVacates(b: Books, task: string, iptables: bool, fails: set<nat>)
    requires task in b.live
    ensures var after := Record(b, TornDown(task, iptables, fails));
            && Keys(b.orphans) <= Keys(after.orphans)
            && Vacates(b.tables.prerouting, after.tables.prerouting, b.live[task], Keys(after.orphans))
  {
    var rules := b.live[task];
    var after := Record(b, TornDown(task, iptables, fails));
    hide Filter, DeleteRules, ForKey, Keys, Deleted, Undeleted;
    KeysConcat(b.orphans, if iptables then Undeleted(rules, fails) else rules);
    if iptables {
      DeleteVacates(b.tables, rules, fails);
    }
  }

  lemma {:induction false} BuildServes(m: map<Key, Binding>, b: Books, base: Tables, task: string, rules: seq<Rule>)
    requires Routed(m, b, base) && Clean(m, base, Built(task, rules)) && task !in b.live
    ensures LiveServed(m + PortMap(rules), Record(b, Built(task, rules)))
  {
    hide Filter, PortMap, OneInterface, AppendRules, Keys, ForKey;
    var m', b' := m + PortMap(rules), Record(b, Built(task, rules));
    var chain, chain', lost := b.tables.prerouting, b'.tables.prerouting, Keys(b.orphans);
    forall k | k in Keys(rules) && k !in lost ensures ServesKey(m', chain', rules, k) {
      AppendAtKey(b.tables, rules, k);
      AbsentKey(base.prerouting, k);
    }
    forall t | t in b.live ensures Serves(m', chain', lost, b.live[t]) && Keys(b.live[t]) !! Keys(rules) {
      assert forall k :: k in Keys(b.live[t]) ==> OwnedKey(b.live, k);
      assert Serves(m, chain, lost, b.live[t]);
      forall k | k in Keys(b.live[t]) && k !in lost ensures ServesKey(m', chain', b.live[t], k) {
        assert ServesKey(m, chain, b.live[t], k);
        AppendAtKey(b.tables, rules, k);
      }
    }
  }

  lemma {:induction false} BuildOwns(m: map<Key, Binding>, b: Books, base: Tables, task: string, rules: seq<Rule>)
    requires MapOwned(m, b, base) && Clean(m, base, Built(task, rules)) && task !in b.live
    ensures MapOwned(m + PortMap(rules), Record(b, Built(task, rules)), base)
  {
    hide PortMap, OneInterface, AppendRules, Keys;
    var live' := b.live[task := rules];
    forall k ensures k in m + PortMap(rules) <==> OwnedKey(live', k) {
      if k in PortMap(rules) {
        assert task in live' && k in Keys(live'[task]);
      } else if k in m {
        assert OwnedKey(b.live, k);
        var t :| t in b.live && k in Keys(b.live[t]);
        assert t in live' && k in Keys(live'[t]);
      }
    }
  }

  /** A build with new keys keeps the chain and the map in step. */
  lemma {:induction false} BuildRoutes(m: map<Key, Binding>, b: Books, base: Tables, task: string, rules: seq<Rule>)
    requires Routed(m, b, base) && Clean(m, base, Built(task, rules)) && task !in b.live
    ensures Routed(m + PortMap(rules), Record(b, Built(task, rules)), base)
  {
    BuildServes(m, b, base, task, rules);
    BuildOwns(m, b, base, task, rules);
    hide Filter, PortMap, AppendRules, Keys, ForKey, LiveServed, MapOwned, Clean;
    var m', b' := m + PortMap(rules), Record(b, Built(task, rules));
    forall k | k !in m' && k !in Keys(b'.orphans)
      ensures Filter(ForKey(k), b'.tables.prerouting) == Filter(ForKey(k), base.prerouting)
    {
      AppendAtKey(b.tables, rules, k);
    }
  }

  /** A failed build only disturbs the keys of the rules it leaves. */
  lemma {:induction false} FailedBuildRoutes(m: map<Key, Binding>, b: Books, base: Tables, prefix: seq<Rule>)
    requires Routed(m, b, base)
    ensures Routed(m, Record(b, BuildFailed(prefix)), base)
  {
    hide Filter, PortMap, OneInterface, AppendRules, Keys, ForKey, OwnedKey;
    var b' := Record(b, BuildFailed(prefix));
    var chain, chain', lost, lost' := b.tables.prerouting, b'.tables.prerouting, Keys(b.orphans), Keys(b'.orphans);
    KeysConcat(b.orphans, prefix);
    forall k | k !in lost' ensures Filter(ForKey(k), chain') == Filter(ForKey(k), chain) {
      AppendAtKey(b.tables, prefix, k);
    }
    forall t | t in b.live ensures Serves(m, chain', lost', b.live[t]) {
      assert Serves(m, chain, lost, b.live[t]);
      forall k | k in Keys(b.live[t]) && k !in lost' ensures ServesKey(m, chain', b.live[t], k) {
        assert ServesKey(m, chain, b.live[t], k);
      }
    }
  }

  lemma {:induction false} TeardownServes(m: map<Key, Binding>, b: Books, task: string, after: Books)
    requires LiveServed(m, b) && task in b.live
    requires after.live == b.live - {task} && Keys(b.orphans) <= Keys(after.orphans)
    requires Vacates(b.tables.prerouting, after.tables.prerouting, b.live[task], Keys(after.orphans))
    ensures LiveServed(m - Keys(b.live[task]), after)
  {
    hide Filter, PortMap, OneInterface, Keys, ForKey;
    var rules := b.live[task];
    var m', chain', lost' := m - Keys(rules), after.tables.prerouting, Keys(after.orphans);
    forall t | t in after.live ensures Serves(m', chain', lost', after.live[t]) {
      assert Serves(m, b.tables.prerouting, Keys(b.orphans), b.live[t]);
      forall k | k in Keys(b.live[t]) && k !in lost' ensures ServesKey(m', chain', b.live[t], k) {
        assert ServesKey(m, b.tables.prerouting, b.live[t], k);
        assert k !in Keys(rules);
      }
    }
  }

  lemma {:induction false} TeardownOwns(m: map<Key, Binding>, b: Books, base: Tables, task: string, after: Books)
    requires LiveServed(m, b) && MapOwned(m, b, base) && task in b.live && after.live == b.live - {task}
    ensures MapOwned(m - Keys(b.live[task]), after, base)
  {
    hide Keys, Serves;
    var rules := b.live[task];
    forall k ensures k in m - Keys(rules) <==> OwnedKey(after.live, k) {
      if k in m && k !in Keys(rules) {
        var t :| t in b.live && k in Keys(b.live[t]);
        assert t in after.live && k in Keys(after.live[t]);
      }
      if OwnedKey(after.live, k) {
        var t :| t in after.live && k in Keys(after.live[t]);
        assert t in b.live && k in Keys(b.live[t]);
      }
    }
  }

  lemma {:induction false} TeardownRest(m: map<Key, Binding>, b: Books, base: Tables, task: string, after: Books)
    requires Routed(m, b, base) && task in b.live
    requires after.live == b.live - {task} && Keys(b.orphans) <= Keys(after.orphans)
    requires Vacates(b.tables.prerouting, after.tables.prerouting, b.live[task], Keys(after.orphans))
    ensures RestAsBase(m - Keys(b.live[task]), after, base)
  {
    hide Filter, PortMap, OneInterface, Keys, ForKey;
    var rules := b.live[task];
    assert Serves(m, b.tables.prerouting, Keys(b.orphans), rules);
    forall k | k !in m - Keys(rules) && k !in Keys(after.orphans)
      ensures Filter(ForKey(k), after.tables.prerouting) == Filter(ForKey(k), base.prerouting)
    {
      if k in Keys(rules) {
        assert OwnedKey(b.live, k);
        assert ServesKey(m, b.tables.prerouting, rules, k);
        AbsentKey(base.prerouting, k);
      }
    }
  }

  /** So does a teardown, wherever the rules lie in the chain and whichever of its deletions fail. */
  lemma {:induction false} TeardownRoutes(m: map<Key, Binding>, b: Books, base: Tables, task: string, iptables: bool,
      fails: set<nat>)
    requires Routed(m, b, base) && task in b.live
    ensures Routed(m - Keys(b.live[task]), Record(b, TornDown(task, iptables, fails)), base)
  {
    var after := Record(b, TornDown(task, iptables, fails));
    TornDownVacates(b, task, iptables, fails);
    assert after.live == b.live - {task};
    hide PortMap, DeleteRules, Keys, LiveServed, RestAsBase, MapOwned, Record, Vacates;
    TeardownServes(m, b, task, after);
    TeardownOwns(m, b, base, task, after);
    TeardownRest(m, b, base, task, after);
  }

  lemma {:induction false} RunRoutes(m: map<Key, Binding>, b: Books, base: Tables, es: seq<NetEvent>)
    requires Routed(m, b, base) && CleanRun(m, b, base, es)
    ensures Routed(RouteAll(m, b, es), RecordAll(b, es), base)
    decreases |es|
  {
    if es != [] {
      hide Routed, Clean, Teardown;
      match es[0] {
        case Built(task, rules) =>
          if task !in b.live {
            BuildRoutes(m, b, base, task, rules);
          }
        case BuildFailed(prefix) => FailedBuildRoutes(m, b, base, prefix);
        case TornDown(task, iptables, fails) =>
          if task in b.live {
            TeardownRoutes(m, b, base, task, iptables, fails);
          }
      }
      RunRoutes(RouteStep(m, b, es[0]), Record(b, es[0]), base, es[1..]);
    }
  }

  /** What the chain does to a packet for a key of no orphaned rule, read off the map. */
  lemma {:induction false} RoutedMatch(m: map<Key, Binding>, b: Books, base: Tables, p: Packet)
    requires Routed(m, b, base) && p.key !in Keys(b.orphans)
    ensures FirstMatch(b.tables.prerouting, p) == if p.key in m then Lookup(m, p) else FirstMatch(base.prerouting, p)
  {
    MatchIsByKey(b.tables.prerouting, p);
    hide Filter, PortMap, OneInterface, Keys, ForKey, FirstMatch;
    if p.key in m {
      assert OwnedKey(b.live, p.key);
      var task :| task in b.live && p.key in Keys(b.live[task]);
      assert Serves(m, b.tables.prerouting, Keys(b.orphans), b.live[task]);
      assert ServesKey(m, b.tables.prerouting, b.live[task], p.key);
      MatchIsByKey(b.live[task], p);
      TaskMatchIsLookup(b.live[task], p);
    } else {
      MatchIsByKey(base.prerouting, p);
    }
  }

  /**
   Refinement: from any chains on, after any run of builds and teardowns, with
   failures anywhere, whose live tasks use distinct host ports, the NAT chain
   treats every packet as the map does, and packets to other host ports as it
   did at first; excepted are only host ports for which an orphaned rule is
   left.
   */
  lemma {:induction false} ChainRefinesMap(base: Tables, es: seq<NetEvent>, p: Packet)
    requires CleanRun(map[], Books(base, map[], []), base, es)
    requires p.key !in Keys(RecordAll(Books(base, map[], []), es).orphans)
    ensures var m := RouteAll(map[], Books(base, map[], []), es);
            FirstMatch(RecordAll(Books(base, map[], []), es).tables.prerouting, p)
            == if p.key in m then Lookup(m, p) else FirstMatch(base.prerouting, p)
  {
    var b := Books(base, map[], []);
    RunRoutes(map[], b, base, es);
    RoutedMatch(RouteAll(map[], b, es), RecordAll(b, es), base, p);
  }
}
