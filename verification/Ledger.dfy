/**
 Interleaved builds and teardowns of many tasks on the shared chains, with
 failures of any of them: which rules are in the chains, and whose they are.
 */
module Ledger {
  import opened Outcomes
  import opened Chains
  import opened Rules
  import opened NetController

  /**
   The chains with their history: the specification of every task whose build
   succeeded and that was not torn down since, and the rules nobody will delete
   any more, left by failed builds and failed deletions.
   */
  datatype Books = Books(tables: Tables, live: map<string, seq<Rule>>, orphans: seq<Rule>)

  datatype NetEvent =
    | Built(task: string, rules: seq<Rule>)
    | BuildFailed(prefix: seq<Rule>)
    | TornDown(task: string, iptables: bool, fails: set<nat>)

  /** A build is only for a task that is not live; a teardown of one that is not does nothing. */
  function Record(b: Books, e: NetEvent): Books {
    match e
    case Built(task, rules) =>
      if task in b.live then b else Books(AppendRules(b.tables, rules), b.live[task := rules], b.orphans)
    case BuildFailed(prefix) => Books(AppendRules(b.tables, prefix), b.live, b.orphans + prefix)
    case TornDown(task, iptables, fails) =>
      if task !in b.live then b
      else Books(Teardown(b.tables, b.live[task], iptables, fails), b.live - {task},
                 b.orphans + if iptables then Undeleted(b.live[task], fails) else b.live[task])
  }

  function RecordAll(b: Books, es: seq<NetEvent>): Books
    decreases |es|
  {
    if es == [] then b else RecordAll(Record(b, es[0]), es[1..])
  }

  // ----- Conservation -----

  /** All rules of both chains. */
  function Total(c: Tables): multiset<Rule> {
    multiset(c.prerouting) + multiset(c.forward)
  }

  /** All rules of all live specifications. */
  ghost function SumLive(live: map<string, seq<Rule>>): multiset<Rule>
    decreases |live|
  {
    if live == map[] then multiset{}
    else
      var task :| task in live;
      multiset(live[task]) + SumLive(live - {task})
  }

  lemma {:induction false} SumWithout(live: map<string, seq<Rule>>, task: string)
    requires task in live
    ensures SumLive(live) == multiset(live[task]) + SumLive(live - {task})
    decreases |live|
  {
    var chosen :| chosen in live && SumLive(live) == multiset(live[chosen]) + SumLive(live - {chosen});
    if chosen != task {
      SumWithout(live - {chosen}, task);
      SumWithout(live - {task}, chosen);
      assert live - {chosen} - {task} == live - {task} - {chosen};
    }
  }

  lemma {:induction false} SumWith(live: map<string, seq<Rule>>, task: string, rules: seq<Rule>)
    requires task !in live
    ensures SumLive(live[task := rules]) == multiset(rules) + SumLive(live)
  {
    SumWithout(live[task := rules], task);
    assert live[task := rules] - {task} == live;
  }

  /** No rule is in the other table's chain. */
  predicate WellPlaced(c: Tables) {
    && (forall r :: r in c.prerouting ==> InNat(r))
    && (forall r :: r in c.forward ==> InFilter(r))
  }

  /** The chains hold what they held at first, the live specifications and the orphans, duplicates counted. */
  ghost predicate Conserved(b: Books, base: Tables) {
    && WellPlaced(b.tables)
    && Total(b.tables) == Total(base) + SumLive(b.live) + multiset(b.orphans)
  }

  lemma {:induction false} SidesTotal(rs: seq<Rule>)
    ensures multiset(Filter(InNat, rs)) + multiset(Filter(InFilter, rs)) == multiset(rs)
  {
    if rs != [] {
      SidesTotal(rs[1..]);
      assert rs == [rs[0]] + rs[1..];
    }
  }

  lemma {:induction false} AppendTotal(c: Tables, rs: seq<Rule>)
    requires WellPlaced(c)
    ensures WellPlaced(AppendRules(c, rs))
    ensures Total(AppendRules(c, rs)) == Total(c) + multiset(rs)
  {
    SidesTotal(rs);
  }

  lemma {:induction false} PlacedCount(c: Tables, rs: seq<Rule>, r: Rule)
    requires WellPlaced(c)
    ensures multiset(c.prerouting)[r] == if InNat(r) then Total(c)[r] else 0
    ensures multiset(c.forward)[r] == if InNat(r) then 0 else Total(c)[r]
    ensures multiset(Filter(InNat, rs))[r] == if InNat(r) then multiset(rs)[r] else 0
    ensures multiset(Filter(InFilter, rs))[r] == if InNat(r) then 0 else multiset(rs)[r]
  {
    FilterMultiset(InNat, rs, r);
    FilterMultiset(InFilter, rs, r);
    if InNat(r) {
      assert r !in c.forward;
    } else {
      assert r !in c.prerouting;
    }
  }

  lemma {:induction false} DeleteCount(c: Tables, rs: seq<Rule>, r: Rule)
    requires WellPlaced(c)
    ensures Total(DeleteRules(c, rs))[r] == (Total(c) - multiset(rs))[r]
    ensures r in DeleteRules(c, rs).prerouting ==> InNat(r)
    ensures r in DeleteRules(c, rs).forward ==> InFilter(r)
  {
    hide DeleteAll, Filter, WellPlaced;
    var after := DeleteRules(c, rs);
    DeleteAllMultiset(c.prerouting, Filter(InNat, rs));
    DeleteAllMultiset(c.forward, Filter(InFilter, rs));
    PlacedCount(c, rs, r);
    assert r in after.prerouting <==> multiset(after.prerouting)[r] > 0;
    assert r in after.forward <==> multiset(after.forward)[r] > 0;
  }

  lemma {:induction false} DeleteTotal(c: Tables, rs: seq<Rule>)
    requires WellPlaced(c)
    ensures WellPlaced(DeleteRules(c, rs))
    ensures Total(DeleteRules(c, rs)) == Total(c) - multiset(rs)
  {
    forall r: Rule
      ensures Total(DeleteRules(c, rs))[r] == (Total(c) - multiset(rs))[r]
      ensures (r in DeleteRules(c, rs).prerouting ==> InNat(r)) && (r in DeleteRules(c, rs).forward ==> InFilter(r))
    {
      DeleteCount(c, rs, r);
    }
    hide DeleteRules, Total, InNat;
  }

  lemma {:induction false} RecordConserves(b: Books, base: Tables, e: NetEvent)
    requires Conserved(b, base)
    ensures Conserved(Record(b, e), base)
  {
    hide AppendRules, DeleteRules, Total, WellPlaced, Deleted, Undeleted;
    match e
    case Built(task, rules) =>
      if task !in b.live {
        AppendTotal(b.tables, rules);
        SumWith(b.live, task, rules);
      }
    case BuildFailed(prefix) =>
      AppendTotal(b.tables, prefix);
    case TornDown(task, iptables, fails) =>
      if task in b.live {
        var rules := b.live[task];
        SumWithout(b.live, task);
        if iptables {
          DeletedSplit(rules, fails);
          DeleteTotal(b.tables, Deleted(rules, fails));
        }
      }
  }

  /** Rules are conserved over every interleaving of builds and teardowns, failures and duplicate rules included. */
  lemma {:induction false} RunsConserve(b: Books, base: Tables, es: seq<NetEvent>)
    requires Conserved(b, base)
    ensures Conserved(RecordAll(b, es), base)
    decreases |es|
  {
    if es != [] {
      RecordConserves(b, base, es[0]);
      RunsConserve(Record(b, es[0]), base, es[1..]);
    }
  }

  /**
   Chain by chain: each rule occurs as often as in the base chain, the live specifications
   and the orphans together.
   */
  lemma {:induction false} ChainsConserved(b: Books, base: Tables, r: Rule)
    requires Conserved(b, base) && WellPlaced(base)
    ensures multiset(b.tables.prerouting)[r]
            == if InNat(r) then multiset(base.prerouting)[r] + SumLive(b.live)[r] + multiset(b.orphans)[r] else 0
    ensures multiset(b.tables.forward)[r]
            == if InNat(r) then 0 else multiset(base.forward)[r] + SumLive(b.live)[r] + multiset(b.orphans)[r]
  {
    PlacedCount(b.tables, [], r);
    PlacedCount(base, [], r);
  }

  lemma {:induction false} InLive(live: map<string, seq<Rule>>, r: Rule)
    requires r in SumLive(live)
    ensures exists task :: task in live && r in live[task]
    decreases |live|
  {
    var chosen :| chosen in live && SumLive(live) == multiset(live[chosen]) + SumLive(live - {chosen});
    if r !in live[chosen] {
      InLive(live - {chosen}, r);
      var task :| task in live - {chosen} && r in (live - {chosen})[task];
      assert task in live && r in live[task];
    }
  }

  /** The events that leave a rule nobody will delete: failed builds that appended, teardowns that did not delete. */
  predicate Orphaning(b: Books, e: NetEvent) {
    match e
    case Built(_, _) => false
    case BuildFailed(prefix) => prefix != []
    case TornDown(task, iptables, fails) =>
      task in b.live && b.live[task] != [] && (!iptables || !AllDeleted(b.live[task], fails))
  }

  predicate RunOrphans(b: Books, es: seq<NetEvent>)
    decreases |es|
  {
    es != [] && (Orphaning(b, es[0]) || RunOrphans(Record(b, es[0]), es[1..]))
  }

  lemma {:induction false} UndeletedEmptyIff(rules: seq<Rule>, fails: set<nat>)
    ensures Undeleted(rules, fails) == [] <==> AllDeleted(rules, fails)
  {
    if rules != [] {
      UndeletedEmptyIff(rules[..|rules| - 1], fails);
    }
  }

  lemma {:induction false} OrphansGrow(b: Books, es: seq<NetEvent>)
    ensures |RecordAll(b, es).orphans| >= |b.orphans|
    decreases |es|
  {
    if es != [] {
      OrphansGrow(Record(b, es[0]), es[1..]);
    }
  }

  lemma {:induction false} RunOrphansThen(b: Books, es: seq<NetEvent>, fs: seq<NetEvent>)
    ensures RunOrphans(b, es + fs) <==> RunOrphans(b, es) || RunOrphans(RecordAll(b, es), fs)
    decreases |es|
  {
    if es == [] {
      assert es + fs == fs;
    } else {
      assert (es + fs)[1..] == es[1..] + fs;
      RunOrphansThen(Record(b, es[0]), es[1..], fs);
    }
  }

  /** A run leaves orphaned rules exactly when one of its events is of that kind. */
  lemma {:induction false} OrphansIff(b: Books, es: seq<NetEvent>)
    requires b.orphans == []
    ensures RecordAll(b, es).orphans == [] <==> !RunOrphans(b, es)
    decreases |es|
  {
    if es != [] {
      var next := Record(b, es[0]);
      if es[0].TornDown? && es[0].task in b.live {
        UndeletedEmptyIff(b.live[es[0].task], es[0].fails);
      }
      if Orphaning(b, es[0]) {
        assert next.orphans != [];
        OrphansGrow(next, es[1..]);
      } else {
        OrphansIff(next, es[1..]);
      }
    }
  }
}
