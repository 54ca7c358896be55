/**
 Teardown as Nomad retries it: any number of attempts with arbitrary failures,
 and what the first attempt that reports success leaves in the chains.
 */
module Retry {
  import opened Outcomes
  import opened Chains
  import opened Rules
  import opened NetController
  import opened Ledger
  import opened Layers

  datatype Attempt = Attempt(iptables: bool, fails: set<nat>)

  function Try(c: Tables, spec: seq<Rule>, a: Attempt): Tables {
    Teardown(c, spec, a.iptables, a.fails)
  }

  function TryAll(c: Tables, spec: seq<Rule>, attempts: seq<Attempt>): Tables
    decreases |attempts|
  {
    if attempts == [] then c else TryAll(Try(c, spec, attempts[0]), spec, attempts[1..])
  }

  /** The chains without any rule of a specification, everything else in its order. */
  function Without(c: Tables, spec: seq<Rule>): Tables {
    Tables(Filter(NotAmong(spec), c.prerouting), Filter(NotAmong(spec), c.forward))
  }

  /** The chains hold no more copies of a specification's rules than it lists: nobody else uses them. */
  predicate OnlyOurs(c: Tables, spec: seq<Rule>) {
    forall r :: r in spec ==> Total(c)[r] <= multiset(spec)[r]
  }

  lemma {:induction false} DeleteShrinks(c: Tables, spec: seq<Rule>, rs: seq<Rule>)
    requires WellPlaced(c) && forall r :: r in rs ==> r in spec
    ensures WellPlaced(DeleteRules(c, rs))
    ensures Total(DeleteRules(c, rs)) <= Total(c)
    ensures Without(DeleteRules(c, rs), spec) == Without(c, spec)
  {
    DeleteTotal(c, rs);
    OthersKeepOrder(c.prerouting, Filter(InNat, rs), spec);
    OthersKeepOrder(c.forward, Filter(InFilter, rs), spec);
  }

  lemma {:induction false} TriesShrink(c: Tables, spec: seq<Rule>, attempts: seq<Attempt>)
    requires WellPlaced(c)
    ensures var after := TryAll(c, spec, attempts);
            WellPlaced(after) && Total(after) <= Total(c) && Without(after, spec) == Without(c, spec)
    decreases |attempts|
  {
    hide WellPlaced, Total, Without, DeleteRules;
    if attempts != [] {
      if attempts[0].iptables {
        DeleteShrinks(c, spec, Deleted(spec, attempts[0].fails));
      }
      TriesShrink(Try(c, spec, attempts[0]), spec, attempts[1..]);
    }
  }

  lemma {:induction false} FilterAgrees<T(!new)>(p: T -> bool, q: T -> bool, s: seq<T>)
    requires forall x :: x in s ==> p(x) == q(x)
    ensures Filter(p, s) == Filter(q, s)
  {
    if s != [] {
      assert s[0] in s;
      FilterAgrees(p, q, s[1..]);
    }
  }

  /** One full teardown clears a specification nobody else's rules coincide with. */
  lemma {:induction false} FullTeardownClears(c: Tables, spec: seq<Rule>)
    requires WellPlaced(c) && OnlyOurs(c, spec)
    ensures DeleteRules(c, spec) == Without(c, spec)
  {
    var pre, fwd := Filter(InNat, spec), Filter(InFilter, spec);
    forall r | r in pre ensures multiset(c.prerouting)[r] <= multiset(pre)[r] {
      PlacedCount(c, spec, r);
    }
    forall r | r in fwd ensures multiset(c.forward)[r] <= multiset(fwd)[r] {
      PlacedCount(c, spec, r);
    }
    ClearsIff(c.prerouting, pre);
    ClearsIff(c.forward, fwd);
    FilterAgrees(NotAmong(pre), NotAmong(spec), c.prerouting);
    FilterAgrees(NotAmong(fwd), NotAmong(spec), c.forward);
  }

  /** No rule of the specification is in the chains. */
  predicate Cleared(c: Tables, spec: seq<Rule>) {
    forall r :: r in spec ==> Total(c)[r] == 0
  }

  lemma {:induction false} ClearedIsWithout(c: Tables, spec: seq<Rule>)
    requires WellPlaced(c)
    ensures Cleared(c, spec) <==> c == Without(c, spec)
  {
    if Cleared(c, spec) {
      forall r | r in c.prerouting || r in c.forward ensures NotAmong(spec)(r) {
        assert Total(c)[r] > 0;
      }
      FilterEvery(NotAmong(spec), c.prerouting);
      FilterEvery(NotAmong(spec), c.forward);
    }
    if c == Without(c, spec) {
      forall r | r in spec ensures Total(c)[r] == 0 {
        assert r !in c.prerouting && r !in c.forward;
      }
    }
  }

  /** How often the attempts deleted a rule, or would have with more copies of it there. */
  function Deletions(spec: seq<Rule>, attempts: seq<Attempt>, r: Rule): nat
    decreases |attempts|
  {
    if attempts == [] then 0
    else (if attempts[0].iptables then multiset(Deleted(spec, attempts[0].fails))[r] else 0)
         + Deletions(spec, attempts[1..], r)
  }

  /** What attempts leave of a rule: as many copies as they did not delete. */
  lemma {:induction false} TriesCount(c: Tables, spec: seq<Rule>, attempts: seq<Attempt>, r: Rule)
    requires WellPlaced(c)
    ensures Total(TryAll(c, spec, attempts))[r]
         == if Total(c)[r] <= Deletions(spec, attempts, r) then 0 else Total(c)[r] - Deletions(spec, attempts, r)
    decreases |attempts|
  {
    hide WellPlaced, Total, DeleteRules, Deleted;
    if attempts != [] {
      if attempts[0].iptables {
        DeleteTotal(c, Deleted(spec, attempts[0].fails));
      }
      TriesCount(Try(c, spec, attempts[0]), spec, attempts[1..], r);
    }
  }

  /**
   Retried teardown converges.  When nobody else's rules coincide with the
   specification's, an attempt that reports success, after any attempts that
   failed anywhere, leaves the original chains without the specification's
   rules and with every other rule in its place - exactly when it found a usable
   iptables or the earlier attempts deleted each rule as often as it was there.
   Without iptables an attempt reports success having deleted nothing.
   */
  lemma {:induction false} RetryConvergesIff(c: Tables, spec: seq<Rule>, attempts: seq<Attempt>, last: Attempt)
    requires WellPlaced(c) && OnlyOurs(c, spec)
    requires TeardownReportsNil(spec, last.iptables, last.fails)
    ensures Try(TryAll(c, spec, attempts), spec, last) == Without(c, spec) <==>
            last.iptables || forall r :: r in spec ==> Total(c)[r] <= Deletions(spec, attempts, r)
  {
    var before := TryAll(c, spec, attempts);
    TriesShrink(c, spec, attempts);
    ClearedIsWithout(before, spec);
    forall r | r in spec ensures Total(before)[r] == 0 <==> Total(c)[r] <= Deletions(spec, attempts, r) {
      TriesCount(c, spec, attempts, r);
    }
    if last.iptables {
      DeletedEvery(spec, last.fails);
      FullTeardownClears(before, spec);
    }
  }

  /** A build followed by one full teardown leaves chains that had none of its rules as they were. */
  lemma {:induction false} BuildThenTeardown(c: Tables, rules: seq<Rule>, fails: set<nat>)
    requires WellPlaced(c) && Cleared(c, rules) && AllDeleted(rules, fails)
    ensures Teardown(AppendRules(c, rules), rules, true, fails) == c
  {
    var built := AppendRules(c, rules);
    AppendTotal(c, rules);
    DeletedEvery(rules, fails);
    FullTeardownClears(built, rules);
    ClearedIsWithout(c, rules);
    FilterConcat(NotAmong(rules), c.prerouting, Filter(InNat, rules));
    FilterConcat(NotAmong(rules), c.forward, Filter(InFilter, rules));
    FilterNone(NotAmong(rules), Filter(InNat, rules));
    FilterNone(NotAmong(rules), Filter(InFilter, rules));
  }

  /**
   In general a build and its full teardown are the identity exactly when each
   chain is layered for the rules of its table: it ends in those it has already,
   as they are listed, before them in those of these it has once more, and so
   on.  Repeated rules, as two host ports for one guest port give, are covered.
   */
  lemma {:induction false} BuildThenTeardownIff(c: Tables, rules: seq<Rule>, fails: set<nat>)
    requires AllDeleted(rules, fails)
    ensures Teardown(AppendRules(c, rules), rules, true, fails) == c <==>
            Layered(c.prerouting, Filter(InNat, rules)) && Layered(c.forward, Filter(InFilter, rules))
  {
    hide Layered, Filter;
    DeletedEvery(rules, fails);
    AppendDeleteIff(c.prerouting, Filter(InNat, rules));
    AppendDeleteIff(c.forward, Filter(InFilter, rules));
  }

  /** One rule: it moves behind the others if anything but itself follows it, and stays if nothing does. */
  lemma {:induction false} SharedRuleMoves(shared: Rule, other: Rule)
    requires InNat(shared) && InNat(other) && shared != other
    ensures Teardown(AppendRules(Tables([shared, other], []), [shared]), [shared], true, {})
            == Tables([other, shared], [])
    ensures !Layered([shared, other], [shared])
    ensures Layered([other, shared], [shared])
    ensures Teardown(AppendRules(Tables([other, shared], []), [shared]), [shared], true, {})
            == Tables([other, shared], [])
  {
    DeletedEvery([shared], {});
    OneRule(Tables([shared, other], []), shared);
    OneRule(AppendRules(Tables([shared, other], []), [shared]), shared);
    assert [shared, other] + [shared] == [shared, other, shared];
    assert [shared, other, shared][1..] == [other, shared];
    LayeredRuleIff([shared, other], shared);
    LayeredRuleIff([other, shared], shared);
    assert [shared, other][0] == shared && [shared, other][1] == other;
    assert [other, shared][0] == other && [other, shared][1] == shared;
    BuildThenTeardownIff(Tables([other, shared], []), [shared], {});
    OneSide(shared);
  }

  lemma {:induction false} OneSide(r: Rule)
    requires InNat(r)
    ensures Filter(InNat, [r]) == [r] && Filter(InFilter, [r]) == []
    ensures Layered([], Filter(InFilter, [r]))
  {
    NotInFront([], Filter(InFilter, [r]));
  }
}
