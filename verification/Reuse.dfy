/** Rules left behind by failed builds, once their address is handed out again. */
module Reuse {
  import opened Outcomes
  import opened Ipv4
  import opened Pool
  import opened Guest
  import opened Virtualizer
  import opened Accounting
  import opened Rules
  import opened NetController
  import opened Ledger
  import opened Plugin
  import opened WholeSystem

  /** A task is given address a: it asks for it, or it is the lowest usable address nobody holds. */
  predicate Draws(net: Net, held: set<string>, cfg: DomainConfig, a: Addr)
    requires HasPool(net)
  {
    if StaticAddress(cfg) != "" then StaticAddress(cfg) == Dotted(a)
    else Usable(net, a) && forall b: Addr :: b < a && Usable(net, b) ==> b in Taken(held)
  }

  lemma {:induction false} LowestIff(net: Net, taken: set<Addr>, a: Addr)
    requires Validated(net) && a !in taken && Allocate(net, taken).Ok?
    ensures Allocate(net, taken).value == a <==>
            Usable(net, a) && forall b: Addr :: b < a && Usable(net, b) ==> b in taken
  {
    hide Allocate, Usable;
    AllocateIsLowestFree(net, taken);
    var x := Allocate(net, taken).value;
    assert Free(net, taken, x);
    forall b: Addr | b < x && Usable(net, b) ensures b in taken {
      assert !Free(net, taken, b);
    }
    if Usable(net, a) {
      assert Free(net, taken, a) && x <= a;
    }
  }

  lemma {:induction false} ReserveDrawsIff(s: Settings, held: set<string>, cfg: DomainConfig, a: Addr)
    requires Validated(s.defaults.net) && Dotted(a) !in held && Reserve(s, held, cfg).Ok?
    ensures Reserve(s, held, cfg).value == Dotted(a) <==> Draws(s.defaults.net, held, cfg, a)
  {
    if StaticAddress(cfg) == "" {
      hide Dotted, ParseV4, Taken, Allocate, Usable;
      var net := s.defaults.net;
      var x := Allocate(net, Taken(held)).value;
      TakenByText(held, a);
      LowestIff(net, Taken(held), a);
      ParseDotted(a);
      ParseDotted(x);
      assert Dotted(x) == Dotted(a) ==> x == a;
    }
  }

  /**
   A stranded rule is still in the chains after a later start, and leads to the
   VM of the task just started exactly when that task is given its address: it
   asks for it, or every lower usable address is held.
   */
  lemma {:induction false} StrandedRuleReusedIff(p: Setup, sys: System, base: Tables, ids: set<string>, id: string,
      req: TaskRequest, r: Rule, a: Addr)
    requires Validated(p.driver.defaults.net)
    requires DistinctNames(ids) && id in ids && Sound(p, sys, base, ids)
    requires Stranded(sys, r) && r.guestIP == Dotted(a)
    ensures var after := Start(p, sys, id, req);
            after.result.Started? ==>
              && Total(after.system.books.tables)[r] > 0
              && DomainName(id) in after.system.vms.processes
              && (after.system.vms.processes[DomainName(id)].ip == r.guestIP <==>
                  Draws(p.driver.defaults.net, sys.vms.held, TaskConfig(p, DomainName(id), req), a))
  {
    if Start(p, sys, id, req).result.Started? {
      var name := DomainName(id);
      var cfg := TaskConfig(p, name, req);
      CreateOutcome(p.driver, sys.vms, cfg, req.env, req.create);
      StartAfterCreate(p, sys, id, req);
      var created := Create(p.driver, sys.vms, cfg, req.env, req.create);
      var build := BuildNetwork(p.bridge, NetRequest(p, req, created.processes[name].ip), req.net);
      hide Create, Failure, Reserve, BuildNetwork, NetRequest, DomainName, Draws, Dotted, Total, AppendRules;
      AppendTotal(sys.books.tables, build.appended);
      ReserveDrawsIff(p.driver, sys.vms.held, cfg, a);
    }
  }
}
