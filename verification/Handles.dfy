/**
 VMs that Nomad has no handle for: how a start loses one, why no later start or
 destroy gets at it, and what recovering a task finds.
 */
module Handles {
  import opened Outcomes
  import opened Guest
  import opened Virtualizer
  import opened Accounting
  import opened Rules
  import opened NetController
  import opened Ledger
  import opened Plugin
  import opened WholeSystem

  /** A registered VM that no stored handle stands for. */
  ghost predicate Forsaken(sys: System, name: string) {
    name in sys.vms.processes && forall id :: id in sys.tasks ==> DomainName(id) != name
  }

  /** The build of a start whose create succeeds works too. */
  predicate Runs(p: Setup, sys: System, id: string, req: TaskRequest) {
    var cfg := TaskConfig(p, DomainName(id), req);
    && id !in sys.tasks && Acceptable(p, DomainName(id), req)
    && Failure(p.driver, sys.vms, cfg, req.create).None?
    && BuildNetwork(p.bridge, NetRequest(p, req, Reserve(p.driver, sys.vms.held, cfg).value), req.net).result.Ok?
  }

  /** The start that loses the handle: everything works, and then the driver state cannot be stored. */
  predicate LosesHandle(p: Setup, sys: System, e: TaskEvent, name: string) {
    e.StartEvent? && DomainName(e.id) == name && Runs(p, sys, e.id, e.start) && !e.start.stateEncodes
  }

  /** What a start does to the registry and the store. */
  lemma {:induction false} StartRegisters(p: Setup, sys: System, id: string, req: TaskRequest)
    ensures var after := Start(p, sys, id, req).system;
            var runs := Runs(p, sys, id, req);
            && (runs ==> DomainName(id) !in sys.vms.processes)
            && after.vms.processes.Keys == sys.vms.processes.Keys + (if runs then {DomainName(id)} else {})
            && after.tasks.Keys == sys.tasks.Keys + (if runs && req.stateEncodes then {id} else {})
  {
    var name := DomainName(id);
    var cfg := TaskConfig(p, name, req);
    CreateOutcome(p.driver, sys.vms, cfg, req.env, req.create);
    DestroyDeregisters(p.driver, Create(p.driver, sys.vms, cfg, req.env, req.create), name, req.destroy);
    hide Create, Failure, Destroy, BuildNetwork, NetRequest, DomainName, Acceptable, Reserve, Record;
  }

  lemma {:induction false} StartForsakesIff(p: Setup, sys: System, ids: set<string>, id: string, req: TaskRequest,
      name: string)
    requires DistinctNames(ids) && id in ids && sys.tasks.Keys <= ids
    ensures Forsaken(Start(p, sys, id, req).system, name) <==>
            Forsaken(sys, name) || LosesHandle(p, sys, StartEvent(id, req), name)
  {
    StartRegisters(p, sys, id, req);
    RunsIsNew(p, sys, id, req);
    hide Start, Runs, DomainName;
    var before, after := sys, Start(p, sys, id, req).system;
    forall other | other in before.tasks ensures other in ids && other in after.tasks {}
    forall other | other in after.tasks && other != id ensures other in before.tasks {}
  }

  /** A step forsakes a VM exactly when it is such a start, and no step takes a forsaken VM back. */
  lemma {:induction false} StepForsakesIff(p: Setup, sys: System, base: Tables, ids: set<string>, e: TaskEvent,
      name: string)
    requires DistinctNames(ids) && Uses(e, ids) && Sound(p, sys, base, ids)
    ensures Forsaken(Next(p, sys, e), name) <==> Forsaken(sys, name) || LosesHandle(p, sys, e, name)
  {
    match e {
      case StartEvent(id, req) =>
        SoundParts(p, sys, base, ids);
        StartForsakesIff(p, sys, ids, id, req, name);
        hide Start, Forsaken, LosesHandle, Sound;
      case DestroyEvent(id, req) =>
        EndKeepsSound(p, sys, base, ids, id, req);
        EndDeregisters(p, sys, id, req);
        hide EndTask, DomainName, Sound;
      case ExitEvent(_) =>
        hide DomainName, Sound;
    }
  }

  lemma {:induction false} RunsIsNew(p: Setup, sys: System, id: string, req: TaskRequest)
    ensures Runs(p, sys, id, req) ==> id !in sys.tasks
  {
  }

  /** A destroy takes away the VM of a stored handle, or none. */
  lemma {:induction false} EndDeregisters(p: Setup, sys: System, id: string, req: DestroyRequest)
    ensures var after := EndTask(p, sys, id, req).system.vms.processes.Keys;
            after == sys.vms.processes.Keys || (id in sys.tasks && after == sys.vms.processes.Keys - {DomainName(id)})
  {
    hide Destroy, TearDown, DomainName;
    DestroyDeregisters(p.driver, sys.vms, DomainName(id), req.faults);
  }

  predicate RunForsakes(p: Setup, sys: System, es: seq<TaskEvent>, name: string)
    decreases |es|
  {
    es != [] && (LosesHandle(p, sys, es[0], name) || RunForsakes(p, Next(p, sys, es[0]), es[1..], name))
  }

  /** After any run a VM is without a handle exactly when some start of the run lost it: nothing ever removes it. */
  lemma {:induction false} RunsForsakeIff(p: Setup, sys: System, base: Tables, ids: set<string>, es: seq<TaskEvent>,
      name: string)
    requires p.driver.defaults.net.subnet.Some?
    requires DistinctNames(ids) && (forall e :: e in es ==> Uses(e, ids)) && Sound(p, sys, base, ids)
    ensures Forsaken(RunTasks(p, sys, es), name) <==> Forsaken(sys, name) || RunForsakes(p, sys, es, name)
    decreases |es|
  {
    hide Next, Sound, Forsaken, LosesHandle, Uses, DistinctNames;
    if es != [] {
      assert es[0] in es;
      StepForsakesIff(p, sys, base, ids, es[0], name);
      NextKeepsSound(p, sys, base, ids, es[0]);
      RunsForsakeIff(p, Next(p, sys, es[0]), base, ids, es[1..], name);
    }
  }

  /**
   What such a VM keeps: its address and its rules.  A destroy of its task finds
   no task and changes nothing, and a start of it is refused because the VM
   exists; both leave the registry, the addresses and the rules as they are.
   */
  lemma {:induction false} ForsakenIsOutOfReach(p: Setup, sys: System, base: Tables, ids: set<string>, id: string,
      start: TaskRequest, destroy: DestroyRequest)
    requires Sound(p, sys, base, ids) && Forsaken(sys, DomainName(id))
    ensures sys.vms.processes[DomainName(id)].ip in sys.vms.held && DomainName(id) in sys.books.live
    ensures EndTask(p, sys, id, destroy) == DestroyOutcome(sys, NoTask)
    ensures Start(p, sys, id, start).result == Invalid || Start(p, sys, id, start).result == NotCreated(AlreadyExists)
    ensures Start(p, sys, id, start).system == sys
  {
    hide DomainName, Conserved, Stored, Acceptable;
    var cfg := TaskConfig(p, DomainName(id), start);
    assert Failure(p.driver, sys.vms, cfg, start.create) == Some(AlreadyExists);
    assert Create(p.driver, sys.vms, cfg, start.env, start.create) == sys.vms;
  }

  // ----- Recovery -----

  datatype RecoverResult = AlreadyKnown | StateUnreadable | NotFound | Recovered

  /** RecoverTask, given whether Nomad's copy of the handle can be read and the specification in it. */
  function Recover(sys: System, id: string, decodes: bool, teardown: Option<seq<Rule>>): (System, RecoverResult) {
    if id in sys.tasks then (sys, AlreadyKnown)
    else if !decodes then (sys, StateUnreadable)
    else if DomainName(id) !in sys.vms.processes then (sys, NotFound)
    else (sys.(tasks := sys.tasks[id := Handle(DomainName(id), teardown)]), Recovered)
  }

  /**
   A recovered handle stands for a VM that this very process still has in its
   registry and no handle stood for, so right after a restart, when the registry
   is empty, no task is recovered.
   */
  lemma {:induction false} RecoversIff(p: Setup, sys: System, base: Tables, ids: set<string>, id: string, decodes: bool,
      teardown: Option<seq<Rule>>)
    requires Sound(p, sys, base, ids) && DistinctNames(ids) && id in ids
    ensures Recover(sys, id, decodes, teardown).1 == Recovered <==> decodes && Forsaken(sys, DomainName(id))
    ensures sys.vms.processes == map[] ==> Recover(sys, id, decodes, teardown).0 == sys
  {
    hide DomainName, Accounted, Directed, Conserved;
    assert forall other :: other in sys.tasks ==> other in ids;
  }

  /**
   Recovering a task with the specification its VM's rules were stored under keeps the
   system sound, and puts the VM within reach of a destroy again.
   */
  lemma {:induction false} RecoverKeepsSound(p: Setup, sys: System, base: Tables, ids: set<string>, id: string,
      decodes: bool, teardown: Option<seq<Rule>>, destroy: DestroyRequest)
    requires Sound(p, sys, base, ids) && DistinctNames(ids) && id in ids && '/' in id
    requires DomainName(id) in sys.books.live ==> teardown == Some(sys.books.live[DomainName(id)])
    ensures var (after, result) := Recover(sys, id, decodes, teardown);
            && Sound(p, after, base, ids)
            && (result != Recovered ==> after == sys)
            && (result == Recovered && (destroy.running ==> destroy.force) ==>
                  var end := EndTask(p, after, id, destroy);
                  end.result in {Destroyed, NetworkLeft} && DomainName(id) !in end.system.vms.processes)
  {
    hide DomainName, Accounted, Conserved, TearDown, TeardownReportsNil, LeadsTo;
  }
}
