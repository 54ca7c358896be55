/**
 Starting and stopping tasks seen by the virtualizer: every run of the plugin is
 a run of driver calls, so what holds of those holds of tasks.
 */
module Resources {
  import opened Outcomes
  import opened Guest
  import opened Virtualizer
  import opened Accounting
  import opened WorkDirs
  import opened Rules
  import opened NetController
  import opened Plugin
  import opened WholeSystem

  /** The driver calls an event leads to. */
  function DriverEvents(p: Setup, sys: System, e: TaskEvent): seq<Event> {
    match e
    case StartEvent(id, req) =>
      var name := DomainName(id);
      var cfg := TaskConfig(p, name, req);
      if id in sys.tasks || !Acceptable(p, name, req) then []
      else if Failure(p.driver, sys.vms, cfg, req.create).Some? then [CreateVM(cfg, req.env, req.create)]
      else
        var ip := Create(p.driver, sys.vms, cfg, req.env, req.create).processes[name].ip;
        [CreateVM(cfg, req.env, req.create)]
        + if BuildNetwork(p.bridge, NetRequest(p, req, ip), req.net).result.Err?
            then [DestroyVM(name, req.destroy)] else []
    case DestroyEvent(id, req) =>
      if id !in sys.tasks || (req.running && !req.force) || DomainName(id) !in sys.vms.processes then []
      else [DestroyVM(DomainName(id), req.faults)]
    case ExitEvent(pid) => [ProcessExits(pid)]
  }

  function DriverTrace(p: Setup, sys: System, es: seq<TaskEvent>): seq<Event>
    decreases |es|
  {
    if es == [] then [] else DriverEvents(p, sys, es[0]) + DriverTrace(p, Next(p, sys, es[0]), es[1..])
  }

  lemma {:induction false} ShortRuns(s: Settings, st: State, a: Event, b: Event)
    ensures Run(s, st, [a]) == Step(s, st, a)
    ensures Run(s, st, [a] + [b]) == Step(s, Step(s, st, a), b)
  {
    RunThen(s, st, [], a);
    RunThen(s, st, [a], b);
    assert [] + [a] == [a];
  }

  lemma {:induction false} NextVms(p: Setup, sys: System, e: TaskEvent)
    ensures Next(p, sys, e).vms == Run(p.driver, sys.vms, DriverEvents(p, sys, e))
  {
    hide Create, Failure, Destroy, BuildNetwork, NetRequest, DomainName, Acceptable, TearDown, Run;
    match e {
      case StartEvent(id, req) =>
        var name := DomainName(id);
        var cfg := TaskConfig(p, name, req);
        ShortRuns(p.driver, sys.vms, CreateVM(cfg, req.env, req.create), DestroyVM(name, req.destroy));
        RunNothing(p.driver, sys.vms);
        assert [CreateVM(cfg, req.env, req.create)] + [] == [CreateVM(cfg, req.env, req.create)];
        if id !in sys.tasks && Acceptable(p, name, req) && Failure(p.driver, sys.vms, cfg, req.create).None? {
          StartAfterCreate(p, sys, id, req);
        }
      case DestroyEvent(id, req) =>
        ShortRuns(p.driver, sys.vms, DestroyVM(DomainName(id), req.faults), DestroyVM(DomainName(id), req.faults));
        RunNothing(p.driver, sys.vms);
      case ExitEvent(pid) =>
        ShortRuns(p.driver, sys.vms, ProcessExits(pid), ProcessExits(pid));
    }
  }

  lemma {:induction false} RunNothing(s: Settings, st: State)
    ensures Run(s, st, []) == st
  {
  }

  lemma {:induction false} RunConcat(s: Settings, st: State, es: seq<Event>, fs: seq<Event>)
    ensures Run(s, st, es + fs) == Run(s, Run(s, st, es), fs)
    decreases |es|
  {
    if es == [] {
      assert es + fs == fs;
    } else {
      assert (es + fs)[1..] == es[1..] + fs;
      RunConcat(s, Step(s, st, es[0]), es[1..], fs);
    }
  }

  /** The virtualizer's state after a run of tasks is its state after the driver calls of the run. */
  lemma {:induction false} RunVms(p: Setup, sys: System, es: seq<TaskEvent>)
    ensures RunTasks(p, sys, es).vms == Run(p.driver, sys.vms, DriverTrace(p, sys, es))
    decreases |es|
  {
    hide Next, DriverEvents, Step;
    if es != [] {
      NextVms(p, sys, es[0]);
      RunVms(p, Next(p, sys, es[0]), es[1..]);
      RunConcat(p.driver, sys.vms, DriverEvents(p, sys, es[0]), DriverTrace(p, Next(p, sys, es[0]), es[1..]));
    }
  }

  lemma {:induction false} InitialOwned(p: Setup, host: Host, base: Tables)
    requires HostOk(host)
    ensures Owned(p.driver, Initial(host, base).vms, host) && TapsExact(Initial(host, base).vms, host)
  {
  }

  /**
   After any run of tasks, with failures anywhere, every process the driver
   started belongs to a registered VM, VMs share no process or TAP, and the host
   is as the next start needs it; with no VM registered no process is left.
   */
  lemma {:induction false} TasksKeepOwnership(p: Setup, host: Host, base: Tables, es: seq<TaskEvent>)
    requires HostOk(host)
    ensures var vms := RunTasks(p, Initial(host, base), es).vms;
            && Owned(p.driver, vms, host) && HostOk(vms.host)
            && (vms.processes == map[] ==> vms.host.procs <= host.procs)
  {
    hide Run, DriverTrace, RunTasks;
    InitialOwned(p, host, base);
    RunVms(p, Initial(host, base), es);
    RunsKeepOwnership(p.driver, Initial(host, base).vms, host, DriverTrace(p, Initial(host, base), es));
    OwnedHostOk(p.driver, RunTasks(p, Initial(host, base), es).vms, host);
  }

  /**
   A run of tasks leaves exactly the host's own and the registered VMs' TAPs if and only if
   none of its driver calls leaks one.
   */
  lemma {:induction false} TasksLeakTapsIff(p: Setup, host: Host, base: Tables, es: seq<TaskEvent>)
    requires HostOk(host) && p.driver.ipTool
    ensures TapsExact(RunTasks(p, Initial(host, base), es).vms, host) <==>
            !RunLeaksTap(p.driver, Initial(host, base).vms, DriverTrace(p, Initial(host, base), es))
  {
    hide Run, DriverTrace, RunTasks, RunLeaksTap, Owned, TapsExact;
    InitialOwned(p, host, base);
    RunVms(p, Initial(host, base), es);
    RunsLeakTapsIff(p.driver, Initial(host, base).vms, host, DriverTrace(p, Initial(host, base), es));
  }
}
