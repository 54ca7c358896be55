/**
 Whole runs of the Cloud Hypervisor driver, with a fault possible at every
 outside call: the address table is the addresses of the registered VMs, and
 every process and TAP the driver made belongs to a registered VM.
 */
module Accounting {
  import opened Outcomes
  import opened Text
  import opened Ipv4
  import opened Subnet
  import opened Pool
  import opened Guest
  import opened Virtualizer

  /** A driver call, or a process of the host exiting on its own (or being killed by StopDomain). */
  datatype Event =
    | CreateVM(cfg: DomainConfig, env: map<string, string>, f: Faults)
    | DestroyVM(name: string, f: Faults)
    | ProcessExits(pid: nat)

  function Step(s: Settings, st: State, e: Event): State {
    match e
    case CreateVM(cfg, env, f) => Create(s, st, cfg, env, f)
    case DestroyVM(name, f) => Destroy(s, st, name, f)
    case ProcessExits(pid) => st.(host := st.host.(procs := st.host.procs - {pid}))
  }

  function Run(s: Settings, st: State, es: seq<Event>): State
    decreases |es|
  {
    if es == [] then st else Run(s, Step(s, st, es[0]), es[1..])
  }

  // ----- Addresses -----

  /** The address table is exactly the registered VMs' addresses, no two of them equal. */
  ghost predicate Accounted(st: State) {
    && st.held == (set n | n in st.processes :: st.processes[n].ip)
    && forall m, n :: m in st.processes && n in st.processes && m != n ==> st.processes[m].ip != st.processes[n].ip
  }

  lemma {:induction false} CreateKeepsAccounts(s: Settings, st: State, cfg: DomainConfig, env: map<string, string>,
      f: Faults)
    requires Accounted(st)
    ensures Accounted(Create(s, st, cfg, env, f))
    ensures Failure(s, st, cfg, f).Some? ==>
              && Create(s, st, cfg, env, f).processes == st.processes
              && Create(s, st, cfg, env, f).held == st.held
    ensures Failure(s, st, cfg, f).None? ==>
              && cfg.name in Create(s, st, cfg, env, f).processes
              && Create(s, st, cfg, env, f).held == st.held + {Create(s, st, cfg, env, f).processes[cfg.name].ip}
              && Create(s, st, cfg, env, f).processes[cfg.name].ip !in st.held
  {
    hide BuildVMConfig, Derive, GuestEnv, CloudInit, Reserve, PidSet, Pids, Reserved;
    if Failure(s, st, cfg, f).None? {
      ReserveIsFresh(s, st.held, cfg);
      var after := Create(s, st, cfg, env, f);
      var p := after.processes[cfg.name];
      assert after.processes == st.processes[cfg.name := p];
      forall ip | ip in after.held ensures exists n :: n in after.processes && after.processes[n].ip == ip {
        if ip in st.held {
          var n :| n in st.processes && st.processes[n].ip == ip;
          assert n in after.processes;
        }
      }
    }
  }

  lemma {:induction false} DestroyKeepsAccounts(s: Settings, st: State, name: string, f: Faults)
    requires Accounted(st)
    ensures Accounted(Destroy(s, st, name, f))
    ensures name in st.processes ==>
              && st.processes[name].ip in st.held
              && Destroy(s, st, name, f).held == st.held - {st.processes[name].ip}
              && Destroy(s, st, name, f).processes == st.processes - {name}
  {
    if name in st.processes {
      var after := Destroy(s, st, name, f);
      forall ip | ip in after.held ensures exists n :: n in after.processes && after.processes[n].ip == ip {
        var n :| n in st.processes && st.processes[n].ip == ip;
        assert n in after.processes;
      }
    }
  }

  /** In every reachable state, whatever failed on the way, the address table matches the registry. */
  lemma {:induction false} RunsKeepAccounts(s: Settings, st: State, es: seq<Event>)
    requires Accounted(st)
    ensures Accounted(Run(s, st, es))
    decreases |es|
  {
    if es != [] {
      match es[0] {
        case CreateVM(cfg, env, f) => CreateKeepsAccounts(s, st, cfg, env, f);
        case DestroyVM(name, f) => DestroyKeepsAccounts(s, st, name, f);
        case ProcessExits(_) =>
      }
      RunsKeepAccounts(s, Step(s, st, es[0]), es[1..]);
    }
  }

  /** Different VMs hold different addresses, not just different texts. */
  lemma {:induction false} AddressesDiffer(st: State, m: string, n: string)
    requires Accounted(st) && m in st.processes && n in st.processes && m != n
    requires ParseV4(st.processes[m].ip).Some?
    ensures ParseV4(st.processes[m].ip) != ParseV4(st.processes[n].ip)
  {
    DottedParse(st.processes[m].ip);
    if ParseV4(st.processes[n].ip).Some? {
      DottedParse(st.processes[n].ip);
    }
  }

  /** The usable pool addresses that registered VMs hold, static ones included. */
  ghost function UsableInUse(net: Net, st: State): set<int>
    requires HasPool(net) && net.poolStart.value <= net.poolEnd.value
  {
    set n | n in st.processes && ParseV4(st.processes[n].ip).Some? && Usable(net, ParseV4(st.processes[n].ip).value)
      :: ParseV4(st.processes[n].ip).value
  }

  /**
   A task without a static address is given one exactly while the registered
   VMs hold fewer usable pool addresses than the pool has.
   */
  lemma {:induction false} PoolServesByCapacity(s: Settings, st: State, cfg: DomainConfig)
    requires Validated(s.defaults.net) && Accounted(st) && StaticAddress(cfg) == ""
    ensures Reserve(s, st.held, cfg).Ok? <==> |UsableInUse(s.defaults.net, st)| < Capacity(s.defaults.net)
  {
    var net := s.defaults.net;
    AllocationByCapacity(net, Taken(st.held));
    forall a | a in TakenUsable(net, Taken(st.held)) ensures a in UsableInUse(net, st) {
      var text :| text in st.held && ParseV4(text) == Some(a);
      var n :| n in st.processes && st.processes[n].ip == text;
    }
    forall a | a in UsableInUse(net, st) ensures a in TakenUsable(net, Taken(st.held)) {
      var n :| n in st.processes && ParseV4(st.processes[n].ip) == Some(a) && Usable(net, a);
      assert st.processes[n].ip in st.held;
    }
    assert UsableInUse(net, st) == TakenUsable(net, Taken(st.held));
  }

  // ----- Host resources -----

  /**
   Ownership of the host's resources, against the host the driver started on:
   every live process the driver made belongs to a registered VM; VMs share no
   process and no TAP; a registered VM's TAP and work directory exist.
   */
  ghost predicate Owned(s: Settings, st: State, base: Host) {
    && base.nextPid <= st.host.nextPid && HostOk(base)
    && (forall p :: p in st.host.procs ==>
          p in base.procs || exists n :: n in st.processes && p in ProcessIds(st.processes[n]))
    && (forall n :: n in st.processes ==> Registered(s, st, base, n))
    && (forall m, n :: m in st.processes && n in st.processes && m != n ==>
          Separate(s, st.processes[m], st.processes[n]))
  }

  ghost predicate Registered(s: Settings, st: State, base: Host, n: string)
    requires n in st.processes
  {
    var vm := st.processes[n];
    && (forall p :: p in ProcessIds(vm) ==> base.nextPid <= p < st.host.nextPid)
    && (s.skipValidation ==> vm.virtiofsd == [])
    && (s.ipTool ==> vm.tap in st.host.taps)
    && n in st.host.dirs
  }

  ghost predicate Separate(s: Settings, a: VMProcess, b: VMProcess) {
    && ProcessIds(a) !! ProcessIds(b)
    && (s.ipTool ==> a.tap != b.tap)
  }

  /** So what the class's CreateDomain needs of the host holds in every reachable state. */
  lemma {:induction false} OwnedHostOk(s: Settings, st: State, base: Host)
    requires Owned(s, st, base)
    ensures HostOk(st.host)
  {
    forall p | p in st.host.procs ensures p < st.host.nextPid {
      if p !in base.procs {
        var n :| n in st.processes && p in ProcessIds(st.processes[n]);
        assert Registered(s, st, base, n);
      }
    }
  }

  /** A new VM's processes are numbered from the host's next id on, and its TAP is a new one. */
  lemma {:induction false} NewProcessIsFresh(s: Settings, st: State, cfg: DomainConfig, env: map<string, string>,
      f: Faults)
    requires Failure(s, st, cfg, f).None?
    ensures var vm := NewProcess(s, st, cfg, env, f);
            && (forall p :: p in ProcessIds(vm) ==> st.host.nextPid <= p < vm.pid + 1)
            && (s.skipValidation ==> vm.virtiofsd == [])
            && (s.ipTool ==> vm.tap !in st.host.taps)
            && vm.pid >= st.host.nextPid
  {
    hide BuildVMConfig, Derive, GuestEnv, CloudInit, Reserve;
  }

  lemma {:induction false} CreateKeepsOwnership(s: Settings, st: State, base: Host, cfg: DomainConfig,
      env: map<string, string>, f: Faults)
    requires Owned(s, st, base)
    ensures Owned(s, Create(s, st, cfg, env, f), base)
  {
    hide BuildVMConfig, Derive, GuestEnv, CloudInit, Reserve, ProcessIds;
    var after := Create(s, st, cfg, env, f);
    if Failure(s, st, cfg, f).None? {
      NewProcessIsFresh(s, st, cfg, env, f);
      var vm := NewProcess(s, st, cfg, env, f);
      forall n | n in after.processes ensures Registered(s, after, base, n) {
        assert n == cfg.name || Registered(s, st, base, n);
      }
      forall m, n | m in after.processes && n in after.processes && m != n
        ensures Separate(s, after.processes[m], after.processes[n]) {
        assert m == cfg.name || Registered(s, st, base, m);
        assert n == cfg.name || Registered(s, st, base, n);
      }
      forall p | p in after.host.procs && p !in base.procs
        ensures exists n :: n in after.processes && p in ProcessIds(after.processes[n]) {
        if p in ProcessIds(vm) {
          assert cfg.name in after.processes;
        } else {
          var n :| n in st.processes && p in ProcessIds(st.processes[n]);
          assert n in after.processes;
        }
      }
    } else {
      forall n | n in after.processes ensures Registered(s, after, base, n) {
        assert Registered(s, st, base, n);
      }
    }
  }

  lemma {:induction false} DestroyKeepsOwnership(s: Settings, st: State, base: Host, name: string, f: Faults)
    requires Owned(s, st, base)
    ensures Owned(s, Destroy(s, st, name, f), base)
  {
    if name in st.processes {
      var after := Destroy(s, st, name, f);
      var vm := st.processes[name];
      assert Registered(s, st, base, name);
      assert s.skipValidation ==> ProcessIds(vm) == {vm.pid};
      forall n | n in after.processes ensures Registered(s, after, base, n) {
        assert Registered(s, st, base, n);
        assert Separate(s, st.processes[n], vm);
      }
      forall p | p in after.host.procs && p !in base.procs
        ensures exists n :: n in after.processes && p in ProcessIds(after.processes[n]) {
        var n :| n in st.processes && p in ProcessIds(st.processes[n]);
        assert n in after.processes;
      }
    }
  }

  lemma {:induction false} StepKeepsOwnership(s: Settings, st: State, base: Host, e: Event)
    requires Owned(s, st, base)
    ensures Owned(s, Step(s, st, e), base)
  {
    match e
    case CreateVM(cfg, env, f) => CreateKeepsOwnership(s, st, base, cfg, env, f);
    case DestroyVM(name, f) => DestroyKeepsOwnership(s, st, base, name, f);
    case ProcessExits(_) =>
      forall n | n in st.processes ensures Registered(s, Step(s, st, e), base, n) {
        assert Registered(s, st, base, n);
      }
  }

  /** In every reachable state no process of the driver's outlives its VM's registration. */
  lemma {:induction false} RunsKeepOwnership(s: Settings, st: State, base: Host, es: seq<Event>)
    requires Owned(s, st, base)
    ensures Owned(s, Run(s, st, es), base)
    decreases |es|
  {
    if es != [] {
      StepKeepsOwnership(s, st, base, es[0]);
      RunsKeepOwnership(s, Step(s, st, es[0]), base, es[1..]);
    }
  }

  /** A create or destroy for one name leaves every other registered VM's record, TAP, processes and directory alone. */
  lemma {:induction false} OthersUntouched(s: Settings, st: State, base: Host, e: Event, n: string)
    requires Owned(s, st, base) && n in st.processes
    requires e.CreateVM? || (e.DestroyVM? && e.name != n)
    ensures var after := Step(s, st, e);
            && n in after.processes && after.processes[n] == st.processes[n]
            && (s.ipTool ==> st.processes[n].tap in after.host.taps)
            && ProcessIds(st.processes[n]) * after.host.procs == ProcessIds(st.processes[n]) * st.host.procs
            && n in after.host.dirs
  {
    StepKeepsOwnership(s, st, base, e);
    var after := Step(s, st, e);
    assert Registered(s, st, base, n);
    match e {
      case CreateVM(cfg, env, f) =>
        hide BuildVMConfig, Derive, GuestEnv, CloudInit, Reserve, ProcessIds;
        if Failure(s, st, cfg, f).None? {
          NewProcessIsFresh(s, st, cfg, env, f);
        }
        assert Registered(s, after, base, n);
      case DestroyVM(name, f) =>
        if name in st.processes {
          assert Separate(s, st.processes[n], st.processes[name]);
          assert Registered(s, after, base, n);
        }
    }
  }

  // ----- Leaked interfaces -----

  ghost function RegisteredTaps(st: State): set<string> {
    set n | n in st.processes :: st.processes[n].tap
  }

  /** The host's TAPs are its own and the registered VMs'. */
  ghost predicate TapsExact(st: State, base: Host) {
    st.host.taps == base.taps + RegisteredTaps(st) && base.taps !! RegisteredTaps(st)
  }

  /** A TAP nothing will ever delete: neither the host's own nor a registered VM's. */
  ghost predicate Stray(st: State, base: Host, tap: string) {
    tap in st.host.taps && tap !in base.taps && tap !in RegisteredTaps(st)
  }

  /**
   The steps that leak: a TAP created but not attached, and a rollback or destroy whose every
   deletion of it fails.
   */
  predicate LeaksTap(s: Settings, st: State, e: Event) {
    match e
    case CreateVM(cfg, _, f) =>
      (match Failure(s, st, cfg, f)
       case Some(err) => err.TapSetupFailed? || (DeletesTap(err) && TapStays(err, f))
       case None => false)
    case DestroyVM(name, f) => name in st.processes && f.tapDelete
    case ProcessExits(_) => false
  }

  predicate RunLeaksTap(s: Settings, st: State, es: seq<Event>)
    decreases |es|
  {
    es != [] && (LeaksTap(s, st, es[0]) || RunLeaksTap(s, Step(s, st, es[0]), es[1..]))
  }

  lemma {:induction false} CreateTaps(s: Settings, st: State, cfg: DomainConfig, env: map<string, string>, f: Faults)
    requires s.ipTool
    ensures RegisteredTaps(Create(s, st, cfg, env, f))
            == if Failure(s, st, cfg, f).None? then RegisteredTaps(st) + {f.tap} else RegisteredTaps(st)
    ensures Failure(s, st, cfg, f).None? ==> f.tap !in st.host.taps
  {
    hide BuildVMConfig, Derive, GuestEnv, CloudInit, Reserve, ProcessIds;
    if Failure(s, st, cfg, f).None? {
      NewProcessIsFresh(s, st, cfg, env, f);
      var before, after := st.processes, Create(s, st, cfg, env, f).processes;
      assert cfg.name !in before && after == before[cfg.name := after[cfg.name]] && after[cfg.name].tap == f.tap;
      forall t | t in RegisteredTaps(st) ensures t in RegisteredTaps(Create(s, st, cfg, env, f)) {
        var n :| n in before && before[n].tap == t;
        assert n in after && after[n].tap == t;
      }
    }
  }

  lemma {:induction false} DestroyTaps(s: Settings, st: State, base: Host, name: string, f: Faults)
    requires Owned(s, st, base) && s.ipTool && name in st.processes
    ensures RegisteredTaps(Destroy(s, st, name, f)) == RegisteredTaps(st) - {st.processes[name].tap}
  {
    var after := Destroy(s, st, name, f);
    var tap := st.processes[name].tap;
    forall t | t in RegisteredTaps(st) && t != tap ensures t in RegisteredTaps(after) {
      var n :| n in st.processes && st.processes[n].tap == t;
      assert n in after.processes;
    }
    forall n | n in after.processes ensures after.processes[n].tap != tap {
      assert Separate(s, st.processes[n], st.processes[name]);
    }
  }

  /** What a step does to the registered VMs' TAPs. */
  lemma {:induction false} StepTaps(s: Settings, st: State, base: Host, e: Event)
    requires Owned(s, st, base) && s.ipTool
    ensures var after := RegisteredTaps(Step(s, st, e));
            match e
            case CreateVM(cfg, _, f) =>
              if Failure(s, st, cfg, f).None? then f.tap !in st.host.taps && after == RegisteredTaps(st) + {f.tap}
              else after == RegisteredTaps(st)
            case DestroyVM(name, _) =>
              after == if name in st.processes then RegisteredTaps(st) - {st.processes[name].tap}
                       else RegisteredTaps(st)
            case ProcessExits(_) => after == RegisteredTaps(st)
  {
    hide Create, Failure, Owned;
    match e {
      case CreateVM(cfg, env, f) => CreateTaps(s, st, cfg, env, f);
      case DestroyVM(name, f) =>
        if name in st.processes {
          DestroyTaps(s, st, base, name, f);
        }
      case ProcessExits(_) =>
    }
  }

  lemma {:induction false} StepLeaksIff(s: Settings, st: State, base: Host, e: Event)
    requires Owned(s, st, base) && s.ipTool && TapsExact(st, base)
    ensures if LeaksTap(s, st, e) then exists tap :: Stray(Step(s, st, e), base, tap)
            else TapsExact(Step(s, st, e), base)
  {
    hide BuildVMConfig, Derive, GuestEnv, CloudInit, Reserve, ProcessIds, RegisteredTaps, Owned;
    StepTaps(s, st, base, e);
    var after := Step(s, st, e);
    match e {
      case CreateVM(cfg, env, f) =>
        if LeaksTap(s, st, e) {
          assert Stray(after, base, f.tap);
        }
      case DestroyVM(name, f) =>
        if name in st.processes {
          RegisteredTap(st, name);
          if f.tapDelete {
            assert Stray(after, base, st.processes[name].tap);
          }
        }
      case ProcessExits(_) =>
    }
  }

  lemma {:induction false} RegisteredTap(st: State, n: string)
    requires n in st.processes
    ensures st.processes[n].tap in RegisteredTaps(st)
  {
  }

  lemma {:induction false} StrayStays(s: Settings, st: State, base: Host, e: Event, tap: string)
    requires Owned(s, st, base) && s.ipTool && Stray(st, base, tap)
    ensures Stray(Step(s, st, e), base, tap)
  {
    hide BuildVMConfig, Derive, GuestEnv, CloudInit, Reserve, ProcessIds, RegisteredTaps, Owned;
    StepTaps(s, st, base, e);
    if e.DestroyVM? && e.name in st.processes {
      RegisteredTap(st, e.name);
    }
  }

  lemma {:induction false} RunKeepsStray(s: Settings, st: State, base: Host, es: seq<Event>, tap: string)
    requires Owned(s, st, base) && s.ipTool && Stray(st, base, tap)
    ensures Stray(Run(s, st, es), base, tap)
    decreases |es|
  {
    if es != [] {
      StrayStays(s, st, base, es[0], tap);
      StepKeepsOwnership(s, st, base, es[0]);
      RunKeepsStray(s, Step(s, st, es[0]), base, es[1..], tap);
    }
  }

  /**
   A run ends with exactly the host's own TAPs and the registered VMs' if and
   only if no create failed between making its TAP and attaching it, and no
   rollback or destroy failed in every attempt to delete its TAP: a leaked TAP
   is never collected.
   */
  lemma {:induction false} RunsLeakTapsIff(s: Settings, st: State, base: Host, es: seq<Event>)
    requires Owned(s, st, base) && s.ipTool && TapsExact(st, base)
    ensures TapsExact(Run(s, st, es), base) <==> !RunLeaksTap(s, st, es)
    decreases |es|
  {
    if es != [] {
      StepLeaksIff(s, st, base, es[0]);
      StepKeepsOwnership(s, st, base, es[0]);
      if LeaksTap(s, st, es[0]) {
        var tap :| Stray(Step(s, st, es[0]), base, tap);
        RunKeepsStray(s, Step(s, st, es[0]), base, es[1..], tap);
      } else {
        RunsLeakTapsIff(s, Step(s, st, es[0]), base, es[1..]);
      }
    }
  }
}
