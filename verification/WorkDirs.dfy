/**
 Work directories that outlive their VM: which call leaves one behind, and
 which later call of the same name decides its fate again.
 */
module WorkDirs {
  import opened Outcomes
  import opened Guest
  import opened Virtualizer
  import opened Accounting

  /** The failures after which the directory a create made is still there. */
  predicate KeepsDir(e: CreateError, f: Faults) {
    !e.AlreadyExists? && !e.WorkDirFailed? && (RemovesWorkDir(e) ==> f.workDirRemove)
  }

  /** A failed create leaves a new directory behind exactly then. */
  lemma {:induction false} FailedCreateKeepsDirIff(s: Settings, st: State, cfg: DomainConfig, env: map<string, string>,
      f: Faults)
    requires Failure(s, st, cfg, f).Some? && cfg.name !in st.host.dirs
    ensures cfg.name in Create(s, st, cfg, env, f).host.dirs <==> KeepsDir(Failure(s, st, cfg, f).value, f)
  {
    hide Failure;
  }

  /** A directory of no registered VM. */
  predicate Leftover(st: State, name: string) {
    name in st.host.dirs && name !in st.processes
  }

  /** The calls that leave the name's directory behind. */
  predicate LeavesDir(s: Settings, st: State, e: Event, name: string) {
    match e
    case CreateVM(cfg, _, f) =>
      cfg.name == name && Failure(s, st, cfg, f).Some? && KeepsDir(Failure(s, st, cfg, f).value, f)
    case DestroyVM(n, f) => n == name && n in st.processes && f.workDirRemove
    case ProcessExits(_) => false
  }

  /** The calls that get as far as the name's directory, to use it, to remove it or to leave it. */
  predicate Decides(s: Settings, st: State, e: Event, name: string) {
    match e
    case CreateVM(cfg, _, f) =>
      cfg.name == name && Failure(s, st, cfg, f) != Some(AlreadyExists) && Failure(s, st, cfg, f) != Some(WorkDirFailed)
    case DestroyVM(n, _) => n == name && n in st.processes
    case ProcessExits(_) => false
  }

  lemma {:induction false} StepLeavesIff(s: Settings, st: State, base: Host, e: Event, name: string)
    requires Owned(s, st, base)
    ensures Leftover(Step(s, st, e), name) <==>
            LeavesDir(s, st, e, name) || (Leftover(st, name) && !Decides(s, st, e, name))
  {
    match e {
      case CreateVM(cfg, env, f) =>
        RegistryAfterCreate(s, st, cfg, env, f);
        hide NewProcess, Failure;
      case DestroyVM(n, f) =>
        if n in st.processes {
          assert Registered(s, st, base, n);
        }
      case ProcessExits(_) =>
    }
  }

  lemma {:induction false} RegistryAfterCreate(s: Settings, st: State, cfg: DomainConfig, env: map<string, string>,
      f: Faults)
    ensures Failure(s, st, cfg, f) == Some(AlreadyExists) <==> cfg.name in st.processes
    ensures cfg.name in Create(s, st, cfg, env, f).processes <==>
            cfg.name in st.processes || Failure(s, st, cfg, f).None?
    ensures forall n :: n != cfg.name ==> (n in Create(s, st, cfg, env, f).processes <==> n in st.processes)
  {
    hide BuildVMConfig, Derive, GuestEnv, CloudInit, Reserve, NewProcess, MountsFail;
  }

  lemma {:induction false} RunThen(s: Settings, st: State, es: seq<Event>, e: Event)
    ensures Run(s, st, es + [e]) == Step(s, Run(s, st, es), e)
    decreases |es|
  {
    if es == [] {
      assert [] + [e] == [e] && [e][1..] == [];
      assert Run(s, Step(s, st, e), []) == Step(s, st, e);
    } else {
      assert (es + [e])[1..] == es[1..] + [e];
      RunThen(s, Step(s, st, es[0]), es[1..], e);
    }
  }

  /** The state a run is in before its event i. */
  function Before(s: Settings, st: State, es: seq<Event>, i: nat): State
    requires i <= |es|
  {
    Run(s, st, es[..i])
  }

  /** No event from number i on decides about the name's directory. */
  ghost predicate Undecided(s: Settings, st: State, es: seq<Event>, name: string, i: nat) {
    forall j :: i <= j < |es| ==> !Decides(s, Before(s, st, es, j), es[j], name)
  }

  /** Event i left the directory, and nothing decided about it since. */
  ghost predicate LeftAt(s: Settings, st: State, es: seq<Event>, name: string, i: nat)
    requires i < |es|
  {
    LeavesDir(s, Before(s, st, es, i), es[i], name) && Undecided(s, st, es, name, i + 1)
  }

  /**
   After any run a name's directory is left over exactly when some event left
   it, or it was left over at first, and no later event got as far as it: unlike
   a TAP, it is collected by the next create or destroy of the same name.
   */
  lemma {:induction false} RunsLeaveDirIff(s: Settings, st: State, base: Host, es: seq<Event>, name: string)
    requires Owned(s, st, base)
    ensures Leftover(Run(s, st, es), name) <==>
            || (Leftover(st, name) && Undecided(s, st, es, name, 0))
            || exists i :: 0 <= i < |es| && LeftAt(s, st, es, name, i)
    decreases |es|
  {
    if es != [] {
      hide Run, Step, Owned, Leftover, LeavesDir, Decides;
      var n := |es| - 1;
      var init, last := es[..n], es[n];
      assert es == init + [last];
      RunThen(s, st, init, last);
      RunsKeepOwnership(s, st, base, init);
      StepLeavesIff(s, Run(s, st, init), base, last, name);
      RunsLeaveDirIff(s, st, base, init, name);
      assert forall j :: 0 <= j <= n ==> es[..j] == init[..j];
      assert es[..n] == init;
      UndecidedSnoc(s, st, es, name, 0);
      forall i | 0 <= i < n
        ensures LeftAt(s, st, es, name, i) <==>
                LeftAt(s, st, init, name, i) && !Decides(s, Run(s, st, init), last, name)
      {
        UndecidedSnoc(s, st, es, name, i + 1);
      }
      assert LeftAt(s, st, es, name, n) <==> LeavesDir(s, Run(s, st, init), last, name);
    } else {
      assert Undecided(s, st, es, name, 0);
    }
  }

  lemma {:induction false} UndecidedSnoc(s: Settings, st: State, es: seq<Event>, name: string, i: nat)
    requires i < |es|
    ensures var n := |es| - 1;
            Undecided(s, st, es, name, i) <==>
            Undecided(s, st, es[..n], name, i) && !Decides(s, Run(s, st, es[..n]), es[n], name)
  {
    hide Run, Decides;
    var n := |es| - 1;
    assert forall j :: 0 <= j <= n ==> es[..j] == es[..n][..j];
    assert forall j :: 0 <= j < n ==> Before(s, st, es, j) == Before(s, st, es[..n], j);
  }
}
