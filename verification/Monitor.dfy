/**
 The monitor of one task (virt/handle.go): what it makes of any sequence of
 looks at the domain.
 */
module Monitor {
  import opened Outcomes

  datatype TaskState = Running | Exited | Unknown

  datatype ExitError = NoError | TaskNotFound | TaskCrashed | UnexpectedState(state: string)

  datatype ExitResult = ExitResult(exitCode: int, error: ExitError)

  /** One wake-up: GetDomain fails, finds no domain, finds one in some state, or the context is done. */
  datatype Tick = LookupError | Missing | Found(state: string) | Done

  /** fillExitResult. */
  function FillExitResult(tick: Tick): ExitResult
    requires tick.Missing? || tick.Found?
  {
    match tick
    case Missing => ExitResult(1, TaskNotFound)
    case Found(state) =>
      if state == "crashed" then ExitResult(1, TaskCrashed)
      else if state == "shutdown" || state == "shutoff" then ExitResult(0, NoError)
      else ExitResult(1, UnexpectedState(state))
  }

  /** Exit code 0 means a VM that shut down; a crash, a vanished VM and any other state fail in their own way. */
  lemma {:induction false} ExitCodes(tick: Tick)
    requires tick.Missing? || tick.Found?
    ensures var r := FillExitResult(tick);
            && (r.exitCode == 0 <==> tick == Found("shutdown") || tick == Found("shutoff"))
            && (r.exitCode != 0 ==> r.exitCode == 1)
            && (r.error == NoError <==> r.exitCode == 0)
            && (r.error == TaskNotFound <==> tick == Missing)
            && (r.error == TaskCrashed <==> tick == Found("crashed"))
            && (forall state :: r.error == UnexpectedState(state) <==>
                  tick == Found(state) && state != "crashed" && state != "shutdown" && state != "shutoff")
  {
  }

  /** The task is over. */
  predicate Final(tick: Tick) {
    tick.Missing? || (tick.Found? && tick.state != "running")
  }

  /** The tick ends the monitor, by the task's end or by its own. */
  predicate Ends(tick: Tick) {
    tick.Done? || Final(tick)
  }

  /** How many ticks pass before one that ends the monitor. */
  function Watched(ticks: seq<Tick>): (n: nat)
    ensures n <= |ticks|
    ensures forall i :: 0 <= i < n ==> !Ends(ticks[i])
    ensures n < |ticks| ==> Ends(ticks[n])
  {
    if ticks == [] || Ends(ticks[0]) then 0
    else
      var n := Watched(ticks[1..]);
      assert forall i :: 1 <= i < n + 1 ==> ticks[i] == ticks[1..][i - 1];
      n + 1
  }

  predicate Ended(ticks: seq<Tick>) {
    Watched(ticks) < |ticks| && Final(ticks[Watched(ticks)])
  }

  predicate Failed(ticks: seq<Tick>) {
    exists i :: 0 <= i < Watched(ticks) && ticks[i].LookupError?
  }

  /** What the monitor leaves in the handle and on the channel, told without running it. */
  function StateAfter(initial: TaskState, ticks: seq<Tick>): TaskState {
    if Ended(ticks) then Exited else if Failed(ticks) then Unknown else initial
  }

  function ResultAfter(ticks: seq<Tick>): Option<ExitResult> {
    if Ended(ticks) then Some(FillExitResult(ticks[Watched(ticks)])) else None
  }

  /**
   A task that starts out running still counts as running exactly when every
   look found it running: one failed look takes that away for good.
   */
  lemma {:induction false} StillRunningIff(ticks: seq<Tick>)
    ensures StateAfter(Running, ticks) == Running <==>
            !Ended(ticks) && forall i :: 0 <= i < Watched(ticks) ==> ticks[i] == Found("running")
  {
    forall i | 0 <= i < Watched(ticks) ensures ticks[i].LookupError? || ticks[i] == Found("running") {
      assert !Ends(ticks[i]);
    }
  }

  /** Watching one stretch and then another is watching both, until a tick ends the monitor. */
  lemma {:induction false} WatchConcat(a: seq<Tick>, b: seq<Tick>)
    ensures Watched(a + b) == if Watched(a) < |a| then Watched(a) else |a| + Watched(b)
  {
    if a == [] {
      assert a + b == b;
    } else {
      assert (a + b)[1..] == a[1..] + b;
      WatchConcat(a[1..], b);
    }
  }

  lemma {:induction false} StretchesCompose(initial: TaskState, a: seq<Tick>, b: seq<Tick>)
    ensures Watched(a) < |a| ==>
              StateAfter(initial, a + b) == StateAfter(initial, a) && ResultAfter(a + b) == ResultAfter(a)
    ensures Watched(a) == |a| ==>
              && StateAfter(initial, a + b) == StateAfter(StateAfter(initial, a), b)
              && ResultAfter(a + b) == ResultAfter(b)
  {
    hide Watched;
    WatchConcat(a, b);
    var whole := a + b;
    if Watched(a) < |a| {
      assert forall i :: 0 <= i <= Watched(a) ==> whole[i] == a[i];
      if Failed(whole) {
        var i :| 0 <= i < Watched(whole) && whole[i].LookupError?;
        assert a[i].LookupError?;
      }
      if Failed(a) {
        var i :| 0 <= i < Watched(a) && a[i].LookupError?;
        assert whole[i].LookupError?;
      }
    } else {
      assert Watched(b) < |b| ==> whole[|a| + Watched(b)] == b[Watched(b)];
      if Failed(whole) {
        var i :| 0 <= i < Watched(whole) && whole[i].LookupError?;
        assert if i < |a| then a[i].LookupError? else b[i - |a|].LookupError?;
      }
      if Failed(b) {
        var i :| 0 <= i < Watched(b) && b[i].LookupError?;
        assert whole[|a| + i].LookupError?;
      }
      if Failed(a) {
        var i :| 0 <= i < Watched(a) && a[i].LookupError?;
        assert whole[i].LookupError?;
      }
    }
  }

  class TaskHandle {
    var procState: TaskState
    var completedAt: Option<nat>
    var exitResult: Option<ExitResult>
    /** What was sent on the exit channel. */
    var sent: seq<ExitResult>

    constructor (initial: TaskState)
      ensures procState == initial && completedAt == None && exitResult == None && sent == []
    {
      procState, completedAt, exitResult, sent := initial, None, None, [];
    }

    /** The loop of monitor over a finite stretch of ticks; `now[i]` is the time of tick i. */
    method Watch(ticks: seq<Tick>, now: seq<nat>) returns (returned: bool)
      requires |now| == |ticks|
      modifies this
      ensures procState == StateAfter(old(procState), ticks)
      ensures exitResult == if Ended(ticks) then ResultAfter(ticks) else old(exitResult)
      ensures completedAt == if Ended(ticks) then Some(now[Watched(ticks)]) else old(completedAt)
      ensures sent == old(sent) + if Ended(ticks) then [ResultAfter(ticks).value] else []
      ensures returned <==> Watched(ticks) < |ticks|
      ensures old(IsRunning()) ==>
                (IsRunning() <==> !Ended(ticks) && forall i :: 0 <= i < Watched(ticks) ==> ticks[i] == Found("running"))
    {
      StillRunningIff(ticks);
      for i := 0 to |ticks|
        invariant i <= Watched(ticks)
        invariant procState == if exists j :: 0 <= j < i && ticks[j].LookupError? then Unknown else old(procState)
        invariant exitResult == old(exitResult) && completedAt == old(completedAt) && sent == old(sent)
      {
        var tick := ticks[i];
        if tick.LookupError? {
          procState := Unknown;
        } else if tick.Done? {
          assert Watched(ticks) == i;
          return true;
        } else if Final(tick) {
          assert Watched(ticks) == i;
          var er := FillExitResult(tick);
          procState := Exited;
          completedAt := Some(now[i]);
          exitResult := Some(er);
          sent := sent + [er];
          return true;
        }
      }
      returned := false;
    }

    predicate IsRunning()
      reads this
    {
      procState == Running
    }
  }
}
