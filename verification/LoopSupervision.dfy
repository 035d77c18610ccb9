/**
 Supervision of the continuous collection loop (`start_collection_loop`, its done-callback and
 `stop` in app/services/scheduler.py) as a step system: explicit starts and stops, the ways a loop
 task can end, its callback, and the delayed restart.
 */
module LoopSupervision {
  import opened Wrappers

  datatype Exit = Crash | Cancellation | Return

  /** A loop task: running, or ended with its done-callback run or still to run. */
  datatype Loop = Running(cancelRequested: bool) | Ended(how: Exit, notified: bool)

  datatype State = State(
    loops: seq<Loop>,          // every task ever created
    current: Option<nat>,      // _loop_task
    stop: bool,                // _loop_stop
    restarts: nat)             // delayed restarts that are sleeping

  const INIT := State([], None, false, 0)

  datatype Action =
    | Start
    | Stop
    | Ends(task: nat, how: Exit)
    | Notified(task: nat)      // the done-callback of a task
    | Restart                  // a delayed restart wakes up

  predicate IsRunning(s: State, task: nat) {
    task < |s.loops| && s.loops[task].Running?
  }

  /** A loop returns only when it has seen the stop flag; cancellation and crash can hit it at any time. */
  predicate Enabled(s: State, a: Action) {
    match a
    case Start => true
    case Stop => true
    case Ends(t, how) => IsRunning(s, t) && (how.Return? ==> s.stop)
    case Notified(t) => t < |s.loops| && s.loops[t].Ended? && !s.loops[t].notified
    case Restart => s.restarts > 0
  }

  predicate Busy(s: State) {
    s.current.Some? && IsRunning(s, s.current.value)
  }

  /** `start_collection_loop` */
  function Started(s: State): State {
    if Busy(s) then s
    else s.(stop := false, loops := s.loops + [Running(false)], current := Some(|s.loops|))
  }

  /** `stop` */
  function Stopped(s: State): State {
    if Busy(s) then s.(stop := true, loops := s.loops[s.current.value := Running(true)]) else s.(stop := true)
  }

  function Apply(s: State, a: Action): State
    requires Enabled(s, a)
  {
    match a
    case Start => Started(s)
    case Stop => Stopped(s)
    case Ends(t, how) => s.(loops := s.loops[t := Ended(how, false)])
    case Notified(t) =>
      var s' := s.(loops := s.loops[t := s.loops[t].(notified := true)]);
      if s.stop || s.loops[t].how.Return? then s' else s'.(restarts := s.restarts + 1)
    case Restart =>
      var s' := s.(restarts := s.restarts - 1);
      if s.stop then s' else Started(s')
  }

  ghost predicate Executable(run: seq<Action>)
    decreases |run|, 0
  {
    run == [] || (Executable(run[..|run| - 1]) && Enabled(After(run[..|run| - 1]), run[|run| - 1]))
  }

  ghost function After(run: seq<Action>): State
    requires Executable(run)
    decreases |run|, 1
  {
    if run == [] then INIT else Apply(After(run[..|run| - 1]), run[|run| - 1])
  }

  // ---- Invariant ----

  /** Only the newest task can be running. */
  ghost predicate OneLoop(s: State) {
    && s.current == (if s.loops == [] then None else Some(|s.loops| - 1))
    && forall i :: 0 <= i < |s.loops| - 1 ==> s.loops[i].Ended?
  }

  /** Unless stopped, a service that was started runs, or is about to restart. */
  ghost predicate Supervised(s: State) {
    s.stop || s.loops == [] || s.restarts > 0 || AliveOrUnnoticed(s.loops[|s.loops| - 1])
  }

  predicate AliveOrUnnoticed(l: Loop) {
    l.Running? || (!l.notified && !l.how.Return?)
  }

  lemma StepKeepsOneLoop(s: State, a: Action)
    requires OneLoop(s) && Enabled(s, a)
    ensures OneLoop(Apply(s, a))
  {
  }

  lemma StepKeepsSupervised(s: State, a: Action)
    requires OneLoop(s) && Supervised(s) && Enabled(s, a)
    ensures Supervised(Apply(s, a))
  {
  }

  lemma {:induction false} RunKeepsInvariant(run: seq<Action>)
    requires Executable(run)
    ensures OneLoop(After(run)) && Supervised(After(run))
    decreases |run|
  {
    if run != [] {
      var front, a := run[..|run| - 1], run[|run| - 1];
      RunKeepsInvariant(front);
      StepKeepsOneLoop(After(front), a);
      StepKeepsSupervised(After(front), a);
    }
  }

  /** Over every interleaving at most one collection loop is live. */
  lemma AtMostOneLive(run: seq<Action>, i: nat, j: nat)
    requires Executable(run) && IsRunning(After(run), i) && IsRunning(After(run), j)
    ensures i == j
  {
    RunKeepsInvariant(run);
  }

  /** A started service that nobody stopped never dies for good: a loop, a callback or a restart is pending. */
  lemma NeverOrphaned(run: seq<Action>)
    requires Executable(run) && After(run).loops != [] && !After(run).stop
    ensures var s := After(run); s.restarts > 0 || AliveOrUnnoticed(s.loops[|s.loops| - 1])
  {
    RunKeepsInvariant(run);
  }

  // ---- Restarts are paid for ----

  predicate Failed(l: Loop) {
    l.Ended? && !l.how.Return?
  }

  /** Tasks that failed and whose callback has not run yet. */
  function Unnoticed(loops: seq<Loop>): nat {
    if loops == [] then 0
    else
      var last := loops[|loops| - 1];
      Unnoticed(loops[..|loops| - 1]) + (if Failed(last) && !last.notified then 1 else 0)
  }

  lemma {:induction false} UnnoticedUpdate(loops: seq<Loop>, t: nat, l: Loop)
    requires t < |loops|
    ensures Unnoticed(loops[t := l]) == Unnoticed(loops) - (if Failed(loops[t]) && !loops[t].notified then 1 else 0)
      + (if Failed(l) && !l.notified then 1 else 0)
  {
    if t == |loops| - 1 {
      assert loops[t := l][..t] == loops[..t];
    } else {
      assert loops[t := l][..|loops| - 1] == loops[..|loops| - 1][t := l];
      UnnoticedUpdate(loops[..|loops| - 1], t, l);
    }
  }

  function Starts(run: seq<Action>): nat {
    if run == [] then 0 else Starts(run[..|run| - 1]) + (if run[|run| - 1].Start? then 1 else 0)
  }

  /** How often a task crashed or was cancelled. */
  function Failures(run: seq<Action>): nat {
    if run == [] then 0
    else
      var last := run[|run| - 1];
      Failures(run[..|run| - 1]) + (if last.Ends? && !last.how.Return? then 1 else 0)
  }

  lemma StepPaid(s: State, a: Action)
    requires Enabled(s, a)
    ensures var s' := Apply(s, a);
      |s'.loops| + s'.restarts + Unnoticed(s'.loops) <= |s.loops| + s.restarts + Unnoticed(s.loops)
        + (if a.Start? || (a.Ends? && !a.how.Return?) then 1 else 0)
  {
    match a
    case Start => assert (s.loops + [Running(false)])[..|s.loops|] == s.loops;
    case Stop => if Busy(s) { UnnoticedUpdate(s.loops, s.current.value, Running(true)); }
    case Ends(t, how) => UnnoticedUpdate(s.loops, t, Ended(how, false));
    case Notified(t) => UnnoticedUpdate(s.loops, t, s.loops[t].(notified := true));
    case Restart => assert (s.loops + [Running(false)])[..|s.loops|] == s.loops;
  }

  /** Over every run, no more tasks are created, pending restarts included, than there were starts and failures. */
  lemma {:induction false} RestartsPaid(run: seq<Action>)
    requires Executable(run)
    ensures var s := After(run); |s.loops| + s.restarts + Unnoticed(s.loops) <= Starts(run) + Failures(run)
    decreases |run|
  {
    if run != [] {
      RestartsPaid(run[..|run| - 1]);
      StepPaid(After(run[..|run| - 1]), run[|run| - 1]);
    }
  }

  // ---- After stop ----

  ghost predicate NoStart(run: seq<Action>) {
    forall a :: a in run ==> !a.Start?
  }

  lemma StoppedStaysStopped(s: State, a: Action)
    requires Enabled(s, a) && s.stop && !a.Start?
    ensures Apply(s, a).stop && |Apply(s, a).loops| == |s.loops| && Apply(s, a).restarts <= s.restarts
  {
  }

  /** After a stop no loop is started again without an explicit start, whatever was pending. */
  lemma {:induction false} NothingStartsAfterStop(before: seq<Action>, after: seq<Action>)
    requires Executable(before + [Stop] + after) && NoStart(after)
    ensures Executable(before)
    ensures After(before + [Stop] + after).stop && |After(before + [Stop] + after).loops| == |After(before).loops|
    decreases |after|
  {
    var run := before + [Stop] + after;
    if after == [] {
      assert run == before + [Stop];
      assert run[..|run| - 1] == before;
    } else {
      var front := after[..|after| - 1];
      assert run[..|run| - 1] == before + [Stop] + front;
      NothingStartsAfterStop(before, front);
      assert after == front + [after[|after| - 1]];
      StoppedStaysStopped(After(before + [Stop] + front), run[|run| - 1]);
    }
  }

  /** What is still to happen after a stop: tasks to end, callbacks to run, restarts to wake up. */
  function Pending(loops: seq<Loop>): nat {
    if loops == [] then 0
    else
      Pending(loops[..|loops| - 1])
      + match loops[|loops| - 1] { case Running(_) => 2 case Ended(_, notified) => if notified then 0 else 1 }
  }

  function Measure(s: State): nat {
    Pending(s.loops) + s.restarts
  }

  lemma {:induction false} PendingUpdate(loops: seq<Loop>, t: nat, l: Loop)
    requires t < |loops|
    ensures Pending(loops[t := l]) == Pending(loops) - Pending([loops[t]]) + Pending([l])
  {
    assert [l][..0] == [] && [loops[t]][..0] == [];
    if t == |loops| - 1 {
      assert loops[t := l][..t] == loops[..t];
    } else {
      var front := loops[..|loops| - 1];
      assert loops[t := l][..|loops| - 1] == front[t := l];
      PendingUpdate(front, t, l);
    }
  }

  /** Once stopped, every step but a start or a further stop brings the service closer to rest. */
  lemma WindsDown(s: State, a: Action)
    requires Enabled(s, a) && s.stop && !a.Start? && !a.Stop?
    ensures Measure(Apply(s, a)) < Measure(s)
  {
    match a
    case Ends(t, how) =>
      PendingUpdate(s.loops, t, Ended(how, false));
      OnePending(s.loops[t]);
      OnePending(Ended(how, false));
    case Notified(t) =>
      PendingUpdate(s.loops, t, s.loops[t].(notified := true));
      OnePending(s.loops[t]);
      OnePending(s.loops[t].(notified := true));
    case Restart =>
  }

  lemma OnePending(l: Loop)
    ensures Pending([l]) == match l { case Running(_) => 2 case Ended(_, notified) => if notified then 0 else 1 }
  {
    assert [l][..0] == [];
  }

  /** At rest nothing runs; short of it some step can be taken. */
  lemma {:induction false} RestOrProgress(loops: seq<Loop>) returns (t: nat)
    ensures Pending(loops) == 0 ==> forall i :: 0 <= i < |loops| ==> loops[i].Ended? && loops[i].notified
    ensures Pending(loops) > 0 ==> t < |loops| && (loops[t].Running? || !loops[t].notified)
  {
    t := 0;
    if loops != [] {
      var front := loops[..|loops| - 1];
      t := RestOrProgress(front);
      if Pending(front) == 0 { t := |loops| - 1; }
    }
  }

  lemma StopReachesRest(s: State) returns (a: Action)
    requires s.stop
    ensures Measure(s) == 0 ==> forall t :: !IsRunning(s, t)
    ensures Measure(s) > 0 ==> Enabled(s, a) && !a.Start? && !a.Stop?
  {
    var t := RestOrProgress(s.loops);
    if Pending(s.loops) > 0 {
      a := if s.loops[t].Running? then Ends(t, Cancellation) else Notified(t);
    } else {
      a := Restart;
    }
  }

  // ---- A start during shutdown ----

  /** A loop is running that nobody has asked to end. */
  predicate WillRun(s: State) {
    Busy(s) && !s.loops[s.current.value].cancelRequested
  }

  /** A start takes effect exactly when no cancelled loop is still winding down. */
  lemma StartTakesEffectIff(s: State)
    ensures WillRun(Apply(s, Start)) <==> !(Busy(s) && s.loops[s.current.value].cancelRequested)
  {
  }

  /** A running loop was asked to end exactly if the stop flag is set. */
  ghost predicate CancelledIfStopped(s: State) {
    Busy(s) ==> (s.loops[s.current.value].cancelRequested <==> s.stop)
  }

  lemma StepKeepsCancelled(s: State, a: Action)
    requires OneLoop(s) && CancelledIfStopped(s) && Enabled(s, a)
    ensures CancelledIfStopped(Apply(s, a))
  {
  }

  lemma {:induction false} RunKeepsCancelled(run: seq<Action>)
    requires Executable(run)
    ensures CancelledIfStopped(After(run))
    decreases |run|
  {
    if run != [] {
      var front, a := run[..|run| - 1], run[|run| - 1];
      RunKeepsCancelled(front);
      RunKeepsInvariant(front);
      StepKeepsCancelled(After(front), a);
    }
  }

  lemma {:induction false} FlagStays(before: seq<Action>, rest: seq<Action>)
    requires Executable(before + rest) && forall a :: a in rest ==> !a.Start? && !a.Stop?
    ensures Executable(before) && After(before + rest).stop == After(before).stop
    decreases |rest|
  {
    if rest == [] {
      assert before + rest == before;
    } else {
      var front := rest[..|rest| - 1];
      assert (before + rest)[..|before + rest| - 1] == before + front;
      assert rest == front + [rest[|rest| - 1]];
      FlagStays(before, front);
    }
  }

  /**
   Over every run, what becomes of a start: while nobody starts or stops the service again, it remains
   stopped (and so comes to rest) exactly if the start came while a stopped loop was still winding
   down; otherwise it is supervised, whatever crashes follow.
   */
  lemma StartLostIff(run: seq<Action>, rest: seq<Action>)
    requires Executable(run + [Start] + rest) && forall a :: a in rest ==> !a.Start? && !a.Stop?
    ensures Executable(run)
    ensures After(run + [Start] + rest).stop <==>
      Busy(After(run)) && After(run).loops[After(run).current.value].cancelRequested
  {
    FlagStays(run + [Start], rest);
    assert (run + [Start])[..|run + [Start]| - 1] == run;
    RunKeepsCancelled(run);
  }

  /** A start that comes while the stopped loop is still being cancelled is lost. */
  lemma StartDuringShutdownIsLost()
    ensures var run := [Start, Stop, Start, Ends(0, Cancellation), Notified(0)];
      Executable(run) && After(run) == State([Ended(Cancellation, true)], Some(0), true, 0)
  {
    var r1, r2, r3 := [Start], [Start, Stop], [Start, Stop, Start];
    var r4, r5 := [Start, Stop, Start, Ends(0, Cancellation)], [Start, Stop, Start, Ends(0, Cancellation), Notified(0)];
    assert r1[..0] == [] && r2[..1] == r1 && r3[..2] == r2 && r4[..3] == r3 && r5[..4] == r4;
    assert Executable([]) && Executable(r1) && After(r1) == State([Running(false)], Some(0), false, 0);
    assert Executable(r2) && After(r2) == State([Running(true)], Some(0), true, 0);
    assert Executable(r3) && After(r3) == After(r2);
    assert Executable(r4) && After(r4) == State([Ended(Cancellation, false)], Some(0), true, 0);
  }

  lemma AfterNext(run: seq<Action>, a: Action)
    requires Executable(run) && Enabled(After(run), a)
    ensures Executable(run + [a]) && After(run + [a]) == Apply(After(run), a)
  {
    assert (run + [a])[..|run|] == run;
  }

  // ---- In place ----

  /**
   The loop fields of `SchedulerService`; `loops` and `restarts` stand for the event loop's tasks.  The
   object remembers the steps taken, so the results about runs are results about it.
   */
  class SchedulerService {
    var loops: seq<Loop>
    var loopTask: Option<nat>
    var loopStop: bool
    var restarts: nat
    ghost var history: seq<Action>

    function Abs(): State
      reads this
    {
      State(loops, loopTask, loopStop, restarts)
    }

    ghost predicate Valid()
      reads this
    {
      Executable(history) && Abs() == After(history)
    }

    constructor ()
      ensures Valid() && history == []
    {
      loops, loopTask, loopStop, restarts, history := [], None, false, 0, [];
    }

    /** Records a step that has already been made. */
    ghost method Commit(a: Action)
      requires Executable(history) && Enabled(After(history), a) && Abs() == Apply(After(history), a)
      modifies this`history
      ensures Valid() && history == old(history) + [a]
    {
      AfterNext(history, a);
      history := history + [a];
    }

    /** What `start_collection_loop` does to the fields. */
    method CreateLoop() returns (started: bool)
      modifies this`loops, this`loopTask, this`loopStop
      ensures Abs() == Started(old(Abs()))
      ensures started <==> |loops| == |old(loops)| + 1
    {
      if loopTask.Some? && loopTask.value < |loops| && loops[loopTask.value].Running? {
        return false;
      }
      loopStop := false;
      loopTask := Some(|loops|);
      loops := loops + [Running(false)];
      return true;
    }

    method StartCollectionLoop() returns (started: bool)
      requires Valid()
      modifies this
      ensures Valid() && history == old(history) + [Start]
      ensures started <==> |loops| == |old(loops)| + 1
    {
      started := CreateLoop();
      Commit(Start);
    }

    method StopLoop()
      requires Valid()
      modifies this
      ensures Valid() && history == old(history) + [Stop]
    {
      loopStop := true;
      if loopTask.Some? && loopTask.value < |loops| && loops[loopTask.value].Running? {
        loops := loops[loopTask.value := Running(true)];
      }
      Commit(Stop);
    }

    /** The event loop ends a task. */
    method EndLoop(task: nat, how: Exit)
      requires Valid() && Enabled(Abs(), Ends(task, how))
      modifies this
      ensures Valid() && history == old(history) + [Ends(task, how)]
    {
      loops := loops[task := Ended(how, false)];
      Commit(Ends(task, how));
    }

    /** `_on_loop_done` */
    method OnLoopDone(task: nat)
      requires Valid() && Enabled(Abs(), Notified(task))
      modifies this
      ensures Valid() && history == old(history) + [Notified(task)]
      ensures restarts == old(restarts) + if !loopStop && !loops[task].how.Return? then 1 else 0
    {
      var how := loops[task].how;
      loops := loops[task := Ended(how, true)];
      if !loopStop && (how == Crash || how == Cancellation) {
        restarts := restarts + 1;
      }
      Commit(Notified(task));
    }

    /** `_delayed_restart`, after its sleep. */
    method DelayedRestart()
      requires Valid() && Enabled(Abs(), Restart)
      modifies this
      ensures Valid() && history == old(history) + [Restart]
    {
      restarts := restarts - 1;
      if !loopStop {
        var started := CreateLoop();
      }
      Commit(Restart);
    }
  }
}
