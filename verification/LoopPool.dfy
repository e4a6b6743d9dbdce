/** The pool of event loops: start and exit hooks, stopping, and round-robin dispatch. */
module LoopPools {
  import opened Wrappers

  datatype Status = Starting | Running | Stopping | Stopped

  /** A loop thread: in its start hook, in its loop, returned from `Run`, in its exit hook, done.
      The number is what its `fetch_add` on the exit counter gave it, plus one. */
  datatype Thread =
    | New
    | StartHook(count: nat)
    | Looping
    | Returned
    | ExitHook(count: nat)
    | HookDone(count: nat)
    | Exited(count: nat)

  /** Where the one caller of `Stop` stands. */
  datatype Stopper = Idle | Announced | Armed | Waited | Done

  datatype State = State(
    threads: seq<Thread>,
    startedCount: nat,
    exitedCount: nat,
    status: Status,
    stopper: Stopper,
    wait: bool,
    hasCallback: bool,
    armed: bool,
    calls: nat)

  datatype Action =
    | CountStart(i: nat)
    | RunStartHook(i: nat)
    | ReturnFromRun(i: nat)
    | CountExit(i: nat)
    | RunExitHook(i: nat)
    | MarkExited(i: nat)
    | StopStep

  /** As `Start` leaves it; an empty pool runs at once. `Stop` will wait, or carry a callback, or neither. */
  function Initial(n: nat, wait: bool, hasCallback: bool): State {
    State(seq(n, (i: nat) => New), 0, 0, if n == 0 then Running else Starting, Idle, wait, hasCallback, false, 0)
  }

  /** Past the atomic increment of the exit counter. */
  predicate HasExitCount(t: Thread) {
    t.ExitHook? || t.HookDone? || t.Exited?
  }

  predicate HasReturned(t: Thread) {
    t.Returned? || HasExitCount(t)
  }

  predicate All(ts: seq<Thread>, p: Thread -> bool) {
    forall i :: 0 <= i < |ts| ==> p(ts[i])
  }

  /** A loop returns only once `Stop` has reached the calls of `t->Stop()`. */
  predicate Enabled(s: State, a: Action) {
    match a
    case CountStart(i) => i < |s.threads| && s.threads[i].New?
    case RunStartHook(i) => i < |s.threads| && s.threads[i].StartHook?
    case ReturnFromRun(i) => i < |s.threads| && s.threads[i].Looping? && (s.stopper.Armed? || s.stopper.Waited? || s.stopper.Done?)
    case CountExit(i) => i < |s.threads| && s.threads[i].Returned?
    case RunExitHook(i) => i < |s.threads| && s.threads[i].ExitHook?
    case MarkExited(i) => i < |s.threads| && s.threads[i].HookDone?
    case StopStep => !s.stopper.Done? && (s.stopper.Armed? && s.wait ==> All(s.threads, (t: Thread) => t.Exited?))
  }

  /** Where a thread's own step takes it. */
  function ThreadAfter(s: State, a: Action): Thread
    requires Enabled(s, a) && !a.StopStep?
  {
    match a
    case CountStart(_) => StartHook(s.startedCount + 1)
    case RunStartHook(_) => Looping
    case ReturnFromRun(_) => Returned
    case CountExit(_) => ExitHook(s.exitedCount + 1)
    case RunExitHook(i) => HookDone(s.threads[i].count)
    case MarkExited(i) => Exited(s.threads[i].count)
  }

  /** Its hook sees the last count. */
  predicate IsLast(s: State, i: nat)
    requires i < |s.threads| && (s.threads[i].StartHook? || s.threads[i].ExitHook?)
  {
    s.threads[i].count == |s.threads|
  }

  function Next(s: State, a: Action): State
    requires Enabled(s, a)
  {
    if a.StopStep? then NextStop(s)
    else
      var lastStart := a.RunStartHook? && IsLast(s, a.i);
      var lastExit := a.RunExitHook? && IsLast(s, a.i);
      s.(threads := s.threads[a.i := ThreadAfter(s, a)],
         startedCount := s.startedCount + (if a.CountStart? then 1 else 0),
         exitedCount := s.exitedCount + (if a.CountExit? then 1 else 0),
         status := if lastStart then Running else if lastExit then Stopped else s.status,
         calls := s.calls + (if lastExit && s.armed then 1 else 0),
         armed := s.armed && !lastExit)
  }

  function NextStop(s: State): State
    requires Enabled(s, StopStep)
  {
    match s.stopper
    case Idle => s.(status := Stopping, stopper := Announced)
    case Announced =>
      if s.threads == [] then
        s.(status := Stopped, calls := s.calls + (if s.hasCallback then 1 else 0), stopper := Done)
      else s.(armed := s.hasCallback, stopper := Armed)
    case Armed => s.(stopper := Waited)
    case Waited => s.(status := Stopped, stopper := Done)
  }

  function Exec(s: State, run: seq<Action>): Option<State> {
    if run == [] then Some(s)
    else
      var before := Exec(s, run[..|run| - 1]);
      if before.Some? && Enabled(before.value, run[|run| - 1]) then Some(Next(before.value, run[|run| - 1])) else None
  }

  /* Counting. */

  function Counted(ts: seq<Thread>): (k: nat)
    ensures k <= |ts|
    ensures k == |ts| ==> forall i :: 0 <= i < |ts| ==> HasExitCount(ts[i])
  {
    if ts == [] then 0 else Counted(ts[..|ts| - 1]) + (if HasExitCount(ts[|ts| - 1]) then 1 else 0)
  }

  lemma {:induction false} CountedUpdate(ts: seq<Thread>, i: nat, t: Thread)
    requires i < |ts|
    ensures Counted(ts[i := t]) + (if HasExitCount(ts[i]) then 1 else 0) == Counted(ts) + (if HasExitCount(t) then 1 else 0)
  {
    var n := |ts| - 1;
    if i < n {
      CountedUpdate(ts[..n], i, t);
      assert ts[i := t][..n] == ts[..n][i := t];
    } else {
      assert ts[i := t][..n] == ts[..n];
    }
  }

  lemma {:induction false} NoneCounted(ts: seq<Thread>)
    requires forall i :: 0 <= i < |ts| ==> !HasExitCount(ts[i])
    ensures Counted(ts) == 0
  {
    if ts != [] {
      NoneCounted(ts[..|ts| - 1]);
    }
  }

  predicate LastAt(s: State, i: nat) {
    i < |s.threads| && (s.threads[i].HookDone? || s.threads[i].Exited?) && s.threads[i].count == |s.threads|
  }

  predicate LastHookRan(s: State) {
    exists i :: 0 <= i < |s.threads| && LastAt(s, i)
  }

  /** Exit counts run from 1 and are handed out once each; the last one handed out has a holder. */
  ghost predicate CountsIn(ts: seq<Thread>, drawn: nat) {
    && drawn == Counted(ts)
    && (forall i :: 0 <= i < |ts| && HasExitCount(ts[i]) ==> 1 <= ts[i].count <= drawn)
    && (forall i, j :: 0 <= i < j < |ts| && HasExitCount(ts[i]) && HasExitCount(ts[j]) ==> ts[i].count != ts[j].count)
    && (drawn > 0 ==> exists i :: DrewLast(ts, drawn, i))
  }

  predicate DrewLast(ts: seq<Thread>, drawn: nat, i: nat) {
    i < |ts| && HasExitCount(ts[i]) && ts[i].count == drawn
  }

  ghost predicate CountsInv(s: State) {
    CountsIn(s.threads, s.exitedCount)
  }

  predicate Signalled(s: State) {
    s.stopper.Armed? || s.stopper.Waited? || s.stopper.Done?
  }

  /** The callback has run exactly if the thread that drew the last exit count has run its hook. */
  ghost predicate CallbackInv(s: State) {
    && (!Signalled(s) ==> s.calls == 0 && !s.armed && forall i :: 0 <= i < |s.threads| ==> !HasReturned(s.threads[i]))
    && (s.threads != [] && Signalled(s) ==>
          && s.armed == (s.hasCallback && !LastHookRan(s))
          && s.calls == (if s.hasCallback && LastHookRan(s) then 1 else 0))
    && (s.threads == [] ==> if s.stopper.Done? then s.calls == (if s.hasCallback then 1 else 0) else !Signalled(s))
  }

  /** A step of thread i that neither draws nor drops an exit count. */
  lemma CountsKept(ts: seq<Thread>, drawn: nat, i: nat, t: Thread)
    requires CountsIn(ts, drawn) && i < |ts|
    requires HasExitCount(t) == HasExitCount(ts[i]) && (HasExitCount(t) ==> t.count == ts[i].count)
    ensures CountsIn(ts[i := t], drawn)
  {
    CountedUpdate(ts, i, t);
    if drawn > 0 {
      var k: nat :| DrewLast(ts, drawn, k);
      assert DrewLast(ts[i := t], drawn, k);
    }
  }

  lemma CountExitStep(ts: seq<Thread>, drawn: nat, i: nat)
    requires CountsIn(ts, drawn) && i < |ts| && ts[i].Returned?
    ensures CountsIn(ts[i := ExitHook(drawn + 1)], drawn + 1)
  {
    CountedUpdate(ts, i, ExitHook(drawn + 1));
    assert DrewLast(ts[i := ExitHook(drawn + 1)], drawn + 1, i);
  }

  lemma CountsStep(s: State, a: Action)
    requires CountsInv(s) && Enabled(s, a)
    ensures CountsInv(Next(s, a))
  {
    if a.CountExit? {
      CountExitStep(s.threads, s.exitedCount, a.i);
    } else if !a.StopStep? {
      CountsKept(s.threads, s.exitedCount, a.i, ThreadAfter(s, a));
    }
  }

  lemma {:induction false} Fixed(s: State, run: seq<Action>)
    requires Exec(s, run).Some?
    ensures var s' := Exec(s, run).value;
            |s'.threads| == |s.threads| && s'.wait == s.wait && s'.hasCallback == s.hasCallback
  {
    if run != [] {
      Fixed(s, run[..|run| - 1]);
      FixedStep(Exec(s, run[..|run| - 1]).value, run[|run| - 1]);
    }
  }

  lemma FixedStep(s: State, a: Action)
    requires Enabled(s, a)
    ensures var s' := Next(s, a);
            |s'.threads| == |s.threads| && s'.wait == s.wait && s'.hasCallback == s.hasCallback
  {}

  /** A step of thread i other than its exit hook leaves it open whether the last hook has run. */
  lemma LastHookKept(s: State, s': State, i: nat)
    requires i < |s.threads| == |s'.threads| && s'.threads == s.threads[i := s'.threads[i]]
    requires LastAt(s, i) == LastAt(s', i)
    ensures LastHookRan(s') == LastHookRan(s)
  {
    if LastHookRan(s) {
      var k :| 0 <= k < |s.threads| && LastAt(s, k);
      assert LastAt(s', k);
    }
    if LastHookRan(s') {
      var k :| 0 <= k < |s'.threads| && LastAt(s', k);
      assert LastAt(s, k);
    }
  }

  lemma ExitHookStep(s: State, i: nat)
    requires CountsInv(s) && CallbackInv(s) && Enabled(s, RunExitHook(i))
    ensures CallbackInv(Next(s, RunExitHook(i)))
  {
    var s' := Next(s, RunExitHook(i));
    assert HasReturned(s.threads[i]) && Signalled(s);
    if s.threads[i].count == |s.threads| {
      assert LastAt(s', i) && LastHookRan(s');
      forall k | 0 <= k < |s.threads| ensures !LastAt(s, k) {}
    } else {
      LastHookKept(s, s', i);
    }
  }

  lemma StopStepCallback(s: State)
    requires CallbackInv(s) && Enabled(s, StopStep)
    ensures CallbackInv(NextStop(s))
  {
    var s' := NextStop(s);
    assert forall k :: LastAt(s', k) == LastAt(s, k);
    if !Signalled(s) {
      forall k | 0 <= k < |s.threads| ensures !LastAt(s, k) {
        assert !HasReturned(s.threads[k]);
      }
    }
  }

  lemma CallbackStep(s: State, a: Action)
    requires CountsInv(s) && CallbackInv(s) && Enabled(s, a)
    ensures CallbackInv(Next(s, a))
  {
    match a {
      case CountStart(i) => LastHookKept(s, Next(s, a), i);
      case RunStartHook(i) => LastHookKept(s, Next(s, a), i);
      case ReturnFromRun(i) => LastHookKept(s, Next(s, a), i);
      case CountExit(i) => LastHookKept(s, Next(s, a), i); assert HasReturned(s.threads[i]);
      case RunExitHook(i) => ExitHookStep(s, i);
      case MarkExited(i) => LastHookKept(s, Next(s, a), i); assert HasReturned(s.threads[i]);
      case StopStep => StopStepCallback(s);
    }
  }

  lemma {:induction false} Always(n: nat, wait: bool, hasCallback: bool, run: seq<Action>)
    requires Exec(Initial(n, wait, hasCallback), run).Some?
    ensures var s := Exec(Initial(n, wait, hasCallback), run).value;
            CountsInv(s) && CallbackInv(s)
  {
    var start := Initial(n, wait, hasCallback);
    if run == [] {
      NoneCounted(start.threads);
    } else {
      var before := Exec(start, run[..|run| - 1]).value;
      Always(n, wait, hasCallback, run[..|run| - 1]);
      CountsStep(before, run[|run| - 1]);
      CallbackStep(before, run[|run| - 1]);
    }
  }

  /** The stop callback never runs twice, runs only after every loop has returned from `Run`, and has run once all hooks have. */
  lemma CallbackOnce(n: nat, hasCallback: bool, wait: bool, run: seq<Action>)
    requires Exec(Initial(n, wait, hasCallback), run).Some?
    ensures var s := Exec(Initial(n, wait, hasCallback), run).value;
            && |s.threads| == n && s.calls <= 1
            && (s.calls == 1 ==> hasCallback && forall i :: 0 <= i < n ==> HasReturned(s.threads[i]))
            && (n >= 1 && (forall i :: 0 <= i < n ==> s.threads[i].HookDone? || s.threads[i].Exited?) ==>
                  s.calls == if hasCallback then 1 else 0)
  {
    Always(n, wait, hasCallback, run);
    Fixed(Initial(n, wait, hasCallback), run);
    var s := Exec(Initial(n, wait, hasCallback), run).value;
    if s.calls == 1 && n >= 1 {
      var k :| 0 <= k < |s.threads| && LastAt(s, k);
      assert HasExitCount(s.threads[k]);
    }
    if n >= 1 && forall i :: 0 <= i < n ==> s.threads[i].HookDone? || s.threads[i].Exited? {
      AllCounted(s.threads);
      var k: nat :| DrewLast(s.threads, s.exitedCount, k);
      assert LastAt(s, k) && HasReturned(s.threads[k]);
    }
  }

  lemma {:induction false} AllCounted(ts: seq<Thread>)
    requires forall i :: 0 <= i < |ts| ==> HasExitCount(ts[i])
    ensures Counted(ts) == |ts|
  {
    if ts != [] {
      AllCounted(ts[..|ts| - 1]);
    }
  }

  /* What a finished `Stop` says about the threads. */

  ghost predicate WaitedInv(s: State) {
    s.wait && (s.stopper.Waited? || s.stopper.Done?) ==> All(s.threads, (t: Thread) => t.Exited?)
  }

  lemma WaitedStep(s: State, a: Action)
    requires WaitedInv(s) && Enabled(s, a) && (s.threads == [] ==> !s.stopper.Armed?)
    ensures WaitedInv(Next(s, a))
  {}

  lemma {:induction false} WaitedAlways(n: nat, wait: bool, hasCallback: bool, run: seq<Action>)
    requires Exec(Initial(n, wait, hasCallback), run).Some?
    ensures WaitedInv(Exec(Initial(n, wait, hasCallback), run).value)
  {
    if run != [] {
      WaitedAlways(n, wait, hasCallback, run[..|run| - 1]);
      Always(n, wait, hasCallback, run[..|run| - 1]);
      WaitedStep(Exec(Initial(n, wait, hasCallback), run[..|run| - 1]).value, run[|run| - 1]);
    }
  }

  lemma Extend(s: State, run: seq<Action>, a: Action)
    requires Exec(s, run).Some? && Enabled(Exec(s, run).value, a)
    ensures Exec(s, run + [a]) == Some(Next(Exec(s, run).value, a))
  {
    assert (run + [a])[..|run|] == run;
  }

  /** Without waiting, `Stop` returns, status set, before any loop has even started. */
  lemma HastyStop(n: nat, hasCallback: bool) returns (run: seq<Action>)
    requires n >= 1
    ensures var start := Initial(n, false, hasCallback);
            && Exec(start, run).Some?
            && Exec(start, run).value == start.(status := Stopped, stopper := Done, armed := hasCallback)
  {
    var start := Initial(n, false, hasCallback);
    run := [];
    Extend(start, run, StopStep);
    run := run + [StopStep];
    Extend(start, run, StopStep);
    run := run + [StopStep];
    Extend(start, run, StopStep);
    run := run + [StopStep];
    Extend(start, run, StopStep);
    run := run + [StopStep];
  }

  ghost predicate StopIsFinal(n: nat, wait: bool, hasCallback: bool) {
    forall run :: Exec(Initial(n, wait, hasCallback), run).Some? && Exec(Initial(n, wait, hasCallback), run).value.stopper.Done? ==>
      All(Exec(Initial(n, wait, hasCallback), run).value.threads, (t: Thread) => t.Exited?)
  }

  /** A returned `Stop` means every loop thread has finished exactly when it was asked to wait, or the pool is empty. */
  lemma StopIsFinalIff(n: nat, wait: bool, hasCallback: bool)
    ensures StopIsFinal(n, wait, hasCallback) <==> wait || n == 0
  {
    if wait || n == 0 {
      forall run | Exec(Initial(n, wait, hasCallback), run).Some? && Exec(Initial(n, wait, hasCallback), run).value.stopper.Done?
        ensures All(Exec(Initial(n, wait, hasCallback), run).value.threads, (t: Thread) => t.Exited?)
      {
        WaitedAlways(n, wait, hasCallback, run);
        Fixed(Initial(n, wait, hasCallback), run);
      }
    } else {
      var run := HastyStop(n, hasCallback);
      assert !Exec(Initial(n, wait, hasCallback), run).value.threads[0].Exited?;
    }
  }

  /* What it says about the status. */

  ghost predicate StatusIsFinal(n: nat, wait: bool, hasCallback: bool) {
    forall run :: Exec(Initial(n, wait, hasCallback), run).Some? && Exec(Initial(n, wait, hasCallback), run).value.stopper.Done? ==>
      Exec(Initial(n, wait, hasCallback), run).value.status == Stopped
  }

  predicate FinalInv(s: State) {
    s.stopper.Done? && (s.wait || s.threads == []) ==> s.status == Stopped
  }

  lemma FinalStep(s: State, a: Action)
    requires FinalInv(s) && WaitedInv(s) && Enabled(s, a)
    ensures FinalInv(Next(s, a))
  {}

  lemma {:induction false} FinalAlways(n: nat, wait: bool, hasCallback: bool, run: seq<Action>)
    requires Exec(Initial(n, wait, hasCallback), run).Some?
    ensures FinalInv(Exec(Initial(n, wait, hasCallback), run).value)
  {
    if run != [] {
      FinalAlways(n, wait, hasCallback, run[..|run| - 1]);
      WaitedAlways(n, wait, hasCallback, run[..|run| - 1]);
      FinalStep(Exec(Initial(n, wait, hasCallback), run[..|run| - 1]).value, run[|run| - 1]);
    }
  }

  /** n threads of which the first k have counted themselves started. */
  function StartedThreads(n: nat, k: nat): seq<Thread> {
    seq(n, (i: nat) => if i < k then StartHook(i + 1) else New)
  }

  /** After a hasty `Stop`, the first k threads start. */
  lemma {:induction false} LateStarts(n: nat, hasCallback: bool, k: nat) returns (run: seq<Action>)
    requires n >= 1 && k <= n
    ensures var start := Initial(n, false, hasCallback);
            Exec(start, run) == Some(start.(status := Stopped, stopper := Done, armed := hasCallback,
                                            startedCount := k, threads := StartedThreads(n, k)))
  {
    var start := Initial(n, false, hasCallback);
    if k == 0 {
      run := HastyStop(n, hasCallback);
      assert start.threads == StartedThreads(n, 0);
    } else {
      run := LateStarts(n, hasCallback, k - 1);
      Extend(start, run, CountStart(k - 1));
      run := run + [CountStart(k - 1)];
      assert StartedThreads(n, k - 1)[k - 1 := StartHook(k)] == StartedThreads(n, k);
    }
  }

  /** The last of the start hooks then puts the status back to running, in a pool of any size. */
  lemma StatusComesBack(n: nat, hasCallback: bool) returns (run: seq<Action>)
    requires n >= 1
    ensures var start := Initial(n, false, hasCallback);
            Exec(start, run).Some? && Exec(start, run).value.stopper.Done? && Exec(start, run).value.status == Running
  {
    var start := Initial(n, false, hasCallback);
    run := LateStarts(n, hasCallback, n);
    Extend(start, run, RunStartHook(n - 1));
    run := run + [RunStartHook(n - 1)];
  }

  /** The status a returned `Stop` leaves is the last word exactly when it was asked to wait, or the pool is empty. */
  lemma StatusIsFinalIff(n: nat, wait: bool, hasCallback: bool)
    ensures StatusIsFinal(n, wait, hasCallback) <==> wait || n == 0
  {
    if wait || n == 0 {
      forall run | Exec(Initial(n, wait, hasCallback), run).Some? && Exec(Initial(n, wait, hasCallback), run).value.stopper.Done?
        ensures Exec(Initial(n, wait, hasCallback), run).value.status == Stopped
      {
        FinalAlways(n, wait, hasCallback, run);
        Fixed(Initial(n, wait, hasCallback), run);
      }
    } else {
      var run := StatusComesBack(n, hasCallback);
      assert Exec(Initial(n, wait, hasCallback), run).value.status != Stopped;
    }
  }

  /* What a run did, read off its actions alone. */

  /** The threads in the order in which they counted themselves started, and exited. */
  function Starts(run: seq<Action>): seq<nat> {
    if run == [] then []
    else Starts(run[..|run| - 1]) + (if run[|run| - 1].CountStart? then [run[|run| - 1].i] else [])
  }

  function Exits(run: seq<Action>): seq<nat> {
    if run == [] then []
    else Exits(run[..|run| - 1]) + (if run[|run| - 1].CountExit? then [run[|run| - 1].i] else [])
  }

  function StopSteps(run: seq<Action>): nat {
    if run == [] then 0 else StopSteps(run[..|run| - 1]) + (if run[|run| - 1].StopStep? then 1 else 0)
  }

  predicate IsNth(order: seq<nat>, n: nat, i: nat) {
    1 <= n <= |order| && order[n - 1] == i
  }

  /** The status of a pool of n: what the last store left. `Start` leaves starting, or running if there is nothing to start;
      the hook of the n-th thread to start stores running, that of the n-th to exit stopped; `Stop` stores stopping first
      and stopped at its end. */
  function StatusOf(n: nat, run: seq<Action>): Status {
    if run == [] then if n == 0 then Running else Starting
    else
      var before := run[..|run| - 1];
      Stored(n, run[|run| - 1], Starts(before), Exits(before), StopSteps(before), StatusOf(n, before))
  }

  function Stored(n: nat, a: Action, starts: seq<nat>, exits: seq<nat>, stopSteps: nat, status: Status): Status {
    match a
    case RunStartHook(i) => if IsNth(starts, n, i) then Running else status
    case RunExitHook(i) => if IsNth(exits, n, i) then Stopped else status
    case StopStep =>
      if stopSteps == 0 then Stopping
      else if stopSteps == (if n == 0 then 1 else 3) then Stopped
      else status
    case _ => status
  }

  predicate Distinct(order: seq<nat>) {
    forall i, j :: 0 <= i < j < |order| ==> order[i] != order[j]
  }

  /** Start counts, and likewise exit counts, are handed out once each, from 1, in the order of counting. */
  ghost predicate OrderInv(ts: seq<Thread>, starts: seq<nat>, exits: seq<nat>) {
    && Distinct(starts) && Distinct(exits)
    && (forall k :: 0 <= k < |starts| ==> starts[k] < |ts| && !ts[starts[k]].New?)
    && (forall k :: 0 <= k < |exits| ==> exits[k] < |ts| && HasExitCount(ts[exits[k]]))
    && (forall i :: 0 <= i < |ts| ==> ts[i].New? || i in starts)
    && (forall i :: 0 <= i < |ts| && ts[i].StartHook? ==> IsNth(starts, ts[i].count, i))
    && (forall i :: 0 <= i < |ts| && HasExitCount(ts[i]) ==> IsNth(exits, ts[i].count, i))
  }

  /** How far `Stop` has come. */
  function StopperAt(n: nat, steps: nat): Stopper {
    if steps == 0 then Idle
    else if steps == 1 then Announced
    else if n == 0 then Done
    else if steps == 2 then Armed
    else if steps == 3 then Waited
    else Done
  }

  ghost predicate ReadOff(s: State, n: nat, run: seq<Action>) {
    && |s.threads| == n
    && s.startedCount == |Starts(run)| && s.exitedCount == |Exits(run)|
    && OrderInv(s.threads, Starts(run), Exits(run))
    && s.stopper == StopperAt(n, StopSteps(run))
    && s.status == StatusOf(n, run)
  }

  lemma OrderStart(ts: seq<Thread>, starts: seq<nat>, exits: seq<nat>, i: nat)
    requires OrderInv(ts, starts, exits) && i < |ts| && ts[i].New?
    ensures OrderInv(ts[i := StartHook(|starts| + 1)], starts + [i], exits)
  {
    var ts', starts' := ts[i := StartHook(|starts| + 1)], starts + [i];
    forall j | 0 <= j < |ts'| ensures ts'[j].New? || j in starts' {
      assert j != i ==> ts[j].New? || j in starts;
    }
  }

  lemma OrderExit(ts: seq<Thread>, starts: seq<nat>, exits: seq<nat>, i: nat)
    requires OrderInv(ts, starts, exits) && i < |ts| && ts[i].Returned?
    ensures OrderInv(ts[i := ExitHook(|exits| + 1)], starts, exits + [i])
  {
    assert ts[i].New? || i in starts;
  }

  /** A step of thread i that draws no count. */
  lemma OrderKept(ts: seq<Thread>, starts: seq<nat>, exits: seq<nat>, i: nat, t: Thread)
    requires OrderInv(ts, starts, exits) && i < |ts| && !ts[i].New? && !t.New? && !t.StartHook?
    requires HasExitCount(t) == HasExitCount(ts[i]) && (HasExitCount(t) ==> t.count == ts[i].count)
    ensures OrderInv(ts[i := t], starts, exits)
  {}

  /** Holding the n-th count and being the n-th to count are the same. */
  lemma LastIsNth(ts: seq<Thread>, starts: seq<nat>, exits: seq<nat>, i: nat)
    requires OrderInv(ts, starts, exits) && i < |ts|
    ensures ts[i].StartHook? ==> (ts[i].count == |ts| <==> IsNth(starts, |ts|, i))
    ensures HasExitCount(ts[i]) ==> (ts[i].count == |ts| <==> IsNth(exits, |ts|, i))
  {}

  lemma Snoc(n: nat, run: seq<Action>, a: Action)
    ensures Starts(run + [a]) == if a.CountStart? then Starts(run) + [a.i] else Starts(run)
    ensures Exits(run + [a]) == if a.CountExit? then Exits(run) + [a.i] else Exits(run)
    ensures StopSteps(run + [a]) == StopSteps(run) + (if a.StopStep? then 1 else 0)
    ensures StatusOf(n, run + [a]) == Stored(n, a, Starts(run), Exits(run), StopSteps(run), StatusOf(n, run))
  {
    assert (run + [a])[..|run|] == run;
  }

  lemma OrderStep(s: State, starts: seq<nat>, exits: seq<nat>, a: Action)
    requires OrderInv(s.threads, starts, exits) && Enabled(s, a) && !a.StopStep?
    requires s.startedCount == |starts| && s.exitedCount == |exits|
    ensures OrderInv(Next(s, a).threads, if a.CountStart? then starts + [a.i] else starts, if a.CountExit? then exits + [a.i] else exits)
  {
    hide OrderInv;
    if a.CountStart? {
      OrderStart(s.threads, starts, exits, a.i);
    } else if a.CountExit? {
      OrderExit(s.threads, starts, exits, a.i);
    } else {
      OrderKept(s.threads, starts, exits, a.i, ThreadAfter(s, a));
    }
  }

  lemma StoredStep(s: State, starts: seq<nat>, exits: seq<nat>, stopSteps: nat, a: Action)
    requires OrderInv(s.threads, starts, exits) && Enabled(s, a) && !a.StopStep?
    ensures Next(s, a).status == Stored(|s.threads|, a, starts, exits, stopSteps, s.status)
  {
    hide OrderInv, IsNth;
    LastIsNth(s.threads, starts, exits, a.i);
  }

  lemma ReadOffThread(s: State, n: nat, run: seq<Action>, a: Action)
    requires ReadOff(s, n, run) && Enabled(s, a) && !a.StopStep?
    ensures ReadOff(Next(s, a), n, run + [a])
  {
    hide OrderInv, Stored, Starts, Exits, StopSteps, StatusOf;
    Snoc(n, run, a);
    OrderStep(s, Starts(run), Exits(run), a);
    StoredStep(s, Starts(run), Exits(run), StopSteps(run), a);
  }

  lemma ReadOffStop(s: State, n: nat, run: seq<Action>)
    requires ReadOff(s, n, run) && Enabled(s, StopStep)
    ensures ReadOff(NextStop(s), n, run + [StopStep])
  {
    hide OrderInv, Starts, Exits, StopSteps, StatusOf;
    Snoc(n, run, StopStep);
  }

  /** Counts, progress of `Stop` and status in every run, from its actions alone. */
  lemma {:induction false} StatusIs(n: nat, wait: bool, hasCallback: bool, run: seq<Action>)
    requires Exec(Initial(n, wait, hasCallback), run).Some?
    ensures ReadOff(Exec(Initial(n, wait, hasCallback), run).value, n, run)
  {
    if run != [] {
      var before, a := run[..|run| - 1], run[|run| - 1];
      StatusIs(n, wait, hasCallback, before);
      assert before + [a] == run;
      if a.StopStep? {
        ReadOffStop(Exec(Initial(n, wait, hasCallback), before).value, n, before);
      } else {
        ReadOffThread(Exec(Initial(n, wait, hasCallback), before).value, n, before, a);
      }
    }
  }

  /* What the status means. */

  function Elements(order: seq<nat>): set<nat> {
    set x | x in order
  }

  function Below(n: nat): (b: set<nat>)
    ensures forall x: nat :: x in b <==> x < n
    ensures |b| == n
  {
    if n == 0 then {} else Below(n - 1) + {n - 1}
  }

  lemma {:induction false} CountElements(order: seq<nat>)
    requires Distinct(order)
    ensures |Elements(order)| == |order|
  {
    if order != [] {
      var before, last := order[..|order| - 1], order[|order| - 1];
      CountElements(before);
      assert Elements(order) == Elements(before) + {last};
    }
  }

  lemma SubsetCount(a: set<nat>, b: set<nat>)
    requires a <= b
    ensures |a| <= |b| && (|a| == |b| ==> a == b)
  {
    assert |b - a| == |b| - |a|;
  }

  /** n different numbers below n are all of them, and all of them are at least n. */
  lemma Pigeons(order: seq<nat>, n: nat)
    requires Distinct(order) && forall k :: 0 <= k < |order| ==> order[k] < n
    ensures |order| >= n <==> forall i :: 0 <= i < n ==> i in order
  {
    CountElements(order);
    SubsetCount(Elements(order), Below(n));
    if |order| >= n {
      forall i | 0 <= i < n ensures i in order {
        assert i in Below(n);
      }
    }
    if forall i :: 0 <= i < n ==> i in order {
      assert Elements(order) == Below(n);
    }
  }

  predicate PastStart(t: Thread) {
    !t.New? && !t.StartHook?
  }

  /** Before `Stop`, running means that every thread has run its start hook's last count. */
  ghost predicate IdleInv(s: State) {
    s.stopper.Idle? && s.threads != [] ==>
      s.status == if s.startedCount >= |s.threads| && forall i :: 0 <= i < |s.threads| ==> s.threads[i] != StartHook(|s.threads|)
                  then Running else Starting
  }

  lemma IdleStep(s: State, starts: seq<nat>, exits: seq<nat>, a: Action)
    requires IdleInv(s) && CallbackInv(s) && Enabled(s, a)
    requires OrderInv(s.threads, starts, exits) && s.startedCount == |starts|
    ensures IdleInv(Next(s, a))
  {
    if !a.StopStep? && s.stopper.Idle? {
      var s', n := Next(s, a), |s.threads|;
      assert !HasReturned(s.threads[a.i]);
      Pigeons(starts, n);
      if a.CountStart? {
        assert a.i !in starts;
        assert s'.threads[a.i] == StartHook(s'.startedCount);
      } else {
        assert forall i :: 0 <= i < n && i != a.i ==> s'.threads[i] == s.threads[i];
      }
    }
  }

  lemma {:induction false} IdleAlways(n: nat, wait: bool, hasCallback: bool, run: seq<Action>)
    requires Exec(Initial(n, wait, hasCallback), run).Some?
    ensures IdleInv(Exec(Initial(n, wait, hasCallback), run).value)
  {
    if run != [] {
      var before := run[..|run| - 1];
      IdleAlways(n, wait, hasCallback, before);
      Always(n, wait, hasCallback, before);
      StatusIs(n, wait, hasCallback, before);
      IdleStep(Exec(Initial(n, wait, hasCallback), before).value, Starts(before), Exits(before), run[|run| - 1]);
    }
  }

  /** A pool is running only once every thread has started; and until `Stop` is called it is running, if every thread is past
      its start hook, or else still starting. */
  lemma RunningMeansStarted(n: nat, wait: bool, hasCallback: bool, run: seq<Action>)
    requires n >= 1 && Exec(Initial(n, wait, hasCallback), run).Some?
    ensures var s := Exec(Initial(n, wait, hasCallback), run).value;
            && |s.threads| == n
            && (s.status == Running ==> forall i :: 0 <= i < n ==> !s.threads[i].New?)
            && (s.stopper.Idle? ==> s.status == Running || s.status == Starting)
            && (s.stopper.Idle? && (forall i :: 0 <= i < n ==> PastStart(s.threads[i])) ==> s.status == Running)
  {
    var s := Exec(Initial(n, wait, hasCallback), run).value;
    StatusIs(n, wait, hasCallback, run);
    IdleAlways(n, wait, hasCallback, run);
    Pigeons(Starts(run), n);
    if s.status == Running {
      RunningNeedsAll(n, run);
      forall i | 0 <= i < n ensures !s.threads[i].New? {
        assert i in Starts(run);
      }
    }
  }

  lemma {:induction false} RunningNeedsAll(n: nat, run: seq<Action>)
    requires n >= 1 && StatusOf(n, run) == Running
    ensures |Starts(run)| >= n
  {
    var before := run[..|run| - 1];
    if StatusOf(n, before) == Running {
      RunningNeedsAll(n, before);
    }
  }

  /** Called, `Stop` ends the running state at once, and only a start hook still to come brings it back. */
  lemma {:induction false} RunningAfterStop(n: nat, run: seq<Action>) returns (k: nat)
    requires n >= 1 && StopSteps(run) > 0 && StatusOf(n, run) == Running
    ensures k < |run| && run[k].RunStartHook? && StopSteps(run[..k]) > 0 && IsNth(Starts(run[..k]), n, run[k].i)
  {
    var before, a := run[..|run| - 1], run[|run| - 1];
    if a.RunStartHook? && IsNth(Starts(before), n, a.i) {
      k := |run| - 1;
    } else {
      k := RunningAfterStop(n, before);
      assert before[..k] == run[..k];
    }
  }

  ghost predicate StoppedInv(s: State) {
    LastHookRan(s) ==> s.status == Stopped
  }

  lemma LastHookMeansAll(s: State)
    requires CountsInv(s) && CallbackInv(s) && LastHookRan(s)
    ensures Signalled(s) && forall i :: 0 <= i < |s.threads| ==> HasExitCount(s.threads[i])
  {
    var k :| 0 <= k < |s.threads| && LastAt(s, k);
    assert HasExitCount(s.threads[k]) && HasReturned(s.threads[k]);
  }

  lemma StoppedStep(s: State, a: Action)
    requires StoppedInv(s) && CountsInv(s) && CallbackInv(s) && Enabled(s, a)
    ensures StoppedInv(Next(s, a))
  {
    var s' := Next(s, a);
    if LastHookRan(s) {
      LastHookMeansAll(s);
    } else if a.StopStep? {
      assert forall k :: LastAt(s', k) == LastAt(s, k);
    } else if !a.RunExitHook? {
      LastHookKept(s, s', a.i);
    } else if !IsLast(s, a.i) {
      LastHookKept(s, s', a.i);
    }
  }

  /** Once the last exit hook has run, the pool is stopped and stays so. */
  lemma {:induction false} LastExitMeansStopped(n: nat, wait: bool, hasCallback: bool, run: seq<Action>)
    requires Exec(Initial(n, wait, hasCallback), run).Some?
    ensures StoppedInv(Exec(Initial(n, wait, hasCallback), run).value)
  {
    if run != [] {
      var before := run[..|run| - 1];
      LastExitMeansStopped(n, wait, hasCallback, before);
      Always(n, wait, hasCallback, before);
      StoppedStep(Exec(Initial(n, wait, hasCallback), before).value, run[|run| - 1]);
    }
  }

  /* Termination. */

  function ThreadEffort(t: Thread): nat {
    match t
    case New => 6
    case StartHook(_) => 5
    case Looping => 4
    case Returned => 3
    case ExitHook(_) => 2
    case HookDone(_) => 1
    case Exited(_) => 0
  }

  function Effort(ts: seq<Thread>): nat {
    if ts == [] then 0 else Effort(ts[..|ts| - 1]) + ThreadEffort(ts[|ts| - 1])
  }

  function StopEffort(s: Stopper): nat {
    match s
    case Idle => 4
    case Announced => 3
    case Armed => 2
    case Waited => 1
    case Done => 0
  }

  lemma {:induction false} EffortUpdate(ts: seq<Thread>, i: nat, t: Thread)
    requires i < |ts|
    ensures Effort(ts[i := t]) + ThreadEffort(ts[i]) == Effort(ts) + ThreadEffort(t)
  {
    var n := |ts| - 1;
    if i < n {
      EffortUpdate(ts[..n], i, t);
      assert ts[i := t][..n] == ts[..n][i := t];
    } else {
      assert ts[i := t][..n] == ts[..n];
    }
  }

  lemma WorkStep(s: State, a: Action)
    requires Enabled(s, a)
    ensures Effort(Next(s, a).threads) + StopEffort(Next(s, a).stopper) < Effort(s.threads) + StopEffort(s.stopper)
  {
    if !a.StopStep? {
      EffortUpdate(s.threads, a.i, ThreadAfter(s, a));
    }
  }

  /** Every run is bounded, and until `Stop` has returned and every thread has exited it can go on. */
  lemma {:induction false} WorkBounded(s: State, run: seq<Action>)
    requires Exec(s, run).Some?
    ensures var s' := Exec(s, run).value;
            |run| + Effort(s'.threads) + StopEffort(s'.stopper) <= Effort(s.threads) + StopEffort(s.stopper)
  {
    if run != [] {
      WorkBounded(s, run[..|run| - 1]);
      WorkStep(Exec(s, run[..|run| - 1]).value, run[|run| - 1]);
    }
  }

  lemma StopProgress(s: State) returns (a: Action)
    requires !s.stopper.Done? || exists i :: 0 <= i < |s.threads| && !s.threads[i].Exited?
    ensures Enabled(s, a)
  {
    if !s.stopper.Done? && (!s.stopper.Armed? || forall i :: 0 <= i < |s.threads| ==> s.threads[i].Exited?) {
      a := StopStep;
    } else {
      var i: nat :| i < |s.threads| && !s.threads[i].Exited?;
      a := match s.threads[i]
           case New => CountStart(i)
           case StartHook(_) => RunStartHook(i)
           case Looping => ReturnFromRun(i)
           case Returned => CountExit(i)
           case ExitHook(_) => RunExitHook(i)
           case HookDone(_) => MarkExited(i)
           case Exited(_) => StopStep;
    }
  }
}
