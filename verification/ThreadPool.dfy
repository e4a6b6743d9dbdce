/** The condition-variable thread pool: workers, enqueuers and the stopping destructor, step by step. */
module ThreadPools {
  import opened Wrappers

  type TaskId = nat

  /** `Ready` is about to take the lock and test the wait condition; `Blocked` is inside the wait. */
  datatype Worker = Ready | Blocked | Running(task: TaskId) | Exited

  datatype Destructor = Alive | MustNotify | Joining | Joined

  datatype State = State(
    queue: seq<TaskId>,
    stop: bool,
    workers: seq<Worker>,
    owed: nat,
    destructor: Destructor,
    accepted: seq<TaskId>,
    dequeued: seq<TaskId>,
    finished: seq<TaskId>)

  /** `owed` counts the enqueuers between unlocking and `notify_one`. */
  datatype Action =
    | Enqueue(task: TaskId)
    | NotifyOne(i: nat)
    | NotifyNobody
    | Spurious(i: nat)
    | Check(i: nat)
    | Finish(i: nat)
    | SetStop
    | NotifyAll
    | Join

  function Initial(n: nat): State {
    State([], false, seq(n, (i: nat) => Ready), 0, Alive, [], [], [])
  }

  predicate IsAt(s: State, i: nat, w: Worker) {
    i < |s.workers| && s.workers[i] == w
  }

  predicate SomeBlocked(s: State) {
    exists i :: 0 <= i < |s.workers| && s.workers[i].Blocked?
  }

  predicate AllExited(s: State) {
    forall i :: 0 <= i < |s.workers| ==> s.workers[i].Exited?
  }

  predicate Enabled(s: State, a: Action) {
    match a
    case Enqueue(_) => true
    case NotifyOne(i) => s.owed > 0 && IsAt(s, i, Blocked)
    case NotifyNobody => s.owed > 0 && !SomeBlocked(s)
    case Spurious(i) => IsAt(s, i, Blocked)
    case Check(i) => IsAt(s, i, Ready)
    case Finish(i) => i < |s.workers| && s.workers[i].Running?
    case SetStop => s.destructor.Alive?
    case NotifyAll => s.destructor.MustNotify?
    case Join => s.destructor.Joining? && AllExited(s)
  }

  function Awakened(ws: seq<Worker>): (r: seq<Worker>)
    ensures |r| == |ws|
  {
    seq(|ws|, i requires 0 <= i < |ws| => if ws[i].Blocked? then Ready else ws[i])
  }

  function Next(s: State, a: Action): State
    requires Enabled(s, a)
  {
    match a
    case Enqueue(task) =>
      if s.stop then s
      else s.(queue := s.queue + [task], accepted := s.accepted + [task], owed := s.owed + 1)
    case NotifyOne(i) => s.(owed := s.owed - 1, workers := s.workers[i := Ready])
    case NotifyNobody => s.(owed := s.owed - 1)
    case Spurious(i) => s.(workers := s.workers[i := Ready])
    case Check(i) =>
      if s.queue != [] then
        s.(queue := s.queue[1..], dequeued := s.dequeued + [s.queue[0]], workers := s.workers[i := Running(s.queue[0])])
      else s.(workers := s.workers[i := if s.stop then Exited else Blocked])
    case Finish(i) => s.(finished := s.finished + [s.workers[i].task], workers := s.workers[i := Ready])
    case SetStop => s.(stop := true, destructor := MustNotify)
    case NotifyAll => s.(destructor := Joining, workers := Awakened(s.workers))
    case Join => s.(destructor := Joined)
  }

  function Exec(s: State, run: seq<Action>): Option<State> {
    if run == [] then Some(s)
    else
      var before := Exec(s, run[..|run| - 1]);
      if before.Some? && Enabled(before.value, run[|run| - 1]) then Some(Next(before.value, run[|run| - 1])) else None
  }

  /* What a run did, read off its actions alone. */

  predicate Stops(run: seq<Action>) {
    exists i :: 0 <= i < |run| && run[i].SetStop?
  }

  /** The tasks that the run's calls of `enqueue` hand over before the stop flag is set, in order. */
  function Accepted(run: seq<Action>): seq<TaskId> {
    if run == [] then []
    else
      var a, before := run[|run| - 1], run[..|run| - 1];
      Accepted(before) + (if a.Enqueue? && !Stops(before) then [a.task] else [])
  }

  function Notified(run: seq<Action>): nat {
    if run == [] then 0
    else Notified(run[..|run| - 1]) + (if run[|run| - 1].NotifyOne? || run[|run| - 1].NotifyNobody? then 1 else 0)
  }

  lemma StopsSnoc(run: seq<Action>)
    requires run != []
    ensures Stops(run) <==> Stops(run[..|run| - 1]) || run[|run| - 1].SetStop?
  {
    if Stops(run) {
      var i :| 0 <= i < |run| && run[i].SetStop?;
      if i < |run| - 1 {
        assert run[..|run| - 1][i].SetStop?;
      }
    }
    if Stops(run[..|run| - 1]) {
      var i :| 0 <= i < |run| - 1 && run[..|run| - 1][i].SetStop?;
      assert run[i].SetStop?;
    }
  }

  /** Every task handed over before the flag is accepted, in order, and has one notification to come or given; none is afterwards. */
  lemma {:induction false} AcceptedIs(n: nat, run: seq<Action>)
    requires Exec(Initial(n), run).Some?
    ensures var s := Exec(Initial(n), run).value;
            s.accepted == Accepted(run) && s.stop == Stops(run) && s.owed + Notified(run) == |Accepted(run)|
  {
    if run != [] {
      AcceptedIs(n, run[..|run| - 1]);
      AcceptedStep(Exec(Initial(n), run[..|run| - 1]).value, run[|run| - 1]);
      StopsSnoc(run);
    }
  }

  lemma AcceptedStep(s: State, a: Action)
    requires Enabled(s, a)
    ensures var s' := Next(s, a);
            && s'.accepted == s.accepted + (if a.Enqueue? && !s.stop then [a.task] else [])
            && s'.stop == (s.stop || a.SetStop?)
            && s'.owed == s.owed + (if a.Enqueue? && !s.stop then 1 else 0) - (if a.NotifyOne? || a.NotifyNobody? then 1 else 0)
  {}

  /* Sums over the workers. */

  function Total(ws: seq<Worker>, f: Worker -> nat): nat {
    if ws == [] then 0 else Total(ws[..|ws| - 1], f) + f(ws[|ws| - 1])
  }

  lemma {:induction false} TotalUpdate(ws: seq<Worker>, f: Worker -> nat, i: nat, w: Worker)
    requires i < |ws|
    ensures Total(ws[i := w], f) + f(ws[i]) == Total(ws, f) + f(w)
  {
    var n := |ws| - 1;
    if i < n {
      TotalUpdate(ws[..n], f, i, w);
      assert ws[i := w][..n] == ws[..n][i := w];
    } else {
      assert ws[i := w][..n] == ws[..n];
    }
  }

  lemma {:induction false} TotalAwakened(ws: seq<Worker>, f: Worker -> nat)
    ensures f(Ready) >= f(Blocked) ==> Total(Awakened(ws), f) >= Total(ws, f)
    ensures f(Ready) <= f(Blocked) ==> Total(Awakened(ws), f) <= Total(ws, f)
  {
    if ws != [] {
      TotalAwakened(ws[..|ws| - 1], f);
      assert Awakened(ws)[..|ws| - 1] == Awakened(ws[..|ws| - 1]);
    }
  }

  const ReadyCount: Worker -> nat := (w: Worker) => if w.Ready? then 1 else 0

  function TaskOf(w: Worker): multiset<TaskId> {
    if w.Running? then multiset{w.task} else multiset{}
  }

  function RunningTasks(ws: seq<Worker>): multiset<TaskId> {
    if ws == [] then multiset{} else RunningTasks(ws[..|ws| - 1]) + TaskOf(ws[|ws| - 1])
  }

  lemma RunningSnoc(ws: seq<Worker>, w: Worker)
    ensures RunningTasks(ws + [w]) == RunningTasks(ws) + TaskOf(w)
  {
    assert (ws + [w])[..|ws|] == ws;
  }

  lemma {:induction false} RunningUpdate(ws: seq<Worker>, i: nat, w: Worker)
    requires i < |ws|
    ensures RunningTasks(ws[i := w]) + TaskOf(ws[i]) == RunningTasks(ws) + TaskOf(w)
  {
    hide RunningTasks, TaskOf;
    var n := |ws| - 1;
    RunningSnoc(ws[..n], ws[n]);
    assert ws[..n] + [ws[n]] == ws;
    if i < n {
      RunningUpdate(ws[..n], i, w);
      RunningSnoc(ws[..n][i := w], ws[n]);
      assert ws[..n][i := w] + [ws[n]] == ws[i := w];
      AddBoth(RunningTasks(ws[..n][i := w]), TaskOf(ws[i]), RunningTasks(ws[..n]), TaskOf(w), TaskOf(ws[n]));
    } else {
      RunningSnoc(ws[..n], w);
      assert ws[..n] + [w] == ws[i := w];
    }
  }

  lemma AddBoth(a: multiset<TaskId>, b: multiset<TaskId>, c: multiset<TaskId>, d: multiset<TaskId>, e: multiset<TaskId>)
    requires a + b == c + d
    ensures (a + e) + b == (c + e) + d
  {
    assert (a + e) + b == (a + b) + e && (c + e) + d == (c + d) + e;
  }

  /** Replacing a worker by one that runs nothing either. */
  lemma RunningSame(ws: seq<Worker>, i: nat, w: Worker)
    requires i < |ws| && !ws[i].Running? && !w.Running?
    ensures RunningTasks(ws[i := w]) == RunningTasks(ws)
  {
    RunningUpdate(ws, i, w);
    assert RunningTasks(ws[i := w]) + multiset{} == RunningTasks(ws[i := w]);
  }

  lemma {:induction false} RunningAwakened(ws: seq<Worker>)
    ensures RunningTasks(Awakened(ws)) == RunningTasks(ws)
  {
    if ws != [] {
      RunningAwakened(ws[..|ws| - 1]);
      assert Awakened(ws)[..|ws| - 1] == Awakened(ws[..|ws| - 1]);
    }
  }

  lemma {:induction false} NoneRunning(ws: seq<Worker>)
    requires forall i :: 0 <= i < |ws| ==> !ws[i].Running?
    ensures RunningTasks(ws) == multiset{}
  {
    if ws != [] {
      NoneRunning(ws[..|ws| - 1]);
    }
  }

  /* Invariants of every run. */

  /** Tasks leave the queue in the order they were accepted, and each dequeued one is running or finished. */
  ghost predicate Fifo(s: State) {
    && s.dequeued + s.queue == s.accepted
    && multiset(s.dequeued) == multiset(s.finished) + RunningTasks(s.workers)
  }

  /** While anyone sleeps, every queued task has a worker about to look or a notification on its way. */
  ghost predicate Supplied(s: State) {
    SomeBlocked(s) ==> |s.queue| <= s.owed + Total(s.workers, ReadyCount)
  }

  ghost predicate StopInv(s: State) {
    && s.stop == !s.destructor.Alive?
    && (s.destructor.Joining? || s.destructor.Joined? ==> forall i :: 0 <= i < |s.workers| ==> !s.workers[i].Blocked?)
    && (forall i :: 0 <= i < |s.workers| && s.workers[i].Exited? ==> s.stop && s.queue == [])
    && (s.destructor.Joined? ==> AllExited(s))
  }

  lemma FifoTake(s: State, i: nat)
    requires Fifo(s) && Enabled(s, Check(i)) && s.queue != []
    ensures Fifo(Next(s, Check(i)))
  {
    var t, s' := s.queue[0], Next(s, Check(i));
    RunningMore(s.workers, i, t);
    TakeFirst(s.dequeued, s.queue);
  }

  lemma RunningMore(ws: seq<Worker>, i: nat, t: TaskId)
    requires i < |ws| && !ws[i].Running?
    ensures RunningTasks(ws[i := Running(t)]) == RunningTasks(ws) + multiset{t}
  {
    RunningUpdate(ws, i, Running(t));
    assert RunningTasks(ws[i := Running(t)]) + multiset{} == RunningTasks(ws[i := Running(t)]);
  }

  lemma TakeFirst(d: seq<TaskId>, q: seq<TaskId>)
    requires q != []
    ensures d + [q[0]] + q[1..] == d + q
    ensures multiset(d + [q[0]]) == multiset(d) + multiset{q[0]}
  {
    assert q == [q[0]] + q[1..];
  }

  lemma FifoFinish(s: State, i: nat)
    requires Fifo(s) && Enabled(s, Finish(i))
    ensures Fifo(Next(s, Finish(i)))
  {
    var t := s.workers[i].task;
    RunningUpdate(s.workers, i, Ready);
    assert RunningTasks(s.workers) + multiset{} == RunningTasks(s.workers);
    assert multiset(s.finished + [t]) == multiset(s.finished) + multiset{t};
  }

  lemma FifoStep(s: State, a: Action)
    requires Fifo(s) && Enabled(s, a)
    ensures Fifo(Next(s, a))
  {
    match a {
      case Check(i) =>
        if s.queue != [] {
          FifoTake(s, i);
        } else {
          RunningSame(s.workers, i, Next(s, a).workers[i]);
        }
      case Finish(i) => FifoFinish(s, i);
      case NotifyOne(i) => RunningSame(s.workers, i, Ready);
      case Spurious(i) => RunningSame(s.workers, i, Ready);
      case NotifyAll => RunningAwakened(s.workers);
      case Enqueue(task) => assert s.dequeued + (s.queue + [task]) == s.dequeued + s.queue + [task];
      case _ =>
    }
  }

  lemma SuppliedStep(s: State, a: Action)
    requires Supplied(s) && Enabled(s, a)
    ensures Supplied(Next(s, a))
  {
    var s' := Next(s, a);
    match a {
      case Check(i) =>
        TotalUpdate(s.workers, ReadyCount, i, s'.workers[i]);
        StillBlocked(s, s', i);
      case Finish(i) => TotalUpdate(s.workers, ReadyCount, i, Ready); StillBlocked(s, s', i);
      case NotifyOne(i) => TotalUpdate(s.workers, ReadyCount, i, Ready); assert SomeBlocked(s);
      case Spurious(i) => TotalUpdate(s.workers, ReadyCount, i, Ready); assert SomeBlocked(s);
      case NotifyAll => assert !SomeBlocked(s');
      case _ =>
    }
  }

  lemma StillBlocked(s: State, s': State, i: nat)
    requires i < |s.workers| == |s'.workers|
    requires forall j :: 0 <= j < |s.workers| && j != i ==> s'.workers[j] == s.workers[j]
    ensures SomeBlocked(s') && !s'.workers[i].Blocked? ==> SomeBlocked(s)
  {}

  lemma StopInvStep(s: State, a: Action)
    requires StopInv(s) && Enabled(s, a)
    ensures StopInv(Next(s, a))
  {
  }

  lemma {:induction false} InitialTotals(n: nat)
    ensures RunningTasks(Initial(n).workers) == multiset{}
  {
    NoneRunning(Initial(n).workers);
  }

  lemma {:induction false} Always(n: nat, run: seq<Action>)
    requires Exec(Initial(n), run).Some?
    ensures var s := Exec(Initial(n), run).value; Fifo(s) && Supplied(s) && StopInv(s) && |s.workers| == n
  {
    if run == [] {
      InitialTotals(n);
    } else {
      var before := Exec(Initial(n), run[..|run| - 1]).value;
      Always(n, run[..|run| - 1]);
      FifoStep(before, run[|run| - 1]);
      SuppliedStep(before, run[|run| - 1]);
      StopInvStep(before, run[|run| - 1]);
    }
  }

  /** Liveness invariant: while any worker sleeps, queued tasks are covered by workers about to look and by
      notifications to come; if all sleep, by notifications alone; if any sleeps after the stop flag is set, `notify_all` is still to come. */
  lemma SleepersAreWoken(n: nat, run: seq<Action>)
    requires Exec(Initial(n), run).Some?
    ensures var s := Exec(Initial(n), run).value;
            && (SomeBlocked(s) ==> |s.queue| <= s.owed + Total(s.workers, ReadyCount))
            && (n >= 1 && (forall i :: 0 <= i < n ==> IsAt(s, i, Blocked)) ==> |s.queue| <= s.owed)
            && (s.stop && SomeBlocked(s) ==> s.destructor.MustNotify?)
  {
    Always(n, run);
    var s := Exec(Initial(n), run).value;
    if n >= 1 && forall i :: 0 <= i < n ==> IsAt(s, i, Blocked) {
      assert IsAt(s, 0, Blocked);
      assert forall i :: 0 <= i < n ==> s.workers[i] == Blocked by {
        forall i | 0 <= i < n ensures s.workers[i] == Blocked { assert IsAt(s, i, Blocked); }
      }
      NoneReady(s.workers);
    }
  }

  lemma {:induction false} NoneReady(ws: seq<Worker>)
    requires forall i :: 0 <= i < |ws| ==> !ws[i].Ready?
    ensures Total(ws, ReadyCount) == 0
  {
    if ws != [] {
      NoneReady(ws[..|ws| - 1]);
    }
  }

  /** Tasks are taken in the order they were handed over; with a worker, every task handed over before the flag has been
      run once every worker is gone. */
  lemma ShutdownDrains(n: nat, run: seq<Action>)
    requires Exec(Initial(n), run).Some? && AllExited(Exec(Initial(n), run).value)
    ensures var s := Exec(Initial(n), run).value;
            && s.dequeued <= Accepted(run)
            && (n >= 1 ==> s.queue == [] && s.dequeued == Accepted(run) && multiset(s.finished) == multiset(Accepted(run)))
            && (n == 0 ==> s.dequeued == [] && s.queue == Accepted(run))
  {
    Always(n, run);
    AcceptedIs(n, run);
    var s := Exec(Initial(n), run).value;
    NoneRunning(s.workers);
    if n >= 1 {
      assert s.workers[0].Exited?;
    } else {
      assert multiset(s.dequeued) == multiset(s.finished);
      NoWorkersNoWork(run);
    }
  }

  /** And the destructor is done only then. */
  lemma JoinedMeansDrained(n: nat, run: seq<Action>)
    requires n >= 1 && Exec(Initial(n), run).Some? && Exec(Initial(n), run).value.destructor.Joined?
    ensures var s := Exec(Initial(n), run).value;
            AllExited(s) && Stops(run) && multiset(s.finished) == multiset(Accepted(run))
  {
    Always(n, run);
    AcceptedIs(n, run);
    ShutdownDrains(n, run);
  }

  lemma {:induction false} NoWorkersNoWork(run: seq<Action>)
    requires Exec(Initial(0), run).Some?
    ensures var s := Exec(Initial(0), run).value; s.workers == [] && s.dequeued == []
  {
    if run != [] {
      NoWorkersNoWork(run[..|run| - 1]);
    }
  }

  /* Termination of the shutdown. */

  const Effort: Worker -> nat := (w: Worker) =>
    match w
    case Ready => 1
    case Blocked => 2
    case Running(_) => 2
    case Exited => 0

  function Measure(s: State): nat {
    2 * |s.queue| + s.owed + Total(s.workers, Effort)
    + (match s.destructor case Alive => 3 case MustNotify => 2 case Joining => 1 case Joined => 0)
  }

  /** After the stop flag is set every step works it off, except an enqueue, which is refused and changes nothing. */
  lemma StoppingStep(s: State, a: Action)
    requires s.stop && StopInv(s) && Enabled(s, a)
    ensures Next(s, a).stop
    ensures if a.Enqueue? then Next(s, a) == s else Measure(Next(s, a)) < Measure(s)
  {
    match a {
      case Check(i) => TotalUpdate(s.workers, Effort, i, Next(s, a).workers[i]);
      case Finish(i) => TotalUpdate(s.workers, Effort, i, Ready);
      case NotifyOne(i) => TotalUpdate(s.workers, Effort, i, Ready);
      case Spurious(i) => TotalUpdate(s.workers, Effort, i, Ready);
      case NotifyAll => TotalAwakened(s.workers, Effort);
      case _ =>
    }
  }

  /** And until the joins are done some worker or the destructor can take a step. */
  lemma StoppingProgress(s: State) returns (a: Action)
    requires s.stop && StopInv(s) && !s.destructor.Joined?
    ensures Enabled(s, a) && !a.Enqueue?
    ensures a.Check? || a.Finish? || a.NotifyAll? || a.Join?
  {
    if s.destructor.MustNotify? {
      a := NotifyAll;
    } else if AllExited(s) {
      a := Join;
    } else {
      var i :| 0 <= i < |s.workers| && !s.workers[i].Exited?;
      a := if s.workers[i].Ready? then Check(i) else Finish(i);
    }
  }

  function Effective(run: seq<Action>): nat {
    if run == [] then 0 else Effective(run[..|run| - 1]) + (if run[|run| - 1].Enqueue? then 0 else 1)
  }

  /** So a shutdown takes a bounded number of steps, whatever is enqueued meanwhile. */
  lemma {:induction false} ShutdownBounded(s: State, run: seq<Action>)
    requires s.stop && StopInv(s) && Exec(s, run).Some?
    ensures var s' := Exec(s, run).value;
            s'.stop && StopInv(s') && Effective(run) + Measure(s') <= Measure(s)
  {
    if run != [] {
      ShutdownBounded(s, run[..|run| - 1]);
      var before := Exec(s, run[..|run| - 1]).value;
      StoppingStep(before, run[|run| - 1]);
      StopInvStep(before, run[|run| - 1]);
    }
  }
}
