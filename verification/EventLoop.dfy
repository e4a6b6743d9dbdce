/** The cross-thread queue of `EventLoop`: any number of producers, one consumer, one wakeup pipe. */
module EventLoops {
  import opened Wrappers

  type ProducerId = nat

  /** A queued functor, numbered by the order of its push; `stops` marks a bound `StopInLoop`. */
  datatype Functor = Functor(id: nat, stops: bool)

  /** Where a thread stands inside `QueueInLoop`; a thread outside it has no entry. */
  datatype Pc = Pushed | Counted | SawUnset | MustSend

  /** Where a running `StopInLoop` stands: two drain loops around the call of `event_base_loopexit`. */
  datatype Stage = Swap1 | Check1 | ExitLoop | Swap2 | Check2 | Finished

  datatype Running = Nothing | Ordinary(f: Functor) | Stopping(f: Functor, stage: Stage)

  /** One call of `DoPendingFunctors`: what is left of its batch, and the functor it is in. */
  datatype Frame = Frame(todo: seq<Functor>, running: Running)

  datatype State = State(
    pending: seq<Functor>,
    notified: bool,
    count: int,
    bytes: nat,
    capacity: nat,
    producers: map<ProducerId, Pc>,
    polled: bool,
    stack: seq<Frame>,
    exiting: bool,
    stopped: bool,
    started: seq<Functor>,
    pushed: seq<Functor>,
    drained: Option<nat>)

  datatype Action =
    | Push(p: ProducerId, stops: bool)
    | Count(p: ProducerId)
    | LoadFlag(p: ProducerId)
    | StoreFlag(p: ProducerId)
    | Send(p: ProducerId)
    | Recv
    | SwapIn
    | Start
    | StopStep
    | Finish
    | EndBatch
    | Return

  function Initial(capacity: nat): State {
    State([], false, 0, 0, capacity, map[], false, [], false, false, [], [], None)
  }

  const RECV_BUFFER: nat := 128

  predicate At(s: State, p: ProducerId, pc: Pc) {
    p in s.producers && s.producers[p] == pc
  }

  function Top(s: State): Frame
    requires s.stack != []
  {
    s.stack[|s.stack| - 1]
  }

  function SetTop(s: State, f: Frame): State
    requires s.stack != []
  {
    s.(stack := s.stack[..|s.stack| - 1] + [f])
  }

  /** The locked block of `DoPendingFunctors`. */
  function Swap(s: State): State {
    s.(notified := false, pending := [], stack := s.stack + [Frame(s.pending, Nothing)])
  }

  predicate Enabled(s: State, a: Action) {
    match a
    case Push(p, _) => p !in s.producers
    case Count(p) => At(s, p, Pushed)
    case LoadFlag(p) => At(s, p, Counted)
    case StoreFlag(p) => At(s, p, SawUnset)
    case Send(p) => At(s, p, MustSend)
    case Recv => !s.stopped && !s.polled && s.stack == [] && s.bytes > 0
    case SwapIn => s.polled
    case Start => s.stack != [] && Top(s).running.Nothing? && Top(s).todo != []
    case StopStep => s.stack != [] && Top(s).running.Stopping? && !Top(s).running.stage.Finished?
    case Finish => s.stack != [] && (Top(s).running.Ordinary? || (Top(s).running.Stopping? && Top(s).running.stage.Finished?))
    case EndBatch => s.stack != [] && Top(s).running.Nothing? && Top(s).todo == []
    case Return => s.exiting && !s.polled && s.stack == [] && !s.stopped
  }

  function Next(s: State, a: Action): State
    requires Enabled(s, a)
  {
    match a
    case Push(p, stops) =>
      var f := Functor(|s.pushed|, stops);
      s.(pending := s.pending + [f], pushed := s.pushed + [f], producers := s.producers[p := Pushed])
    case Count(p) => s.(count := s.count + 1, producers := s.producers[p := Counted])
    case LoadFlag(p) =>
      if s.notified then s.(producers := s.producers - {p}) else s.(producers := s.producers[p := SawUnset])
    case StoreFlag(p) => s.(notified := true, producers := s.producers[p := MustSend])
    case Send(p) =>
      s.(bytes := if s.bytes < s.capacity then s.bytes + 1 else s.bytes, producers := s.producers - {p})
    case Recv => s.(bytes := if s.bytes < RECV_BUFFER then 0 else s.bytes - RECV_BUFFER, polled := true)
    case SwapIn => Swap(s.(polled := false))
    case Start =>
      var f := Top(s).todo[0];
      SetTop(s, Frame(Top(s).todo[1..], if f.stops then Stopping(f, Swap1) else Ordinary(f))).(started := s.started + [f])
    case StopStep => NextStop(s)
    case Finish => SetTop(s, Top(s).(running := Nothing)).(count := s.count - 1)
    case EndBatch => s.(stack := s.stack[..|s.stack| - 1])
    case Return => s.(stopped := true)
  }

  /** The order of the steps of `StopInLoop`, given whether the queue was seen empty. */
  function NextStage(stage: Stage, empty: bool): Stage
    requires !stage.Finished?
  {
    match stage
    case Swap1 => Check1
    case Check1 => if empty then ExitLoop else Swap1
    case ExitLoop => Swap2
    case Swap2 => Check2
    case Check2 => if empty then Finished else Swap2
  }

  /** One step of `StopInLoop`: a nested `DoPendingFunctors`, a look at the queue, or the exit request. */
  function NextStop(s: State): State
    requires Enabled(s, StopStep)
  {
    var stage, empty := Top(s).running.stage, s.pending == [];
    var s' := AtStage(s, NextStage(stage, empty));
    if stage.Swap1? || stage.Swap2? then Swap(s')
    else s'.(exiting := s.exiting || stage.ExitLoop?,
             drained := if stage.Check2? && empty then Some(|s.pushed|) else s.drained)
  }

  function AtStage(s: State, stage: Stage): State
    requires s.stack != [] && Top(s).running.Stopping?
  {
    SetTop(s, Top(s).(running := Top(s).running.(stage := stage)))
  }

  /** The state after a run, if each of its steps was possible. */
  function Exec(s: State, run: seq<Action>): Option<State> {
    if run == [] then Some(s)
    else
      var before := Exec(s, run[..|run| - 1]);
      if before.Some? && Enabled(before.value, run[|run| - 1]) then Some(Next(before.value, run[|run| - 1])) else None
  }

  /* What a run did, read off its actions alone. */

  /** The functors that the run's calls queue, in order. */
  function Pushes(run: seq<Action>): seq<Functor> {
    if run == [] then []
    else
      var a, before := run[|run| - 1], Pushes(run[..|run| - 1]);
      if a.Push? then before + [Functor(|before|, a.stops)] else before
  }

  function Number(run: seq<Action>, p: Action -> bool): nat {
    if run == [] then 0 else Number(run[..|run| - 1], p) + (if p(run[|run| - 1]) then 1 else 0)
  }

  const IsCount: Action -> bool := (a: Action) => a.Count?
  const IsFinish: Action -> bool := (a: Action) => a.Finish?
  const IsSend: Action -> bool := (a: Action) => a.Send?
  const IsRecv: Action -> bool := (a: Action) => a.Recv?

  /** Every call's functor is queued under the number of its push and with its stop mark; the counter is increments less
      functors called. */
  lemma {:induction false} PushedIs(capacity: nat, run: seq<Action>)
    requires Exec(Initial(capacity), run).Some?
    ensures var s := Exec(Initial(capacity), run).value;
            s.pushed == Pushes(run) && s.count == Number(run, IsCount) - Number(run, IsFinish)
  {
    if run != [] {
      PushedIs(capacity, run[..|run| - 1]);
      PushedStep(Exec(Initial(capacity), run[..|run| - 1]).value, run[|run| - 1]);
    }
  }

  /** What no step of `StopInLoop` touches. */
  lemma StopLeaves(s: State)
    requires Enabled(s, StopStep)
    ensures var s' := NextStop(s);
            s'.pushed == s.pushed && s'.count == s.count && s'.bytes == s.bytes && s'.capacity == s.capacity
  {
    hide NextStage, Top;
  }

  lemma PushedStep(s: State, a: Action)
    requires Enabled(s, a)
    ensures var s' := Next(s, a);
            && s'.pushed == s.pushed + (if a.Push? then [Functor(|s.pushed|, a.stops)] else [])
            && s'.count == s.count + (if a.Count? then 1 else 0) - (if a.Finish? then 1 else 0)
  {
    hide NextStop;
    if a.StopStep? {
      StopLeaves(s);
    }
  }

  /** The pipe holds no more than its capacity and what was sent; while it cannot have been full, only receiving takes
      bytes out of it, 128 at most each time. */
  lemma {:induction false} BytesAre(capacity: nat, run: seq<Action>)
    requires Exec(Initial(capacity), run).Some?
    ensures var s, sent := Exec(Initial(capacity), run).value, Number(run, IsSend);
            && s.capacity == capacity && s.bytes <= capacity && s.bytes <= sent
            && (sent <= capacity ==> sent <= s.bytes + RECV_BUFFER * Number(run, IsRecv))
  {
    if run != [] {
      BytesAre(capacity, run[..|run| - 1]);
      BytesStep(Exec(Initial(capacity), run[..|run| - 1]).value, run[|run| - 1]);
    }
  }

  lemma BytesStep(s: State, a: Action)
    requires Enabled(s, a)
    ensures var s' := Next(s, a);
            && s'.capacity == s.capacity
            && (a.Send? ==> s'.bytes == if s.bytes < s.capacity then s.bytes + 1 else s.bytes)
            && (a.Recv? ==> s'.bytes == if s.bytes < RECV_BUFFER then 0 else s.bytes - RECV_BUFFER)
            && (!a.Send? && !a.Recv? ==> s'.bytes == s.bytes)
  {
    hide NextStop;
    if a.StopStep? {
      StopLeaves(s);
    }
  }

  /* Wakeup. */

  predicate InFlight(s: State) {
    exists p :: p in s.producers
  }

  predicate Announcing(s: State, p: ProducerId) {
    p in s.producers && !s.producers[p].MustSend?
  }

  ghost predicate WakeInv(s: State) {
    && s.capacity >= 1
    && (s.notified ==> s.bytes > 0 || s.polled || exists p :: At(s, p, MustSend))
    && (s.pending != [] ==> s.notified || exists p :: Announcing(s, p))
  }

  predicate ClearsOrKeeps(s: State, s': State) {
    || (!s'.notified && s'.pending == [])
    || (s'.notified == s.notified && s'.pending == s.pending && (s.bytes > 0 || s.polled ==> s'.bytes > 0 || s'.polled))
  }

  /** The consumer either clears flag and queue together, or leaves both and keeps what wakes it. */
  lemma WakeByConsumer(s: State, s': State)
    requires WakeInv(s) && s'.producers == s.producers && s'.capacity == s.capacity
    requires ClearsOrKeeps(s, s')
    ensures WakeInv(s')
  {
    if s'.notified && s'.bytes == 0 && !s'.polled {
      var p :| At(s, p, MustSend);
      assert At(s', p, MustSend);
    }
    if s'.pending != [] && !s'.notified {
      var p :| Announcing(s, p);
      assert Announcing(s', p);
    }
  }

  lemma WakeByPushing(s: State, a: Action)
    requires WakeInv(s) && Enabled(s, a) && (a.Push? || a.Count? || a.StoreFlag?)
    ensures WakeInv(Next(s, a))
  {
    var s' := Next(s, a);
    if a.StoreFlag? {
      assert At(s', a.p, MustSend);
    } else {
      assert Announcing(s', a.p);
      if s.notified && s.bytes == 0 && !s.polled {
        var p :| At(s, p, MustSend);
        assert At(s', p, MustSend);
      }
    }
  }

  lemma WakeByLoading(s: State, p: ProducerId)
    requires WakeInv(s) && Enabled(s, LoadFlag(p))
    ensures WakeInv(Next(s, LoadFlag(p)))
  {
    var s' := Next(s, LoadFlag(p));
    if s.notified {
      if s.bytes == 0 && !s.polled {
        var q :| At(s, q, MustSend);
        assert At(s', q, MustSend);
      }
    } else {
      assert Announcing(s', p);
    }
  }

  lemma WakeBySending(s: State, p: ProducerId)
    requires WakeInv(s) && Enabled(s, Send(p))
    ensures WakeInv(Next(s, Send(p)))
  {
    var s' := Next(s, Send(p));
    assert s'.bytes > 0;
    if s.pending != [] && !s.notified {
      var q :| Announcing(s, q);
      assert Announcing(s', q);
    }
  }

  lemma WakeByStopping(s: State)
    requires WakeInv(s) && Enabled(s, StopStep)
    ensures WakeInv(NextStop(s))
  {
    WakeByConsumer(s, NextStop(s));
  }

  lemma WakeStep(s: State, a: Action)
    requires WakeInv(s) && Enabled(s, a)
    ensures WakeInv(Next(s, a))
  {
    match a {
      case Push(_, _) => WakeByPushing(s, a);
      case Count(_) => WakeByPushing(s, a);
      case StoreFlag(_) => WakeByPushing(s, a);
      case LoadFlag(p) => WakeByLoading(s, p);
      case Send(p) => WakeBySending(s, p);
      case Recv => WakeByConsumer(s, Next(s, a));
      case SwapIn => WakeByConsumer(s, Next(s, a));
      case StopStep => WakeByStopping(s);
      case _ => WakeByConsumer(s, Next(s, a));
    }
  }

  lemma {:induction false} WakeAlways(capacity: nat, run: seq<Action>)
    requires capacity >= 1 && Exec(Initial(capacity), run).Some?
    ensures WakeInv(Exec(Initial(capacity), run).value)
  {
    if run != [] {
      WakeAlways(capacity, run[..|run| - 1]);
      WakeStep(Exec(Initial(capacity), run[..|run| - 1]).value, run[|run| - 1]);
    }
  }

  /** No lost wakeup: in every run, queued work has a byte in the pipe, a consumer about to swap, or a producer still on its way. */
  lemma NoLostWakeup(capacity: nat, run: seq<Action>)
    requires capacity >= 1 && Exec(Initial(capacity), run).Some?
    ensures var s := Exec(Initial(capacity), run).value;
            s.pending != [] ==> s.bytes > 0 || s.polled || InFlight(s)
  {
    WakeAlways(capacity, run);
    var s := Exec(Initial(capacity), run).value;
    if s.pending != [] && s.bytes == 0 && !s.polled {
      if s.notified {
        var p :| At(s, p, MustSend);
      } else {
        var p :| Announcing(s, p);
      }
    }
  }

  /** With every thread out of `QueueInLoop` and the consumer asleep on an empty pipe, nothing is queued. */
  lemma QuietMeansDone(capacity: nat, run: seq<Action>)
    requires capacity >= 1 && Exec(Initial(capacity), run).Some?
    ensures var s := Exec(Initial(capacity), run).value;
            s.producers == map[] && !s.polled && s.bytes == 0 ==> s.pending == []
  {
    NoLostWakeup(capacity, run);
  }

  /* Conservation: every pushed functor is queued, in an unfinished batch, or started, and the counter follows. */

  function Todo(stack: seq<Frame>): seq<Functor> {
    if stack == [] then [] else Todo(stack[..|stack| - 1]) + stack[|stack| - 1].todo
  }

  function Unfinished(stack: seq<Frame>): nat {
    if stack == [] then 0
    else
      var f := stack[|stack| - 1];
      Unfinished(stack[..|stack| - 1]) + |f.todo| + (if f.running.Nothing? then 0 else 1)
  }

  /** The threads that have pushed but not yet incremented the counter. */
  function Uncounted(producers: map<ProducerId, Pc>): set<ProducerId> {
    set p | p in producers && producers[p].Pushed?
  }

  ghost predicate KeptIn(started: seq<Functor>, todo: seq<Functor>, pending: seq<Functor>, pushed: seq<Functor>) {
    && multiset(started) + multiset(todo) + multiset(pending) == multiset(pushed)
    && |pending| <= |pushed| && pending == pushed[|pushed| - |pending|..]
    && (forall i :: 0 <= i < |pushed| ==> pushed[i].id == i)
  }

  ghost predicate Kept(s: State) {
    KeptIn(s.started, Todo(s.stack), s.pending, s.pushed)
  }

  predicate CountInv(s: State) {
    s.count + |Uncounted(s.producers)| == |s.pending| + Unfinished(s.stack)
  }

  lemma StackTop(stack: seq<Frame>, f: Frame)
    ensures Todo(stack + [f]) == Todo(stack) + f.todo
    ensures Unfinished(stack + [f]) == Unfinished(stack) + |f.todo| + (if f.running.Nothing? then 0 else 1)
  {
    assert (stack + [f])[..|stack|] == stack;
  }

  lemma SetTopKeeps(s: State, f: Frame)
    requires s.stack != []
    ensures var rest := s.stack[..|s.stack| - 1];
            && Todo(SetTop(s, f).stack) == Todo(rest) + f.todo
            && Unfinished(SetTop(s, f).stack) == Unfinished(rest) + |f.todo| + (if f.running.Nothing? then 0 else 1)
            && Todo(s.stack) == Todo(rest) + Top(s).todo
            && Unfinished(s.stack) == Unfinished(rest) + |Top(s).todo| + (if Top(s).running.Nothing? then 0 else 1)
  {
    StackTop(s.stack[..|s.stack| - 1], f);
  }

  lemma KeptSwapped(started: seq<Functor>, todo: seq<Functor>, pending: seq<Functor>, pushed: seq<Functor>)
    requires KeptIn(started, todo, pending, pushed)
    ensures KeptIn(started, todo + pending, [], pushed)
  {}

  lemma KeptStarted(started: seq<Functor>, rest: seq<Functor>, todo: seq<Functor>, pending: seq<Functor>, pushed: seq<Functor>)
    requires todo != [] && KeptIn(started, rest + todo, pending, pushed)
    ensures KeptIn(started + [todo[0]], rest + todo[1..], pending, pushed)
  {
    assert todo == [todo[0]] + todo[1..];
  }

  lemma KeptPushed(started: seq<Functor>, todo: seq<Functor>, pending: seq<Functor>, pushed: seq<Functor>, f: Functor)
    requires KeptIn(started, todo, pending, pushed) && f.id == |pushed|
    ensures KeptIn(started, todo, pending + [f], pushed + [f])
  {}

  lemma SwapKeeps(s: State)
    requires Kept(s) && CountInv(s)
    ensures Kept(Swap(s)) && CountInv(Swap(s))
  {
    StackTop(s.stack, Frame(s.pending, Nothing));
    KeptSwapped(s.started, Todo(s.stack), s.pending, s.pushed);
  }

  /** What a step of `StopInLoop` does to the counted parts of the state. */
  lemma StopEffect(s: State)
    requires Enabled(s, StopStep)
    ensures var swaps := Top(s).running.stage.Swap1? || Top(s).running.stage.Swap2?;
            var s' := NextStop(s);
            && s'.started == s.started && s'.pushed == s.pushed && s'.count == s.count && s'.producers == s.producers
            && s'.pending == (if swaps then [] else s.pending)
            && Todo(s'.stack) == Todo(s.stack) + (if swaps then s.pending else [])
            && Unfinished(s'.stack) == Unfinished(s.stack) + (if swaps then |s.pending| else 0)
  {
    var stage := NextStage(Top(s).running.stage, s.pending == []);
    SetTopKeeps(s, Top(s).(running := Top(s).running.(stage := stage)));
    StackTop(AtStage(s, stage).stack, Frame(s.pending, Nothing));
  }

  lemma StopStepKeeps(s: State)
    requires Kept(s) && CountInv(s) && Enabled(s, StopStep)
    ensures Kept(NextStop(s)) && CountInv(NextStop(s))
  {
    StopEffect(s);
    KeptSwapped(s.started, Todo(s.stack), s.pending, s.pushed);
  }

  lemma StartKeeps(s: State)
    requires Kept(s) && CountInv(s) && Enabled(s, Start)
    ensures Kept(Next(s, Start)) && CountInv(Next(s, Start))
  {
    var f := Top(s).todo[0];
    SetTopKeeps(s, Frame(Top(s).todo[1..], if f.stops then Stopping(f, Swap1) else Ordinary(f)));
    KeptStarted(s.started, Todo(s.stack[..|s.stack| - 1]), Top(s).todo, s.pending, s.pushed);
  }

  lemma PushKeeps(s: State, p: ProducerId, stops: bool)
    requires Kept(s) && CountInv(s) && Enabled(s, Push(p, stops))
    ensures Kept(Next(s, Push(p, stops))) && CountInv(Next(s, Push(p, stops)))
  {
    KeptPushed(s.started, Todo(s.stack), s.pending, s.pushed, Functor(|s.pushed|, stops));
    assert Uncounted(s.producers[p := Pushed]) == Uncounted(s.producers) + {p};
  }

  lemma CountKeeps(s: State, p: ProducerId)
    requires Kept(s) && CountInv(s) && Enabled(s, Count(p))
    ensures Kept(Next(s, Count(p))) && CountInv(Next(s, Count(p)))
  {
    hide KeptIn, Todo, Unfinished;
    assert Uncounted(Next(s, Count(p)).producers) == Uncounted(s.producers) - {p};
  }

  /** A step that moves, counts and finishes nothing. */
  lemma OtherKeeps(s: State, a: Action)
    requires Kept(s) && CountInv(s) && Enabled(s, a)
    requires a.LoadFlag? || a.StoreFlag? || a.Send? || a.Recv? || a.Return?
    ensures Kept(Next(s, a)) && CountInv(Next(s, a))
  {
    hide KeptIn, Todo, Unfinished;
    assert Uncounted(Next(s, a).producers) == Uncounted(s.producers);
  }

  lemma FinishKeeps(s: State)
    requires Kept(s) && CountInv(s) && Enabled(s, Finish)
    ensures Kept(Next(s, Finish)) && CountInv(Next(s, Finish))
  {
    hide KeptIn, Todo, Unfinished, Uncounted;
    SetTopKeeps(s, Top(s).(running := Nothing));
  }

  lemma EndBatchKeeps(s: State)
    requires Kept(s) && CountInv(s) && Enabled(s, EndBatch)
    ensures Kept(Next(s, EndBatch)) && CountInv(Next(s, EndBatch))
  {
    hide KeptIn, Todo, Unfinished, Uncounted;
    var rest := s.stack[..|s.stack| - 1];
    StackTop(rest, Top(s));
    assert rest + [Top(s)] == s.stack && Todo(rest) + [] == Todo(rest);
  }

  lemma SwapInKeeps(s: State)
    requires Kept(s) && CountInv(s) && Enabled(s, SwapIn)
    ensures Kept(Next(s, SwapIn)) && CountInv(Next(s, SwapIn))
  {
    hide KeptIn, Todo, Unfinished;
    SwapKeeps(s.(polled := false));
  }

  lemma KeepsStep(s: State, a: Action)
    requires Kept(s) && CountInv(s) && Enabled(s, a)
    ensures Kept(Next(s, a)) && CountInv(Next(s, a))
  {
    hide Kept, CountInv;
    match a {
      case Push(p, stops) => PushKeeps(s, p, stops);
      case Count(p) => CountKeeps(s, p);
      case SwapIn => SwapInKeeps(s);
      case Start => StartKeeps(s);
      case StopStep => StopStepKeeps(s);
      case Finish => FinishKeeps(s);
      case EndBatch => EndBatchKeeps(s);
      case _ => OtherKeeps(s, a);
    }
  }

  /** Conservation over every run: nothing is lost or run twice, and the counter is off by exactly the pushes not yet counted. */
  lemma {:induction false} FunctorsConserved(capacity: nat, run: seq<Action>)
    requires Exec(Initial(capacity), run).Some?
    ensures Kept(Exec(Initial(capacity), run).value) && CountInv(Exec(Initial(capacity), run).value)
  {
    if run != [] {
      FunctorsConserved(capacity, run[..|run| - 1]);
      KeepsStep(Exec(Initial(capacity), run[..|run| - 1]).value, run[|run| - 1]);
    }
  }

  /** The counter reports the outstanding work exactly when no thread is between its push and its increment. */
  lemma CounterExactIff(capacity: nat, run: seq<Action>)
    requires Exec(Initial(capacity), run).Some?
    ensures var s := Exec(Initial(capacity), run).value;
            s.count == |s.pending| + Unfinished(s.stack) <==> forall p :: !At(s, p, Pushed)
  {
    FunctorsConserved(capacity, run);
    UncountedEmptyIff(Exec(Initial(capacity), run).value);
  }

  lemma UncountedEmptyIff(s: State)
    ensures |Uncounted(s.producers)| == 0 <==> forall p :: !At(s, p, Pushed)
  {
    var u := Uncounted(s.producers);
    assert forall p :: At(s, p, Pushed) <==> p in u;
    if |u| > 0 {
      var p :| p in u;
    }
  }

  lemma Extend(s: State, run: seq<Action>, a: Action)
    requires Exec(s, run).Some? && Enabled(Exec(s, run).value, a)
    ensures Exec(s, run + [a]) == Some(Next(Exec(s, run).value, a))
  {
    assert (run + [a])[..|run|] == run;
  }

  /** Until then it may even be negative: a functor is run before its producer counts it. */
  lemma CounterCanBeNegative(capacity: nat) returns (run: seq<Action>)
    requires capacity >= 1
    ensures Exec(Initial(capacity), run).Some? && Exec(Initial(capacity), run).value.count == -1
  {
    run := UncountedPush(capacity);
    run := Then(capacity, run, Recv);
    run := Then(capacity, run, SwapIn);
    run := RunOne(capacity, run);
    run := RunOne(capacity, run);
  }

  /** Thread 0 has queued a functor and woken the loop; thread 1 has pushed another and not counted it. */
  lemma UncountedPush(capacity: nat) returns (run: seq<Action>)
    requires capacity >= 1
    ensures Exec(Initial(capacity), run).Some?
    ensures var s := Exec(Initial(capacity), run).value;
            && s.pending == [Functor(0, false), Functor(1, false)] && s.count == 1 && s.bytes == 1
            && s.stack == [] && !s.polled && !s.stopped
  {
    run := WakingPush(capacity);
    run := Then(capacity, run, Push(1, false));
  }

  lemma WakingPush(capacity: nat) returns (run: seq<Action>)
    requires capacity >= 1
    ensures Exec(Initial(capacity), run).Some?
    ensures var s := Exec(Initial(capacity), run).value;
            && s.pending == s.pushed == [Functor(0, false)] && s.count == 1 && s.bytes == 1
            && 1 !in s.producers && s.stack == [] && !s.polled && !s.stopped
  {
    run := [];
    run := Then(capacity, run, Push(0, false));
    run := Then(capacity, run, Count(0));
    run := Then(capacity, run, LoadFlag(0));
    run := Then(capacity, run, StoreFlag(0));
    run := Then(capacity, run, Send(0));
  }

  lemma RunOne(capacity: nat, run: seq<Action>) returns (run': seq<Action>)
    requires Exec(Initial(capacity), run).Some?
    requires var s := Exec(Initial(capacity), run).value;
             |s.stack| == 1 && Top(s).running.Nothing? && Top(s).todo != [] && !Top(s).todo[0].stops
    ensures Exec(Initial(capacity), run').Some?
    ensures var s, s' := Exec(Initial(capacity), run).value, Exec(Initial(capacity), run').value;
            s'.stack == [Frame(Top(s).todo[1..], Nothing)] && s'.count == s.count - 1
  {
    hide Exec;
    var s := Exec(Initial(capacity), run).value;
    assert s.stack[..|s.stack| - 1] == [];
    run' := Then(capacity, run, Start);
    var s' := Exec(Initial(capacity), run').value;
    assert s'.stack == [Frame(Top(s).todo[1..], Ordinary(Top(s).todo[0]))];
    run' := Then(capacity, run', Finish);
  }

  lemma Then(capacity: nat, run: seq<Action>, a: Action) returns (run': seq<Action>)
    requires Exec(Initial(capacity), run).Some? && Enabled(Exec(Initial(capacity), run).value, a)
    ensures Exec(Initial(capacity), run') == Some(Next(Exec(Initial(capacity), run).value, a))
  {
    run' := run + [a];
    Extend(Initial(capacity), run, a);
  }

  /* Order: without `StopInLoop`, functors start in the order of their pushes. */

  predicate NoStops(fs: seq<Functor>) {
    forall i :: 0 <= i < |fs| ==> !fs[i].stops
  }

  ghost predicate OrderInv(s: State) {
    && (s.polled ==> s.stack == [])
    && (NoStops(s.pushed) ==>
          && |s.stack| <= 1 && (s.stack != [] ==> !Top(s).running.Stopping?)
          && s.started + Todo(s.stack) + s.pending == s.pushed)
  }

  lemma TodoOfOne(stack: seq<Frame>)
    requires |stack| == 1
    ensures Todo(stack) == stack[0].todo
  {
    assert stack[..0] == [];
  }

  lemma OrderSwap(s: State)
    requires OrderInv(s) && s.polled
    ensures OrderInv(Swap(s.(polled := false)))
  {
    TodoOfOne([Frame(s.pending, Nothing)]);
  }

  lemma OrderStart(s: State)
    requires OrderInv(s) && Enabled(s, Start)
    ensures OrderInv(Next(s, Start))
  {
    var s' := Next(s, Start);
    if NoStops(s.pushed) {
      var todo := Top(s).todo;
      TodoOfOne(s.stack);
      TodoOfOne(s'.stack);
      MoveFirst(s.started, todo, s.pending);
    }
  }

  lemma MoveFirst(a: seq<Functor>, t: seq<Functor>, b: seq<Functor>)
    requires t != []
    ensures a + t + b == a + [t[0]] + t[1..] + b && (a + t + b)[|a|] == t[0]
  {
    assert t == [t[0]] + t[1..];
  }

  lemma OrderPush(s: State, p: ProducerId, stops: bool)
    requires OrderInv(s) && Enabled(s, Push(p, stops))
    ensures OrderInv(Next(s, Push(p, stops)))
  {
    var s' := Next(s, Push(p, stops));
    if NoStops(s'.pushed) {
      assert forall i :: 0 <= i < |s.pushed| ==> s.pushed[i] == s'.pushed[i];
      assert s.started + Todo(s.stack) + (s.pending + [Functor(|s.pushed|, stops)]) == s'.pushed;
    }
  }

  lemma OrderStep(s: State, a: Action)
    requires OrderInv(s) && Enabled(s, a)
    ensures OrderInv(Next(s, a))
  {
    match a {
      case Push(p, stops) => OrderPush(s, p, stops);
      case SwapIn => OrderSwap(s);
      case Start => OrderStart(s);
      case StopStep => assert !NoStops(s.pushed); StoppingNotPolled(s);
      case Finish => SetTopKeeps(s, Top(s).(running := Nothing));
      case _ =>
    }
  }

  lemma StoppingNotPolled(s: State)
    requires OrderInv(s) && Enabled(s, StopStep)
    ensures !NextStop(s).polled && NextStop(s).pushed == s.pushed
  {}

  lemma {:induction false} PushOrder(capacity: nat, run: seq<Action>)
    requires Exec(Initial(capacity), run).Some?
    ensures OrderInv(Exec(Initial(capacity), run).value)
  {
    if run != [] {
      PushOrder(capacity, run[..|run| - 1]);
      OrderStep(Exec(Initial(capacity), run[..|run| - 1]).value, run[|run| - 1]);
    }
  }

  /* Shutdown: what `StopInLoop` guarantees once `Run` has returned. */

  predicate PastExit(f: Frame) {
    f.running.Stopping? && (f.running.stage.Swap2? || f.running.stage.Check2?)
  }

  ghost predicate DrainInv(s: State) {
    && |s.pending| <= |s.pushed|
    && (s.drained.Some? ==> s.drained.value <= |s.pushed| - |s.pending|)
    && (s.exiting && s.drained.None? ==> exists i :: 0 <= i < |s.stack| && PastExit(s.stack[i]))
    && (forall i :: 0 <= i < |s.stack| && PastExit(s.stack[i]) ==> s.exiting)
    && (s.stopped ==> s.exiting && !s.polled && s.stack == [])
  }

  lemma DrainStopStep(s: State)
    requires DrainInv(s) && Enabled(s, StopStep)
    ensures DrainInv(NextStop(s))
  {
    var s' := NextStop(s);
    var top := |s.stack| - 1;
    if s'.exiting && s'.drained.None? {
      if PastExit(s.stack[top]) || Top(s).running.stage.ExitLoop? {
        assert PastExit(s'.stack[top]);
      } else {
        var i :| 0 <= i < |s.stack| && PastExit(s.stack[i]);
        assert PastExit(s'.stack[i]);
      }
    }
  }

  lemma DrainByTop(s: State, a: Action)
    requires DrainInv(s) && Enabled(s, a) && (a.Start? || a.Finish? || a.EndBatch? || a.SwapIn? || a.Return?)
    ensures DrainInv(Next(s, a))
  {
    var s' := Next(s, a);
    if s'.exiting && s'.drained.None? {
      var i :| 0 <= i < |s.stack| && PastExit(s.stack[i]);
      assert PastExit(s'.stack[i]);
    }
  }

  lemma DrainStep(s: State, a: Action)
    requires DrainInv(s) && Enabled(s, a)
    ensures DrainInv(Next(s, a))
  {
    match a {
      case StopStep => DrainStopStep(s);
      case Start => DrainByTop(s, a);
      case Finish => DrainByTop(s, a);
      case EndBatch => DrainByTop(s, a);
      case SwapIn => DrainByTop(s, a);
      case Return => DrainByTop(s, a);
      case _ => assert Next(s, a).stack == s.stack;
    }
  }

  lemma {:induction false} DrainAlways(capacity: nat, run: seq<Action>)
    requires Exec(Initial(capacity), run).Some?
    ensures DrainInv(Exec(Initial(capacity), run).value)
  {
    if run != [] {
      DrainAlways(capacity, run[..|run| - 1]);
      DrainStep(Exec(Initial(capacity), run[..|run| - 1]).value, run[|run| - 1]);
    }
  }

  /** In the state after the first k steps the loop had been asked to exit, and n functors had been queued and taken. */
  ghost predicate EmptyAt(capacity: nat, run: seq<Action>, k: nat, n: nat) {
    && k <= |run| && Exec(Initial(capacity), run[..k]).Some?
    && var s := Exec(Initial(capacity), run[..k]).value; s.exiting && s.pending == [] && |s.pushed| == n
  }

  lemma DrainedStep(s: State, a: Action)
    requires DrainInv(s) && Enabled(s, a) && Next(s, a).drained != s.drained
    ensures var s' := Next(s, a); s'.drained == Some(|s'.pushed|) && s'.pending == [] && s'.exiting
  {}

  /** What `drained` records: how much had been queued when a second drain loop last saw the queue empty. */
  lemma {:induction false} DrainedAt(capacity: nat, run: seq<Action>) returns (k: nat)
    requires Exec(Initial(capacity), run).Some? && Exec(Initial(capacity), run).value.drained.Some?
    ensures EmptyAt(capacity, run, k, Exec(Initial(capacity), run).value.drained.value)
  {
    var before, a := run[..|run| - 1], run[|run| - 1];
    var s := Exec(Initial(capacity), before).value;
    assert run[..|run|] == run;
    if Next(s, a).drained == s.drained {
      k := DrainedAt(capacity, before);
      assert before[..k] == run[..k];
    } else {
      DrainAlways(capacity, before);
      DrainedStep(s, a);
      k := |run|;
    }
  }

  /** Once `Run` has returned, exactly the functors still queued have not run; and after the exit request there was a
      moment, k steps into the run, at which nothing was queued, so that all calls up to it have had their functor run. */
  lemma StoppedMeansDrained(capacity: nat, run: seq<Action>) returns (k: nat)
    requires Exec(Initial(capacity), run).Some? && Exec(Initial(capacity), run).value.stopped
    ensures var s, all := Exec(Initial(capacity), run).value, Pushes(run);
            && |s.pending| <= |all| && s.pending == all[|all| - |s.pending|..]
            && multiset(s.started) == multiset(all[..|all| - |s.pending|])
            && k <= |run| && EmptyAt(capacity, run, k, |Pushes(run[..k])|) && |Pushes(run[..k])| <= |all| - |s.pending|
  {
    hide Exec;
    DrainAlways(capacity, run);
    FunctorsConserved(capacity, run);
    PushedIs(capacity, run);
    var s := Exec(Initial(capacity), run).value;
    KeptAtRest(s.started, s.pending, s.pushed);
    k := DrainedAt(capacity, run);
    PushedIs(capacity, run[..k]);
  }

  lemma KeptAtRest(started: seq<Functor>, pending: seq<Functor>, pushed: seq<Functor>)
    requires KeptIn(started, [], pending, pushed)
    ensures multiset(started) == multiset(pushed[..|pushed| - |pending|])
  {
    var n := |pushed| - |pending|;
    assert pushed == pushed[..n] + pushed[n..];
    Cancel(multiset(started), multiset(pushed[..n]), multiset(pending));
  }

  lemma Cancel(a: multiset<Functor>, b: multiset<Functor>, c: multiset<Functor>)
    requires a + c == b + c
    ensures a == b
  {
    assert a + c - c == a && b + c - c == b;
  }

  lemma NothingRunsStep(s: State, a: Action)
    requires DrainInv(s) && s.stopped && Enabled(s, a)
    ensures Next(s, a).stopped && Next(s, a).started == s.started && s.pending <= Next(s, a).pending
  {}

  /** And what was queued by then never runs, however the run goes on. */
  lemma {:induction false} NothingRunsAfterReturn(capacity: nat, run: seq<Action>, more: seq<Action>)
    requires Exec(Initial(capacity), run).Some? && Exec(Initial(capacity), run).value.stopped
    requires Exec(Initial(capacity), run + more).Some?
    ensures var s, s' := Exec(Initial(capacity), run).value, Exec(Initial(capacity), run + more).value;
            s'.stopped && s'.started == s.started && s.pending <= s'.pending
  {
    if more == [] {
      assert run + more == run;
    } else {
      var last := more[..|more| - 1];
      assert (run + more)[..|run + more| - 1] == run + last;
      NothingRunsAfterReturn(capacity, run, last);
      DrainAlways(capacity, run + last);
      NothingRunsStep(Exec(Initial(capacity), run + last).value, more[|more| - 1]);
    }
  }

  /* Termination: with a stop queued and nothing pushed any more, `Run` returns. */

  /** The steps left in a `StopInLoop`, given whether the queue is empty. */
  function StageEffort(stage: Stage, empty: bool): nat {
    match stage
    case Swap1 => 8
    case Check1 => if empty then 6 else 9
    case ExitLoop => 5
    case Swap2 => 4
    case Check2 => if empty then 2 else 5
    case Finished => 1
  }

  function RunningEffort(r: Running, empty: bool): nat {
    match r
    case Nothing => 0
    case Ordinary(_) => 1
    case Stopping(_, stage) => StageEffort(stage, empty)
  }

  const FUNCTOR_EFFORT: nat := 9

  function FrameEffort(f: Frame, empty: bool): nat {
    1 + FUNCTOR_EFFORT * |f.todo| + RunningEffort(f.running, empty)
  }

  function StackEffort(stack: seq<Frame>, empty: bool): nat {
    if stack == [] then 0 else StackEffort(stack[..|stack| - 1], empty) + FrameEffort(stack[|stack| - 1], empty)
  }

  function Standing(producers: map<ProducerId, Pc>, pc: Pc): set<ProducerId> {
    set p | p in producers && producers[p] == pc
  }

  function PcEffort(pc: Pc): nat {
    match pc
    case Pushed => 7
    case Counted => 6
    case SawUnset => 5
    case MustSend => 4
  }

  function ProducersEffort(producers: map<ProducerId, Pc>): nat {
    7 * |Standing(producers, Pushed)| + 6 * |Standing(producers, Counted)|
    + 5 * |Standing(producers, SawUnset)| + 4 * |Standing(producers, MustSend)|
  }

  function Measure(s: State): nat {
    ProducersEffort(s.producers) + 3 * s.bytes + (if s.polled then 2 else 0)
    + FUNCTOR_EFFORT * |s.pending| + StackEffort(s.stack, s.pending == []) + (if s.stopped then 0 else 1)
  }

  lemma StackEffortTop(stack: seq<Frame>, f: Frame, empty: bool)
    ensures StackEffort(stack + [f], empty) == StackEffort(stack, empty) + FrameEffort(f, empty)
  {
    assert (stack + [f])[..|stack|] == stack;
  }

  /** An empty queue leaves no more to do than a full one. */
  lemma {:induction false} StackEffortEmpty(stack: seq<Frame>, empty: bool)
    ensures StackEffort(stack, true) <= StackEffort(stack, empty)
  {
    if stack != [] {
      StackEffortEmpty(stack[..|stack| - 1], empty);
    }
  }

  lemma StandingMoves(producers: map<ProducerId, Pc>, p: ProducerId, to: Pc, pc: Pc)
    requires p in producers && producers[p] != to
    ensures Standing(producers[p := to], pc)
            == if pc == to then Standing(producers, pc) + {p} else Standing(producers, pc) - {p}
    ensures Standing(producers - {p}, pc) == Standing(producers, pc) - {p}
    ensures p in Standing(producers, pc) <==> producers[p] == pc
  {}

  lemma StandingCounts(producers: map<ProducerId, Pc>, p: ProducerId, to: Pc, pc: Pc)
    requires p in producers && producers[p] != to
    ensures |Standing(producers - {p}, pc)| == |Standing(producers, pc)| - (if producers[p] == pc then 1 else 0)
    ensures |Standing(producers[p := to], pc)| == |Standing(producers - {p}, pc)| + (if pc == to then 1 else 0)
  {
    hide Standing;
    StandingMoves(producers, p, to, pc);
    StandingMoves(producers, p, to, to);
  }

  lemma EffortMoves(producers: map<ProducerId, Pc>, p: ProducerId, to: Pc)
    requires p in producers && producers[p] != to
    ensures ProducersEffort(producers[p := to]) == ProducersEffort(producers) - PcEffort(producers[p]) + PcEffort(to)
    ensures ProducersEffort(producers - {p}) == ProducersEffort(producers) - PcEffort(producers[p])
  {
    hide Standing;
    StandingCounts(producers, p, to, Pushed);
    StandingCounts(producers, p, to, Counted);
    StandingCounts(producers, p, to, SawUnset);
    StandingCounts(producers, p, to, MustSend);
  }

  lemma ProducerWorks(s: State, a: Action)
    requires Enabled(s, a) && (a.Count? || a.LoadFlag? || a.StoreFlag? || a.Send?)
    ensures Measure(Next(s, a)) < Measure(s)
  {
    hide ProducersEffort, StackEffort;
    EffortMoves(s.producers, a.p, if a.Count? then Counted else if a.LoadFlag? then SawUnset else if a.StoreFlag? then MustSend else Pushed);
  }

  /** Taking the queue over costs a frame, and empties the queue. */
  lemma SwapWorks(s: State, frames: nat)
    requires StackEffort(s.stack, true) + 1 < frames
    ensures StackEffort(Swap(s).stack, true) < frames + FUNCTOR_EFFORT * |s.pending|
  {
    StackEffortTop(s.stack, Frame(s.pending, Nothing), true);
  }

  lemma SwapInWorks(s: State)
    requires Enabled(s, SwapIn)
    ensures Measure(Next(s, SwapIn)) < Measure(s)
  {
    StackEffortEmpty(s.stack, s.pending == []);
    SwapWorks(s.(polled := false), StackEffort(s.stack, s.pending == []) + 2);
  }

  lemma NextStageWorks(s: State)
    requires Enabled(s, StopStep)
    ensures var empty, stage := s.pending == [], Top(s).running.stage;
            var swaps := stage.Swap1? || stage.Swap2?;
            StackEffort(AtStage(s, NextStage(stage, empty)).stack, swaps || empty) + (if swaps then 1 else 0)
            < StackEffort(s.stack, empty)
  {
    hide StackEffort;
    var empty, rest, top := s.pending == [], s.stack[..|s.stack| - 1], Top(s);
    var stage := top.running.stage;
    StackEffortEmpty(rest, empty);
    StackEffortTop(rest, top, empty);
    StackEffortTop(rest, top.(running := top.running.(stage := NextStage(stage, empty))), stage.Swap1? || stage.Swap2? || empty);
    assert rest + [top] == s.stack;
  }

  lemma StopWorks(s: State)
    requires Enabled(s, StopStep)
    ensures Measure(NextStop(s)) < Measure(s)
  {
    NextStageWorks(s);
    var stage := Top(s).running.stage;
    if stage.Swap1? || stage.Swap2? {
      SwapWorks(AtStage(s, NextStage(stage, s.pending == [])), StackEffort(s.stack, s.pending == []));
    }
  }

  /** A step that only gets on with the top frame. */
  lemma TopWorks(s: State, s': State, f: Frame)
    requires s.stack != [] && s'.stack == s.stack[..|s.stack| - 1] + [f]
    requires FrameEffort(f, s.pending == []) < FrameEffort(Top(s), s.pending == [])
    requires s'.pending == s.pending && s'.producers == s.producers && s'.bytes == s.bytes
    requires s'.polled == s.polled && s'.stopped == s.stopped
    ensures Measure(s') < Measure(s)
  {
    hide StackEffort, FrameEffort, ProducersEffort;
    var rest, empty := s.stack[..|s.stack| - 1], s.pending == [];
    StackEffortTop(rest, f, empty);
    StackEffortTop(rest, Top(s), empty);
    assert rest + [Top(s)] == s.stack;
  }

  lemma StartWorks(s: State)
    requires Enabled(s, Start)
    ensures Measure(Next(s, Start)) < Measure(s)
  {
    hide Measure;
    var f := Top(s).todo[0];
    TopWorks(s, Next(s, Start), Frame(Top(s).todo[1..], if f.stops then Stopping(f, Swap1) else Ordinary(f)));
  }

  lemma FinishWorks(s: State)
    requires Enabled(s, Finish)
    ensures Measure(Next(s, Finish)) < Measure(s)
  {
    hide Measure;
    TopWorks(s, Next(s, Finish), Top(s).(running := Nothing));
  }

  /** Every step but a push works something off. */
  lemma WorkStep(s: State, a: Action)
    requires Enabled(s, a) && !a.Push?
    ensures Measure(Next(s, a)) < Measure(s)
  {
    if a.Count? || a.LoadFlag? || a.StoreFlag? || a.Send? {
      ProducerWorks(s, a);
    } else {
      hide StackEffort;
      match a {
        case SwapIn => SwapInWorks(s);
        case Start => StartWorks(s);
        case StopStep => StopWorks(s);
        case Finish => FinishWorks(s);
        case EndBatch => EndBatchWorks(s);
        case _ =>
      }
    }
  }

  lemma EndBatchWorks(s: State)
    requires Enabled(s, EndBatch)
    ensures Measure(Next(s, EndBatch)) < Measure(s)
  {}

  predicate NoPush(run: seq<Action>) {
    forall i :: 0 <= i < |run| ==> !run[i].Push?
  }

  /** So without pushes a run is bounded. */
  lemma {:induction false} WorkBounded(s: State, more: seq<Action>)
    requires NoPush(more) && Exec(s, more).Some?
    ensures |more| + Measure(Exec(s, more).value) <= Measure(s)
  {
    if more != [] {
      hide Measure;
      var last := more[..|more| - 1];
      WorkBounded(s, last);
      WorkStep(Exec(s, last).value, more[|more| - 1]);
    }
  }

  predicate BeforeExit(f: Frame) {
    f.running.Stopping? && (f.running.stage.Swap1? || f.running.stage.Check1? || f.running.stage.ExitLoop?)
  }

  /** Once a stop has started, the loop has been asked to exit, or is about to be. */
  ghost predicate StopsInv(s: State) {
    NoStops(s.started) || s.exiting || exists i :: 0 <= i < |s.stack| && BeforeExit(s.stack[i])
  }

  lemma StopsByStop(s: State)
    requires StopsInv(s) && Enabled(s, StopStep)
    ensures StopsInv(NextStop(s))
  {
    var s' := NextStop(s);
    var top := |s.stack| - 1;
    if !NoStops(s.started) && !s'.exiting {
      var i :| 0 <= i < |s.stack| && BeforeExit(s.stack[i]);
      assert BeforeExit(s'.stack[i]);
    }
  }

  lemma StopsStep(s: State, a: Action)
    requires StopsInv(s) && Enabled(s, a)
    ensures StopsInv(Next(s, a))
  {
    var s' := Next(s, a);
    if a.StopStep? {
      StopsByStop(s);
    } else if a.Start? && Top(s).todo[0].stops {
      assert BeforeExit(s'.stack[|s.stack| - 1]);
    } else if !NoStops(s.started) && !s.exiting {
      var i :| 0 <= i < |s.stack| && BeforeExit(s.stack[i]);
      assert BeforeExit(s'.stack[i]);
    }
  }

  lemma {:induction false} StopsAlways(capacity: nat, run: seq<Action>)
    requires Exec(Initial(capacity), run).Some?
    ensures StopsInv(Exec(Initial(capacity), run).value)
  {
    if run != [] {
      StopsAlways(capacity, run[..|run| - 1]);
      StopsStep(Exec(Initial(capacity), run[..|run| - 1]).value, run[|run| - 1]);
    }
  }

  /** What the consumer does next inside a batch. */
  function BatchAction(s: State): (a: Action)
    requires s.stack != []
    ensures Enabled(s, a) && !a.Push?
  {
    match Top(s).running
    case Nothing => if Top(s).todo == [] then EndBatch else Start
    case Ordinary(_) => Finish
    case Stopping(_, stage) => if stage.Finished? then Finish else StopStep
  }

  function ProducerAction(s: State, p: ProducerId): (a: Action)
    requires p in s.producers
    ensures Enabled(s, a) && !a.Push?
  {
    match s.producers[p]
    case Pushed => Count(p)
    case Counted => LoadFlag(p)
    case SawUnset => StoreFlag(p)
    case MustSend => Send(p)
  }

  predicate CallsStop(a: Action) {
    a.Push? && a.stops
  }

  lemma {:induction false} StopIsPushed(run: seq<Action>)
    ensures NoStops(Pushes(run)) <==> forall i :: 0 <= i < |run| ==> !CallsStop(run[i])
  {
    if run != [] {
      var last, before := run[|run| - 1], Pushes(run[..|run| - 1]);
      StopIsPushed(run[..|run| - 1]);
      if last.Push? {
        NoStopsSnoc(before, Functor(|before|, last.stops));
      }
    }
  }

  lemma NoStopsSnoc(fs: seq<Functor>, f: Functor)
    ensures NoStops(fs + [f]) <==> NoStops(fs) && !f.stops
  {
    assert (fs + [f])[|fs|] == f;
    if NoStops(fs + [f]) {
      forall i | 0 <= i < |fs| ensures !fs[i].stops {
        assert (fs + [f])[i] == fs[i];
      }
    }
  }

  /** And after a call of `Stop` it does not end before `Run` has returned. */
  lemma StopProgress(capacity: nat, run: seq<Action>, i: nat) returns (a: Action)
    requires capacity >= 1 && Exec(Initial(capacity), run).Some? && !Exec(Initial(capacity), run).value.stopped
    requires i < |run| && CallsStop(run[i])
    ensures Enabled(Exec(Initial(capacity), run).value, a) && !a.Push?
  {
    PushedIs(capacity, run);
    StopIsPushed(run);
    a := QueuedStopProgress(capacity, run);
  }

  lemma QueuedStopProgress(capacity: nat, run: seq<Action>) returns (a: Action)
    requires capacity >= 1 && Exec(Initial(capacity), run).Some?
    requires var s := Exec(Initial(capacity), run).value; !NoStops(s.pushed) && !s.stopped
    ensures Enabled(Exec(Initial(capacity), run).value, a) && !a.Push?
  {
    var s := Exec(Initial(capacity), run).value;
    if s.stack != [] {
      a := BatchAction(s);
    } else if s.polled {
      a := SwapIn;
    } else if s.bytes > 0 {
      a := Recv;
    } else if p :| p in s.producers {
      a := ProducerAction(s, p);
    } else {
      QuietMeansDone(capacity, run);
      FunctorsConserved(capacity, run);
      StopsAlways(capacity, run);
      AllStarted(s.started, s.pushed);
      a := Return;
    }
  }

  lemma AllStarted(started: seq<Functor>, pushed: seq<Functor>)
    requires KeptIn(started, [], [], pushed) && !NoStops(pushed)
    ensures !NoStops(started)
  {
    var i :| 0 <= i < |pushed| && pushed[i].stops;
    assert multiset(started) == multiset(pushed);
    assert pushed[i] in multiset(pushed);
    assert pushed[i] in started;
  }

  /* And it returns for no other reason. */

  /** Only a started stop can have asked the loop to exit. */
  ghost predicate AskedInv(s: State) {
    && (s.exiting ==> !NoStops(s.started))
    && (s.stopped ==> s.exiting)
    && (forall i :: 0 <= i < |s.stack| && s.stack[i].running.Stopping? ==> !NoStops(s.started))
  }

  lemma AskedStart(s: State)
    requires AskedInv(s) && Enabled(s, Start)
    ensures AskedInv(Next(s, Start))
  {
    NoStopsSnoc(s.started, Top(s).todo[0]);
  }

  lemma AskedStop(s: State)
    requires AskedInv(s) && Enabled(s, StopStep)
    ensures AskedInv(NextStop(s))
  {
    hide NoStops;
    assert s.stack[|s.stack| - 1].running.Stopping?;
  }

  lemma AskedStep(s: State, a: Action)
    requires AskedInv(s) && Enabled(s, a)
    ensures AskedInv(Next(s, a))
  {
    hide NoStops, NextStop;
    if a.Start? {
      AskedStart(s);
    } else if a.StopStep? {
      AskedStop(s);
    }
  }

  lemma {:induction false} AskedAlways(capacity: nat, run: seq<Action>)
    requires Exec(Initial(capacity), run).Some?
    ensures AskedInv(Exec(Initial(capacity), run).value)
  {
    if run != [] {
      AskedAlways(capacity, run[..|run| - 1]);
      AskedStep(Exec(Initial(capacity), run[..|run| - 1]).value, run[|run| - 1]);
    }
  }

  /** The loop is asked to exit, and `Run` returns, only after a call of `Stop`. */
  lemma ReturnsOnlyWhenStopped(capacity: nat, run: seq<Action>) returns (i: nat)
    requires Exec(Initial(capacity), run).Some?
    requires Exec(Initial(capacity), run).value.exiting || Exec(Initial(capacity), run).value.stopped
    ensures i < |run| && CallsStop(run[i])
  {
    var s := Exec(Initial(capacity), run).value;
    AskedAlways(capacity, run);
    FunctorsConserved(capacity, run);
    PushedIs(capacity, run);
    StopIsPushed(run);
    StartedArePushed(s.started, Todo(s.stack), s.pending, s.pushed);
    i :| i < |run| && CallsStop(run[i]);
  }

  lemma StartedArePushed(started: seq<Functor>, todo: seq<Functor>, pending: seq<Functor>, pushed: seq<Functor>)
    requires KeptIn(started, todo, pending, pushed)
    ensures NoStops(pushed) ==> NoStops(started)
  {
    if NoStops(pushed) {
      forall i | 0 <= i < |started| ensures !started[i].stops {
        assert started[i] in multiset(started);
        assert started[i] in multiset(pushed);
        assert started[i] in pushed;
      }
    }
  }

  predicate AtExit(f: Frame) {
    f.running.Stopping? && f.running.stage.ExitLoop?
  }

  /** The loop has been asked to exit, or a stop is about to ask. */
  ghost predicate Asks(s: State) {
    s.exiting || exists i :: 0 <= i < |s.stack| && AtExit(s.stack[i])
  }

  lemma FirstAsk(s: State, a: Action)
    requires Enabled(s, a) && !Asks(s) && Asks(Next(s, a))
    ensures var s' := Next(s, a); s'.pending == [] && !s'.exiting && s'.stack != [] && AtExit(Top(s'))
  {
    if a.StopStep? {
      FirstAskStop(s);
    } else {
      FirstAskOther(s, a);
    }
  }

  lemma FirstAskStop(s: State)
    requires Enabled(s, StopStep) && !Asks(s)
    ensures Asks(NextStop(s)) ==> var s' := NextStop(s); s'.pending == [] && !s'.exiting && s'.stack != [] && AtExit(Top(s'))
  {
    var s', top := NextStop(s), |s.stack| - 1;
    assert !AtExit(s.stack[top]);
    if !(Top(s).running.stage.Check1? && s.pending == []) {
      forall i | 0 <= i < |s'.stack| ensures !AtExit(s'.stack[i]) {
        if i < top {
          assert s'.stack[i] == s.stack[i];
        }
      }
    }
  }

  lemma FirstAskOther(s: State, a: Action)
    requires Enabled(s, a) && !a.StopStep? && !Asks(s)
    ensures !Asks(Next(s, a))
  {
    var s' := Next(s, a);
    forall i | 0 <= i < |s'.stack| ensures !AtExit(s'.stack[i]) {
      if i < |s.stack| {
        assert !AtExit(s.stack[i]);
      }
    }
  }

  /** The first drain loop: when the loop is first asked to exit, nothing was queued a moment before. */
  lemma {:induction false} EmptyBeforeExit(capacity: nat, run: seq<Action>) returns (k: nat)
    requires Exec(Initial(capacity), run).Some? && Asks(Exec(Initial(capacity), run).value)
    ensures k <= |run| && Exec(Initial(capacity), run[..k]).Some?
    ensures var s := Exec(Initial(capacity), run[..k]).value; s.pending == [] && !s.exiting && s.stack != [] && AtExit(Top(s))
  {
    var before := run[..|run| - 1];
    assert run[..|run|] == run;
    if Asks(Exec(Initial(capacity), before).value) {
      k := EmptyBeforeExit(capacity, before);
      assert before[..k] == run[..k];
    } else {
      FirstAsk(Exec(Initial(capacity), before).value, run[|run| - 1]);
      k := |run|;
    }
  }

  /* Order inside a batch, stops or not: the oldest first. */

  predicate Increasing(fs: seq<Functor>) {
    forall i, j :: 0 <= i < j < |fs| ==> fs[i].id < fs[j].id
  }

  ghost predicate BatchesInv(s: State) {
    && (forall i :: 0 <= i < |s.pushed| ==> s.pushed[i].id == i)
    && |s.pending| <= |s.pushed| && s.pending == s.pushed[|s.pushed| - |s.pending|..]
    && (forall i :: 0 <= i < |s.stack| ==> Increasing(s.stack[i].todo))
  }

  lemma BatchesSwap(s: State)
    requires BatchesInv(s)
    ensures BatchesInv(Swap(s))
  {
    assert Increasing(s.pending);
  }

  lemma BatchesStop(s: State)
    requires BatchesInv(s) && Enabled(s, StopStep)
    ensures BatchesInv(NextStop(s))
  {
    hide Increasing;
    var s' := AtStage(s, NextStage(Top(s).running.stage, s.pending == []));
    assert BatchesInv(s');
    BatchesSwap(s');
  }

  lemma BatchesStart(s: State)
    requires BatchesInv(s) && Enabled(s, Start)
    ensures BatchesInv(Next(s, Start))
  {
    assert Increasing(Top(s).todo[1..]);
    hide Increasing;
  }

  lemma BatchesPush(s: State, p: ProducerId, stops: bool)
    requires BatchesInv(s) && Enabled(s, Push(p, stops))
    ensures BatchesInv(Next(s, Push(p, stops)))
  {
    hide Increasing;
  }

  lemma BatchesStep(s: State, a: Action)
    requires BatchesInv(s) && Enabled(s, a)
    ensures BatchesInv(Next(s, a))
  {
    hide NextStop, Swap, Increasing;
    if a.StopStep? {
      BatchesStop(s);
    } else if a.SwapIn? {
      BatchesSwap(s.(polled := false));
    } else if a.Start? {
      BatchesStart(s);
    } else if a.Push? {
      BatchesPush(s, a.p, a.stops);
    }
  }

  lemma {:induction false} BatchesAlways(capacity: nat, run: seq<Action>)
    requires Exec(Initial(capacity), run).Some?
    ensures BatchesInv(Exec(Initial(capacity), run).value)
  {
    if run != [] {
      BatchesAlways(capacity, run[..|run| - 1]);
      BatchesStep(Exec(Initial(capacity), run[..|run| - 1]).value, run[|run| - 1]);
    }
  }

  /** Whatever the nesting, the functor called next is the one of its batch that was queued first. */
  lemma OldestFirst(capacity: nat, run: seq<Action>) returns (f: Functor)
    requires Exec(Initial(capacity), run + [Start]).Some?
    ensures Exec(Initial(capacity), run).Some? && Exec(Initial(capacity), run).value.stack != []
    ensures var s, s' := Exec(Initial(capacity), run).value, Exec(Initial(capacity), run + [Start]).value;
            && s'.started == s.started + [f] && f in Top(s).todo
            && forall g :: g in Top(s).todo ==> f.id <= g.id
  {
    assert (run + [Start])[..|run|] == run;
    BatchesAlways(capacity, run);
    var s := Exec(Initial(capacity), run).value;
    f := Top(s).todo[0];
    assert Increasing(s.stack[|s.stack| - 1].todo);
  }
}
