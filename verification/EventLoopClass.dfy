/** `EventLoop` as its own text has it, one call at a time, against the step machine. */
module EventLoopObject {
  import opened EventLoops
  import opened Wrappers

  /** The machine's steps for one `QueueInLoop` that nobody interrupts. */
  function QueueAlone(s: State, p: ProducerId, stops: bool): State
    requires p !in s.producers
  {
    var loaded := Next(Next(Next(s, Push(p, stops)), Count(p)), LoadFlag(p));
    if s.notified then loaded else Next(Next(loaded, StoreFlag(p)), Send(p))
  }

  /** It queues the functor, counts it, raises the flag and, if the flag was down, writes a byte; the caller is out again. */
  lemma QueueEffect(s: State, p: ProducerId, stops: bool)
    requires p !in s.producers
    ensures var f := Functor(|s.pushed|, stops);
            QueueAlone(s, p, stops)
            == s.(pending := s.pending + [f], pushed := s.pushed + [f], count := s.count + 1, notified := true,
                  bytes := if !s.notified && s.bytes < s.capacity then s.bytes + 1 else s.bytes)
  {
    assert s.producers[p := Pushed][p := Counted] - {p} == s.producers;
    assert s.producers[p := Pushed][p := Counted][p := SawUnset][p := MustSend] - {p} == s.producers;
  }

  /** The machine's steps for one readable pipe, when nobody interrupts. */
  function HandleAlone(s: State): State
    requires Enabled(s, Recv)
  {
    var s' := Next(Next(s, Recv), SwapIn);
    Next(RunBatch(s'), EndBatch)
  }

  /** The consumer in its one batch, with nothing queued meanwhile. */
  predicate InBatch(s: State) {
    |s.stack| == 1 && s.stack[0].running.Nothing? && s.pending == []
  }

  function RunBatch(s: State): (s': State)
    requires InBatch(s)
    ensures InBatch(s') && s'.stack == [Frame([], Nothing)]
    decreases |s.stack[0].todo|
  {
    if s.stack[0].todo == [] then s else RunBatch(RunFirst(s))
  }

  function RunFirst(s: State): (s': State)
    requires InBatch(s) && s.stack[0].todo != []
    ensures InBatch(s') && s'.stack[0].todo == s.stack[0].todo[1..]
  {
    hide Next, Enabled, RunStop;
    StartOnly(s);
    var started := Next(s, Start);
    if s.stack[0].todo[0].stops then
      RunStop(started)
    else
      FinishOnly(started);
      Next(started, Finish)
  }

  /** The consumer inside a `StopInLoop` that runs in its one batch. */
  predicate InStop(s: State, stage: Stage) {
    && |s.stack| == 1 && s.stack[0].running.Stopping? && s.stack[0].running.stage == stage
    && s.pending == []
  }

  function Staged(s: State, stage: Stage): State
    requires |s.stack| == 1 && s.stack[0].running.Stopping?
  {
    s.(stack := [Frame(s.stack[0].todo, Stopping(s.stack[0].running.f, stage))])
  }

  function Checking(s: State): State
    requires InStop(s, Swap1) || InStop(s, Swap2)
  {
    Staged(s, if InStop(s, Swap1) then Check1 else Check2)
  }

  lemma PassTakes(s: State)
    requires InStop(s, Swap1) || InStop(s, Swap2)
    ensures Next(s, StopStep) == Swap(Checking(s))
  {
    assert s.stack[..0] == [];
  }

  lemma PassEnds(s: State)
    requires |s.stack| == 1 && s.pending == []
    ensures Enabled(Swap(s), EndBatch) && Next(Swap(s), EndBatch) == s.(notified := false)
  {
    assert Swap(s).stack[..1] == s.stack;
  }

  /** One pass of a drain loop: an empty batch taken and ended. */
  function DrainPass(s: State): (s': State)
    requires InStop(s, Swap1) || InStop(s, Swap2)
    ensures s' == Checking(s).(notified := false)
  {
    hide Next, Swap, Enabled;
    PassTakes(s);
    PassEnds(Checking(s));
    Next(Next(s, StopStep), EndBatch)
  }

  lemma StageEffect(s: State)
    requires InStop(s, Check1) || InStop(s, ExitLoop) || InStop(s, Check2)
    ensures Enabled(s, StopStep)
    ensures Next(s, StopStep)
            == if InStop(s, Check1) then Staged(s, ExitLoop)
               else if InStop(s, ExitLoop) then Staged(s, Swap2).(exiting := true)
               else Staged(s, Finished).(drained := Some(|s.pushed|))
  {
    assert s.stack[..0] == [];
  }

  lemma StopFinished(s: State)
    requires InStop(s, Finished)
    ensures Enabled(s, Finish)
    ensures Next(s, Finish) == s.(stack := [Frame(s.stack[0].todo, Nothing)], count := s.count - 1)
  {
    assert s.stack[..0] == [];
  }

  function StageStep(s: State): (s': State)
    requires InStop(s, Check1) || InStop(s, ExitLoop) || InStop(s, Check2)
    ensures s' == if InStop(s, Check1) then Staged(s, ExitLoop)
                  else if InStop(s, ExitLoop) then Staged(s, Swap2).(exiting := true)
                  else Staged(s, Finished).(drained := Some(|s.pushed|))
  {
    StageEffect(s);
    Next(s, StopStep)
  }

  /** The first half of `StopInLoop` left alone: drain, check, ask to exit. */
  function AskToExit(s: State): (s': State)
    requires InStop(s, Swap1)
    ensures s' == Staged(s, Swap2).(notified := false, exiting := true)
  {
    hide DrainPass, StageStep;
    StageStep(StageStep(DrainPass(s)))
  }

  /** The second half: drain, check, return. */
  function DrainAgain(s: State): (s': State)
    requires InStop(s, Swap2)
    ensures s' == s.(stack := [Frame(s.stack[0].todo, Nothing)], count := s.count - 1, notified := false,
                     drained := Some(|s.pushed|))
  {
    hide Next, DrainPass, StageStep;
    var done := StageStep(DrainPass(s));
    StopFinished(done);
    Next(done, Finish)
  }

  function RunStop(s: State): (s': State)
    requires InStop(s, Swap1)
    ensures s' == s.(stack := [Frame(s.stack[0].todo, Nothing)], count := s.count - 1, notified := false,
                     exiting := true, drained := Some(|s.pushed|))
  {
    hide AskToExit, DrainAgain;
    DrainAgain(AskToExit(s))
  }

  lemma StartOnly(s: State)
    requires InBatch(s) && s.stack[0].todo != []
    ensures Enabled(s, Start)
    ensures var f := s.stack[0].todo[0];
            Next(s, Start) == s.(stack := [Frame(s.stack[0].todo[1..], if f.stops then Stopping(f, Swap1) else Ordinary(f))],
                                 started := s.started + [f])
  {
    assert s.stack[..0] == [];
  }

  lemma FinishOnly(s: State)
    requires |s.stack| == 1 && s.stack[0].running.Ordinary?
    ensures Enabled(s, Finish)
    ensures Next(s, Finish) == s.(stack := [Frame(s.stack[0].todo, Nothing)], count := s.count - 1)
  {
    assert s.stack[..0] == [];
  }

  /** The functor called, in a batch left alone. */
  lemma FirstEffect(s: State)
    requires InBatch(s) && s.stack[0].todo != [] && !s.notified
    ensures var f := s.stack[0].todo[0];
            RunFirst(s) == s.(stack := [Frame(s.stack[0].todo[1..], Nothing)], started := s.started + [f], count := s.count - 1,
                              exiting := s.exiting || f.stops, drained := if f.stops then Some(|s.pushed|) else s.drained)
  {
    hide Next, RunStop;
    StartOnly(s);
    if !s.stack[0].todo[0].stops {
      FinishOnly(Next(s, Start));
    }
  }

  /** A batch of which k functors have run. */
  function Midway(s: State, batch: seq<Functor>, k: nat): State
    requires k <= |batch|
  {
    s.(stack := [Frame(batch[k..], Nothing)], started := s.started + batch[..k], count := s.count - k,
       exiting := s.exiting || !NoStops(batch[..k]), drained := if NoStops(batch[..k]) then s.drained else Some(|s.pushed|))
  }

  lemma MidwayStep(s: State, batch: seq<Functor>, k: nat)
    requires k < |batch| && s.pending == [] && !s.notified
    ensures RunFirst(Midway(s, batch, k)) == Midway(s, batch, k + 1)
  {
    hide RunFirst, NoStops;
    FirstEffect(Midway(s, batch, k));
    assert batch[k..][1..] == batch[k + 1..] && batch[..k + 1] == batch[..k] + [batch[k]];
    NoStopsSnoc(batch[..k], batch[k]);
    assert s.started + batch[..k] + [batch[k]] == s.started + batch[..k + 1];
  }

  lemma {:induction false} BatchEffect(s: State, batch: seq<Functor>, k: nat)
    requires k <= |batch| && s.pending == [] && !s.notified
    ensures RunBatch(Midway(s, batch, k)) == Midway(s, batch, |batch|)
    decreases |batch| - k
  {
    hide RunFirst, NoStops;
    if k < |batch| {
      MidwayStep(s, batch, k);
      BatchEffect(s, batch, k + 1);
    }
  }

  /** Receiving, the whole queue in order, counted off; a stop among it has asked the loop to exit. */
  lemma HandleEffect(s: State)
    requires Enabled(s, Recv)
    ensures HandleAlone(s) == s.(bytes := if s.bytes < RECV_BUFFER then 0 else s.bytes - RECV_BUFFER, notified := false,
                                 pending := [], started := s.started + s.pending, count := s.count - |s.pending|,
                                 exiting := s.exiting || !NoStops(s.pending),
                                 drained := if NoStops(s.pending) then s.drained else Some(|s.pushed|))
  {
    hide RunBatch, Next, NoStops;
    SwappedIn(s);
    BatchEffect(Taken(s), s.pending, 0);
    EndOnly(Midway(Taken(s), s.pending, |s.pending|));
    assert s.pending[..|s.pending|] == s.pending;
  }

  lemma EndOnly(s: State)
    requires s.stack == [Frame([], Nothing)]
    ensures Next(s, EndBatch) == s.(stack := [])
  {
    assert s.stack[..0] == [];
  }

  function Taken(s: State): State {
    s.(bytes := if s.bytes < RECV_BUFFER then 0 else s.bytes - RECV_BUFFER, notified := false, pending := [])
  }

  lemma SwappedIn(s: State)
    requires Enabled(s, Recv)
    ensures Next(Next(s, Recv), SwapIn) == Midway(Taken(s), s.pending, 0)
  {
    assert s.pending[0..] == s.pending && s.started + s.pending[..0] == s.started;
  }

  class EventLoop {
    var pending: seq<Functor>
    var count: int
    var notified: bool
    var bytes: nat
    const capacity: nat
    var exiting: bool
    /** Every functor queued, and every functor called, in order; and how many had been queued when a stop last left. */
    var pushed: seq<Functor>
    var started: seq<Functor>
    var drained: Option<nat>
    /** How many functors had been called when the loop was last asked to exit. */
    var asked: nat

    /** This loop as a machine state with nobody inside any of its methods. */
    function View(): State
      reads this
    {
      Initial(capacity).(pending := pending, count := count, notified := notified, bytes := bytes,
                         exiting := exiting, pushed := pushed, started := started, drained := drained)
    }

    constructor (capacity: nat)
      ensures View() == Initial(capacity)
    {
      pending, count, notified, bytes := [], 0, false, 0;
      exiting, pushed, started, drained, asked := false, [], [], None, 0;
      this.capacity := capacity;
    }

    method Notify()
      modifies this`bytes
      ensures bytes == if old(bytes) < capacity then old(bytes) + 1 else old(bytes)
    {
      if bytes < capacity {
        bytes := bytes + 1;
      }
    }

    /** Queues the functor, counts it, and wakes the loop unless that is under way: without interference, exactly the
        producer's steps. */
    method QueueInLoop(p: ProducerId, stops: bool)
      modifies this`pending, this`pushed, this`count, this`notified, this`bytes
      ensures pending == old(pending) + [Functor(|old(pushed)|, stops)] && pushed == old(pushed) + [Functor(|old(pushed)|, stops)]
      ensures count == old(count) + 1 && notified
      ensures bytes == if !old(notified) && old(bytes) < capacity then old(bytes) + 1 else old(bytes)
      ensures View() == QueueAlone(old(View()), p, stops)
    {
      QueueEffect(View(), p, stops);
      var f := Functor(|pushed|, stops);
      pending := pending + [f];
      pushed := pushed + [f];
      count := count + 1;
      if !notified {
        notified := true;
        Notify();
      }
    }

    /** Other threads' calls, one after the other. */
    method QueueAll(marks: seq<bool>)
      modifies this`pending, this`pushed, this`count, this`notified, this`bytes
      ensures pending == old(pending) + Marked(|old(pushed)|, marks) && pushed == old(pushed) + Marked(|old(pushed)|, marks)
      ensures count == old(count) + |marks|
      ensures marks == [] ==> notified == old(notified) && bytes == old(bytes)
    {
      var i := 0;
      while i < |marks|
        invariant 0 <= i <= |marks|
        invariant pending == old(pending) + Marked(|old(pushed)|, marks[..i])
        invariant pushed == old(pushed) + Marked(|old(pushed)|, marks[..i])
        invariant count == old(count) + i
        invariant i == 0 ==> notified == old(notified) && bytes == old(bytes)
      {
        assert Marked(|old(pushed)|, marks[..i + 1]) == Marked(|old(pushed)|, marks[..i]) + [Functor(|pushed|, marks[i])];
        QueueInLoop(0, marks[i]);
        i := i + 1;
      }
      assert marks[..i] == marks;
    }

    /** The handler: receive, and if anything was received run what is pending. */
    method HandlerFn()
      modifies this
      ensures old(bytes) == 0 ==> View() == old(View())
      ensures old(bytes) > 0 ==> RanAll(old(pending), old(started), old(count), old(exiting))
      ensures old(bytes) > 0 ==> View() == HandleAlone(old(View()))
      ensures bytes == if old(bytes) < RECV_BUFFER then 0 else old(bytes) - RECV_BUFFER
    {
      ghost var s := View();
      var n := if bytes < RECV_BUFFER then bytes else RECV_BUFFER;
      bytes := bytes - n;
      if n > 0 {
        HandleEffect(s);
        DoPendingFunctors();
      }
    }

    /** Everything queued has run, in order; the flag is down; a stop among it has asked the loop to exit. */
    ghost predicate RanAll(batch: seq<Functor>, started': seq<Functor>, count': int, exiting': bool)
      reads this
    {
      && pending == [] && !notified
      && started == started' + batch && count == count' - |batch|
      && exiting == (exiting' || !NoStops(batch))
    }

    method DoPendingFunctors()
      modifies this
      ensures RanAll(old(pending), old(started), old(count), old(exiting))
      ensures pushed == old(pushed) && bytes == old(bytes)
      ensures drained == if NoStops(old(pending)) then old(drained) else Some(|pushed|)
      ensures NoStops(old(pending)) ==> asked == old(asked)
      decreases |pending|, 0
    {
      var functors := pending;
      notified := false;
      pending := [];
      var i := 0;
      while i < |functors|
        invariant 0 <= i <= |functors| && functors == old(pending)
        invariant RanAll(functors[..i], old(started), old(count), old(exiting))
        invariant pushed == old(pushed) && bytes == old(bytes)
        invariant drained == if NoStops(functors[..i]) then old(drained) else Some(|pushed|)
        invariant NoStops(functors[..i]) ==> asked == old(asked)
      {
        started := started + [functors[i]];
        if functors[i].stops {
          StopInLoop([], [], []);
        }
        count := count - 1;
        assert functors[..i + 1] == functors[..i] + [functors[i]];
        NoStopsSnoc(functors[..i], functors[i]);
        i := i + 1;
      }
      assert functors[..i] == functors;
    }

    /** Runs what is queued, asks the loop to exit, and runs what is queued by then. Other threads queue `late` right after the
        exit request, and more after the passes of either loop. */
    method StopInLoop(before: seq<seq<bool>>, late: seq<bool>, after: seq<seq<bool>>)
      modifies this
      ensures var first := Marked(|old(pushed)|, Until(before));
              var second := Marked(|old(pushed)| + |first|, late + Until(after));
              && pushed == old(pushed) + first + second
              && RanAll(old(pending) + first + second, old(started), old(count) + |first| + |second|, true)
              && (NoStops(second) ==> asked == |old(started)| + |old(pending)| + |first|)
      ensures drained == Some(|pushed|)
      ensures Until(before) + late + Until(after) == [] ==> bytes == old(bytes)
      decreases |pending| + |Until(before)| + |late| + |Until(after)|, 3
    {
      hide NoStops, Marked, Until;
      ghost var first := Marked(|pushed|, Until(before));
      DrainLoop(before);
      ghost var n := |pushed|;
      asked := |started|;
      exiting := true;
      QueueAll(late);
      MarkedConcat(n, late, Until(after));
      ghost var second := Marked(n, late + Until(after));
      assert pending + Marked(|pushed|, Until(after)) == second;
      NoStopsConcat(old(pending) + first, second);
      DrainLoop(after);
      assert old(started) + (old(pending) + first) + second == old(started) + (old(pending) + first + second);
      drained := Some(|pushed|);
    }

    /** One pass of that loop, with what other threads queue before its look at the queue. */
    method DrainPass(arrival: seq<bool>)
      modifies this
      ensures pending == Marked(|old(pushed)|, arrival) && pushed == old(pushed) + pending
      ensures started == old(started) + old(pending) && count == old(count) + |arrival| - |old(pending)|
      ensures exiting == (old(exiting) || !NoStops(old(pending)))
      ensures NoStops(old(pending)) ==> asked == old(asked)
      ensures arrival == [] ==> !notified && bytes == old(bytes)
      decreases |pending|, 1
    {
      DoPendingFunctors();
      QueueAll(arrival);
    }

    /** The loop that `StopInLoop` runs before and after it asks to exit: run what is queued until the queue is seen empty.
        After pass k, before that look, other threads queue arrivals[k]. */
    method DrainLoop(arrivals: seq<seq<bool>>)
      modifies this
      ensures var more := Marked(|old(pushed)|, Until(arrivals));
              && pushed == old(pushed) + more
              && RanAll(old(pending) + more, old(started), old(count) + |more|, old(exiting))
              && (NoStops(old(pending) + more) ==> asked == old(asked))
      ensures Until(arrivals) == [] ==> bytes == old(bytes)
      decreases |pending| + |Until(arrivals)|, 2
    {
      assert NoStops([]);
      hide NoStops, Marked, Until;
      var left, empty := arrivals, false;
      ghost var taken: seq<bool>, done: seq<Functor> := [], [];
      while !empty
        invariant if empty then taken == Until(arrivals) else taken + Until(left) == Until(arrivals)
        invariant done + pending == old(pending) + Marked(|old(pushed)|, taken)
        invariant pushed == old(pushed) + Marked(|old(pushed)|, taken)
        invariant started == old(started) + done && count == old(count) + |taken| - |done|
        invariant exiting == (old(exiting) || !NoStops(done))
        invariant NoStops(done) ==> asked == old(asked)
        invariant empty ==> pending == [] && !notified
        invariant taken == [] ==> bytes == old(bytes)
        decreases |left| + (if empty then 0 else 1)
      {
        NoStopsConcat(done, pending);
        done := done + pending;
        var arrival := if left == [] then [] else left[0];
        MarkedConcat(|old(pushed)|, taken, arrival);
        DrainPass(arrival);
        UntilNext(taken, left);
        taken := taken + arrival;
        left := if left == [] then [] else left[1..];
        empty := pending == [];
      }
      assert done + [] == done;
    }
  }

  lemma UntilNext(taken: seq<bool>, left: seq<seq<bool>>)
    ensures var arrival := if left == [] then [] else left[0];
            taken + Until(left) == if arrival == [] then taken else taken + arrival + Until(left[1..])
  {
    if left != [] && left[0] != [] {
      assert taken + (left[0] + Until(left[1..])) == taken + left[0] + Until(left[1..]);
    }
  }

  /** Calls with these stop marks, numbered from n. */
  function Marked(n: nat, marks: seq<bool>): (fs: seq<Functor>)
    ensures |fs| == |marks|
  {
    seq(|marks|, i requires 0 <= i < |marks| => Functor(n + i, marks[i]))
  }

  lemma MarkedConcat(n: nat, a: seq<bool>, b: seq<bool>)
    ensures Marked(n, a + b) == Marked(n, a) + Marked(n + |a|, b)
  {}

  /** What arrives until a look at the queue finds it empty. */
  function Until(arrivals: seq<seq<bool>>): seq<bool> {
    if arrivals == [] || arrivals[0] == [] then [] else arrivals[0] + Until(arrivals[1..])
  }

  lemma NoStopsConcat(a: seq<Functor>, b: seq<Functor>)
    ensures NoStops(a + b) <==> NoStops(a) && NoStops(b)
  {
    if NoStops(a + b) {
      forall i | 0 <= i < |a| ensures !a[i].stops {
        assert (a + b)[i] == a[i];
      }
      forall i | 0 <= i < |b| ensures !b[i].stops {
        assert (a + b)[|a| + i] == b[i];
      }
    }
  }
}
