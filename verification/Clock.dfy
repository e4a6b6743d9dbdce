/** The wheel against the system clock: catching up, and how early or late a task can be dispatched. */
module Clock {
  import opened Bits
  import opened Wheels
  import opened Timers
  import opened Wrappers
  import opened Reference
  import opened Runs
  import opened Refinement
  import opened Thinning
  import opened Punctuality

  /** A wheel and the clock tick it was last brought up to. */
  datatype Clocked = Clocked(w: Wheel, record: nat)

  /** `timer_update`; others[i] is what other threads insert before its round i. */
  function Update(c: Clocked, systemTick: nat, others: seq<seq<Node>>): Clocked
    requires |others| == Missed(c.record, systemTick)
  {
    Clocked(Rounds(c.w, others), systemTick)
  }

  ghost predicate NonDecreasing(from: nat, readings: seq<nat>) {
    && (readings != [] ==> from <= readings[0])
    && forall i, j :: 0 <= i < j < |readings| ==> readings[i] <= readings[j]
  }

  function Latest(from: nat, readings: seq<nat>): nat {
    if readings == [] then from else readings[|readings| - 1]
  }

  /** One update after the other, sharing out what other threads insert. */
  ghost function Updates(c: Clocked, readings: seq<nat>, others: seq<seq<Node>>): (u: Clocked)
    requires NonDecreasing(c.record, readings) && |others| == Latest(c.record, readings) - c.record
    ensures u.record == Latest(c.record, readings)
    decreases |readings|
  {
    if readings == [] then c
    else
      var before, last := readings[..|readings| - 1], readings[|readings| - 1];
      EarlierReadings(c.record, readings);
      var k := Latest(c.record, before) - c.record;
      Update(Updates(c, before, others[..k]), last, others[k..])
  }

  lemma EarlierReadings(from: nat, readings: seq<nat>)
    requires NonDecreasing(from, readings) && readings != []
    ensures var before := readings[..|readings| - 1];
            NonDecreasing(from, before) && from <= Latest(from, before) <= Latest(from, readings)
  {
    var before := readings[..|readings| - 1];
    if before != [] {
      assert readings[|readings| - 2] == before[|before| - 1];
      assert before[0] == readings[0];
    }
  }

  /** However the clock readings fall, and whatever is inserted meanwhile, catching up in many calls is catching up in one. */
  lemma {:induction false} CatchUpComposes(c: Clocked, readings: seq<nat>, others: seq<seq<Node>>)
    requires NonDecreasing(c.record, readings) && |others| == Latest(c.record, readings) - c.record
    ensures Updates(c, readings, others) == Update(c, Latest(c.record, readings), others)
    decreases |readings|
  {
    if readings != [] {
      var before := readings[..|readings| - 1];
      EarlierReadings(c.record, readings);
      var k := Latest(c.record, before) - c.record;
      CatchUpComposes(c, before, others[..k]);
      RoundsCompose(c.w, others[..k], others[k..]);
      assert others[..k] + others[k..] == others;
    }
  }

  lemma {:induction false} RoundsTick(w: Wheel, others: seq<seq<Node>>)
    ensures Rounds(w, others).tick == (w.tick + |others|) % WORD
  {
    if others != [] {
      var n := |others| - 1;
      RoundsTick(w, others[..n]);
      EmplaceAllAt(Rounds(w, others[..n]), others[n], 0);
      TurnTick(EmplaceAll(Rounds(w, others[..n]), others[n]), w.tick + n);
    }
  }

  /** The tick stays the clock distance travelled since boot, mod 2^32, exactly when the clock is not seen to
      go back by anything but whole turns. */
  lemma TickFollowsClock(c: Clocked, boot: nat, systemTick: nat, others: seq<seq<Node>>)
    requires c.w.tick == (c.record - boot) % WORD && |others| == Missed(c.record, systemTick)
    ensures Update(c, systemTick, others).w.tick == (systemTick - boot) % WORD
            <==> c.record <= systemTick || (c.record - systemTick) % WORD == 0
  {
    RoundsTick(c.w, others);
    if c.record <= systemTick {
      AddWordInt(c.record - boot, systemTick - c.record);
    } else {
      SameResidue(c.record - boot, systemTick - boot);
    }
  }

  lemma AddWordInt(x: int, d: nat)
    ensures (x % WORD + d) % WORD == (x + d) % WORD
  {}

  lemma SameResidue(x: int, y: int)
    ensures x % WORD == y % WORD <==> (x - y) % WORD == 0
  {}

  /* The timer driven by a steady clock, with calls at any moment. */

  /** The clock moves on; a call reads the tick, and inserts; the timer thread reads the clock, makes a round, and records. */
  datatype Event = ClockTo(time: nat) | Call(ms: uint32) | Put(task: TaskId) | Begin | Pass | End

  /** `clock` and `reading` are milliseconds: the clock, and what it showed when the last `timer_update` read it.
      While that update makes its rounds, `target` is the tick it heads for. `ops` is what the wheel has been through. */
  datatype Driver = Driver(clock: nat, reading: nat, record: nat, target: Option<nat>, done: nat, ops: seq<Op>)

  function Start(clock: nat): Driver {
    Driver(clock, clock, clock / UNIT_MILLISECOND, None, 0, [])
  }

  predicate Enabled(s: Driver, e: Event) {
    match e
    case ClockTo(time) => s.clock <= time
    case Call(_) => true
    case Put(_) => true
    case Begin => s.target.None?
    case Pass => s.target.Some? && s.record + s.done < s.target.value
    case End => s.target.Some? && s.record + s.done >= s.target.value
  }

  function Next(s: Driver, e: Event): Driver
    requires Enabled(s, e)
  {
    match e
    case ClockTo(time) => s.(clock := time)
    case Call(ms) => s.(ops := s.ops + [Read(ms)])
    case Put(task) => s.(ops := s.ops + [Insert(task)])
    case Begin => NextBegin(s.(reading := s.clock), s.clock / UNIT_MILLISECOND)
    case Pass => s.(done := s.done + 1, ops := s.ops + [Turn])
    case End => s.(record := s.target.value, target := None, done := 0)
  }

  function NextBegin(s: Driver, systemTick: nat): Driver {
    if s.record == systemTick then s
    else if s.record < systemTick then s.(target := Some(systemTick), done := 0)
    else s.(record := systemTick)
  }

  function Exec(s: Driver, run: seq<Event>): Option<Driver> {
    if run == [] then Some(s)
    else
      var before := Exec(s, run[..|run| - 1]);
      if before.Some? && Enabled(before.value, run[|run| - 1]) then Some(Next(before.value, run[|run| - 1])) else None
  }

  /** No call ever waits for the timer thread to finish an update, and the timer thread always has exactly one next step. */
  lemma NeverStuck(s: Driver, run: seq<Event>, ms: uint32, task: TaskId)
    requires Exec(s, run).Some?
    ensures Exec(s, run + [Call(ms)]).Some? && Exec(s, run + [Put(task)]).Some?
    ensures if Exec(s, run + [Begin]).Some? then Exec(s, run + [Pass]).None? && Exec(s, run + [End]).None?
            else Exec(s, run + [Pass]).Some? != Exec(s, run + [End]).Some?
  {
    assert (run + [Call(ms)])[..|run|] == run && (run + [Put(task)])[..|run|] == run;
    assert (run + [Begin])[..|run|] == run && (run + [Pass])[..|run|] == run && (run + [End])[..|run|] == run;
  }

  /* What a run did, read off its events alone. */

  /** What the clock shows at the end of a run. */
  function ClockOf(clock: nat, run: seq<Event>): nat {
    if run == [] then clock
    else if run[|run| - 1].ClockTo? then run[|run| - 1].time
    else ClockOf(clock, run[..|run| - 1])
  }

  /** What it showed when `timer_update` read it last. */
  function ReadingOf(clock: nat, run: seq<Event>): nat {
    if run == [] then clock
    else if run[|run| - 1].Begin? then ClockOf(clock, run[..|run| - 1])
    else ReadingOf(clock, run[..|run| - 1])
  }

  /** What the wheel goes through: reads, inserts and rounds, at whatever moment they come. */
  function OpsOf(run: seq<Event>): seq<Op> {
    if run == [] then []
    else
      var before := OpsOf(run[..|run| - 1]);
      match run[|run| - 1]
      case Call(ms) => before + [Read(ms)]
      case Put(task) => before + [Insert(task)]
      case Pass => before + [Turn]
      case _ => before
  }

  lemma {:induction false} ReadOff(clock: nat, run: seq<Event>)
    requires Exec(Start(clock), run).Some?
    ensures var s := Exec(Start(clock), run).value;
            s.ops == OpsOf(run) && s.clock == ClockOf(clock, run) && s.reading == ReadingOf(clock, run)
  {
    if run != [] {
      ReadOff(clock, run[..|run| - 1]);
    }
  }

  lemma {:induction false} OpsPrefix(run: seq<Event>, k: nat)
    requires k <= |run|
    ensures OpsOf(run[..k]) <= OpsOf(run)
    decreases |run|
  {
    if k == |run| {
      assert run[..k] == run;
    } else {
      OpsPrefix(run[..|run| - 1], k);
      assert run[..|run| - 1][..k] == run[..k];
    }
  }

  /** The event at position k of a run, at its place among what the wheel goes through. */
  lemma OpAt(run: seq<Event>, k: nat)
    requires k < |run| && (run[k].Call? || run[k].Put?)
    ensures var ops, j := OpsOf(run), |OpsOf(run[..k])|;
            && j < |ops| && ops[..j] == OpsOf(run[..k])
            && ops[j] == if run[k].Call? then Read(run[k].ms) else Insert(run[k].task)
  {
    OpsPrefix(run, k + 1);
    assert run[..k + 1][..k] == run[..k];
  }

  /** The wheel is ahead of the recorded tick by the rounds of the update under way, and never of the clock reading. */
  predicate Driven(s: Driver, boot: nat) {
    && s.reading <= s.clock
    && boot + CountTurns(s.ops) == s.record + s.done
    && (s.target.None? ==> s.done == 0 && s.record == s.reading / UNIT_MILLISECOND)
    && (s.target.Some? ==> s.record + s.done <= s.target.value == s.reading / UNIT_MILLISECOND)
  }

  lemma TurnsSnoc(ops: seq<Op>, op: Op)
    ensures CountTurns(ops + [op]) == CountTurns(ops) + (if op.Turn? then 1 else 0)
  {
    assert (ops + [op])[..|ops|] == ops;
  }

  lemma DrivenStep(s: Driver, boot: nat, e: Event)
    requires Driven(s, boot) && Enabled(s, e)
    ensures Driven(Next(s, e), boot)
  {
    match e {
      case Call(ms) => TurnsSnoc(s.ops, Read(ms));
      case Put(task) => TurnsSnoc(s.ops, Insert(task));
      case Pass => TurnsSnoc(s.ops, Turn);
      case _ =>
    }
  }

  lemma {:induction false} AlwaysDriven(clock: nat, run: seq<Event>)
    requires Exec(Start(clock), run).Some?
    ensures Driven(Exec(Start(clock), run).value, clock / UNIT_MILLISECOND)
  {
    if run != [] {
      AlwaysDriven(clock, run[..|run| - 1]);
      DrivenStep(Exec(Start(clock), run[..|run| - 1]).value, clock / UNIT_MILLISECOND, run[|run| - 1]);
    }
  }

  lemma {:induction false} DueTickOfRead(ops: seq<Op>, i: nat)
    requires i < |ops| && ops[i].Read?
    ensures CountReads(ops[..i]) < CountReads(ops)
    ensures DueTick(ops, CountReads(ops[..i])) == CountTurns(ops[..i]) + ops[i].ms / 10
    decreases |ops|
  {
    var before := ops[..|ops| - 1];
    if i < |before| {
      assert before[..i] == ops[..i];
      DueTickOfRead(before, i);
    } else {
      assert before == ops[..i];
    }
  }

  /** The task of the call at position i of a run. */
  function TaskAt(run: seq<Event>, i: nat): TaskId
    requires i < |run|
  {
    CountReads(OpsOf(run[..i]))
  }

  /** The rounds made in a run. */
  function RoundsIn(run: seq<Event>): nat {
    CountTurns(OpsOf(run))
  }

  /** How many ticks the wheel is behind the clock at the end of a run. */
  function Lag(clock: nat, run: seq<Event>): int {
    ClockOf(clock, run) / UNIT_MILLISECOND - (clock / UNIT_MILLISECOND + RoundsIn(run))
  }

  lemma CallAt(run: seq<Event>, i: nat)
    requires i < |run| && run[i].Call?
    ensures TaskAt(run, i) < CountReads(OpsOf(run))
    ensures DueTick(OpsOf(run), TaskAt(run, i)) == RoundsIn(run[..i]) + run[i].ms / 10
  {
    OpAt(run, i);
    DueTickOfRead(OpsOf(run), |OpsOf(run[..i])|);
  }

  lemma {:induction false} ExecPrefix(s: Driver, run: seq<Event>, i: nat)
    requires Exec(s, run).Some? && i <= |run|
    ensures Exec(s, run[..i]).Some?
    decreases |run|
  {
    if i == |run| {
      assert run[..i] == run;
    } else {
      ExecPrefix(s, run[..|run| - 1], i);
      assert run[..|run| - 1][..i] == run[..i];
    }
  }

  /** A task asked for ms milliseconds, when the clock showed c and the wheel was L ticks behind it, is dispatched by
      no update that read the clock before c + ms - 18 - 10 L. */
  lemma NeverTooEarly(clock: nat, run: seq<Event>, i: nat, j: nat)
    requires Exec(Start(clock), run).Some? && i < |run| && run[i].Call?
    requires j < |Run(OpsOf(run)).w.log| && Run(OpsOf(run)).w.log[j].task == TaskAt(run, i)
    ensures Lag(clock, run[..i]) >= 0
    ensures ReadingOf(clock, run) >= ClockOf(clock, run[..i]) + run[i].ms - 18 - 10 * Lag(clock, run[..i])
  {
    hide Run, Exec;
    ExecPrefix(Start(clock), run, i);
    AlwaysDriven(clock, run[..i]);
    ReadOff(clock, run[..i]);
    AlwaysDriven(clock, run);
    ReadOff(clock, run);
    CallAt(run, i);
    NeverBeforeItsTick(OpsOf(run), j);
  }

  /** An insert that comes no more rounds after its read than its delay. */
  lemma {:induction false} InsertedInTime(ops: seq<Op>, t: TaskId, k: nat)
    requires k < |ops| && ops[k] == Insert(t) && t < CountReads(ops[..k])
    requires CountTurns(ops[..k]) <= DueTick(ops[..k], t)
    ensures t < CountReads(ops) && t !in Waiting(ops) && InTime(ops, t)
    decreases |ops|
  {
    var before := ops[..|ops| - 1];
    if k == |ops| - 1 {
      if !InTime(before, t) {
        LateIsInserted(before, t);
      }
    } else {
      assert before[..k] == ops[..k];
      InsertedInTime(before, t, k);
    }
  }

  /** A call at position i whose insert follows at position k, with no more rounds between than its delay. */
  predicate PutInTime(run: seq<Event>, i: nat, k: nat) {
    && i < k < |run| && run[i].Call? && run[k] == Put(TaskAt(run, i))
    && RoundsIn(run[..k]) <= RoundsIn(run[..i]) + run[i].ms / UNIT_MILLISECOND
  }

  lemma PutIsInsert(run: seq<Event>, i: nat, k: nat)
    requires PutInTime(run, i, k)
    ensures var ops, t := OpsOf(run), TaskAt(run, i); t < CountReads(ops) && t !in Waiting(ops) && InTime(ops, t)
  {
    assert run[..k][..i] == run[..i];
    CallAt(run[..k], i);
    OpAt(run, k);
    InsertedInTime(OpsOf(run), TaskAt(run, i), |OpsOf(run[..k])|);
  }

  /** And once an update that read the clock at c + ms + 10 or later is finished, it has been dispatched, once, if its
      insert came with no more rounds after the read than its delay: before, between or after the rounds of any update. */
  lemma NeverTooLate(clock: nat, run: seq<Event>, i: nat, k: nat) returns (j: nat)
    requires Exec(Start(clock), run).Some? && PutInTime(run, i, k)
    requires Exec(Start(clock), run).value.target.None?
    requires ReadingOf(clock, run) >= ClockOf(clock, run[..i]) + run[i].ms + 10
    ensures var log := Run(OpsOf(run)).w.log;
            && j < |log| && log[j].task == TaskAt(run, i)
            && forall j' :: 0 <= j' < |log| && log[j'].task == TaskAt(run, i) ==> j' == j
  {
    hide Run, Exec;
    ExecPrefix(Start(clock), run, i);
    AlwaysDriven(clock, run[..i]);
    ReadOff(clock, run[..i]);
    AlwaysDriven(clock, run);
    ReadOff(clock, run);
    CallAt(run, i);
    PutIsInsert(run, i, k);
    j := DispatchedExactlyOnce(OpsOf(run), TaskAt(run, i));
  }

  lemma Then(s: Driver, run: seq<Event>, s': Driver, e: Event) returns (run': seq<Event>)
    requires Exec(s, run) == Some(s') && Enabled(s', e)
    ensures Exec(s, run') == Some(Next(s', e)) && run' == run + [e]
  {
    run' := run + [e];
    assert run'[..|run|] == run;
  }

  const EARLY_OPS: seq<Op> := [Read(19), Insert(0), Turn]

  lemma EarlyRun() returns (run: seq<Event>)
    ensures run == [Call(19), Put(0), ClockTo(20), Begin, Pass]
    ensures Exec(Start(19), run) == Some(Driver(20, 20, 1, Some(2), 1, EARLY_OPS))
  {
    var s := Start(19);
    var a, b: seq<Op> := [Read(19)], [Read(19), Insert(0)];
    assert Exec(s, []) == Some(s) && s.ops + [Read(19)] == a && a + [Insert(0)] == b && b + [Turn] == EARLY_OPS;
    hide Exec;
    run := Then(s, [], s, Call(19));
    run := Then(s, run, Driver(19, 19, 1, None, 0, a), Put(0));
    run := Then(s, run, Driver(19, 19, 1, None, 0, b), ClockTo(20));
    run := Then(s, run, Driver(20, 19, 1, None, 0, b), Begin);
    run := Then(s, run, Driver(20, 20, 1, Some(2), 0, b), Pass);
  }

  lemma EarlyLog() returns (j: nat)
    ensures j < |Run(EARLY_OPS).w.log| && Run(EARLY_OPS).w.log[j].task == 0
  {
    var a, b := [Read(19)], [Read(19), Insert(0)];
    assert a[..0] == [] && b[..1] == a && EARLY_OPS[..2] == b;
    assert CountReads(a) == 1 && CountTurns(a) == 0 && DueTick(a, 0) == 1 && Waiting(a) == {0} && InTime(a, 0);
    assert CountReads(b) == 1 && CountTurns(b) == 0 && DueTick(b, 0) == 1 && Waiting(b) == {} && InTime(b, 0);
    j := DispatchedExactlyOnce(EARLY_OPS, 0);
  }

  /** The first bound is reached: asked for 19 ms at 19 ms with no lag, dispatched by an update that read 20 ms. */
  lemma EighteenIsReached() returns (run: seq<Event>, j: nat)
    ensures Exec(Start(19), run).Some? && |run| > 0 && run[0] == Call(19)
    ensures ReadingOf(19, run) == 19 + 19 - 18 && Lag(19, []) == 0
    ensures j < |Run(OpsOf(run)).w.log| && Run(OpsOf(run)).w.log[j].task == CountReads([])
  {
    run := EarlyRun();
    ReadOff(19, run);
    j := EarlyLog();
  }

  /* An update left alone is `Update`. */

  function Quiet(n: nat): (others: seq<seq<Node>>)
    ensures |others| == n
  {
    if n == 0 then [] else Quiet(n - 1) + [[]]
  }

  function Passes(n: nat): seq<Event> {
    if n == 0 then [] else Passes(n - 1) + [Pass]
  }

  lemma QuietRound(w: Wheel, n: nat)
    requires n > 0
    ensures Rounds(w, Quiet(n)) == Round(Rounds(w, Quiet(n - 1)))
  {
    assert Quiet(n)[..n - 1] == Quiet(n - 1);
  }

  lemma TurnIsRound(ops: seq<Op>, n: nat)
    requires n > 0 && Run(ops + Turns(n - 1)).w == Rounds(Run(ops).w, Quiet(n - 1))
    ensures Run(ops + Turns(n)).w == Rounds(Run(ops).w, Quiet(n))
  {
    hide Run, Rounds, Round, Quiet;
    assert ops + Turns(n) == ops + Turns(n - 1) + [Turn];
    RunTurn(ops + Turns(n - 1));
    QuietRound(Run(ops).w, n);
  }

  lemma {:induction false} TurnsAreRounds(ops: seq<Op>, n: nat)
    ensures Run(ops + Turns(n)).w == Rounds(Run(ops).w, Quiet(n))
  {
    if n == 0 {
      assert ops + Turns(0) == ops;
    } else {
      TurnsAreRounds(ops, n - 1);
      TurnIsRound(ops, n);
    }
  }

  function Passed(s: Driver, n: nat): Driver {
    s.(done := s.done + n, ops := s.ops + Turns(n))
  }

  lemma PassedStep(s: Driver, n: nat)
    requires s.target.Some? && s.record + s.done + n < s.target.value
    ensures Enabled(Passed(s, n), Pass) && Next(Passed(s, n), Pass) == Passed(s, n + 1)
  {
    assert s.ops + Turns(n) + [Turn] == s.ops + Turns(n + 1);
  }

  lemma PassMade(s: Driver, run: seq<Event>, s': Driver, n: nat)
    requires s'.target.Some? && s'.record + s'.done + n < s'.target.value
    requires Exec(s, run + Passes(n)) == Some(Passed(s', n))
    ensures Exec(s, run + Passes(n + 1)) == Some(Passed(s', n + 1))
  {
    PassedStep(s', n);
    hide Exec, Next, Passed, Enabled;
    var run' := Then(s, run + Passes(n), Passed(s', n), Pass);
    assert run + Passes(n + 1) == run';
  }

  lemma {:induction false} PassesMade(s: Driver, run: seq<Event>, s': Driver, n: nat)
    requires Exec(s, run) == Some(s') && s'.target.Some? && s'.record + s'.done + n <= s'.target.value
    ensures Exec(s, run + Passes(n)) == Some(Passed(s', n))
  {
    if n == 0 {
      assert run + Passes(0) == run && s'.ops + Turns(0) == s'.ops;
    } else {
      PassesMade(s, run, s', n - 1);
      PassMade(s, run, s', n - 1);
    }
  }

  /** The timer thread left alone after a reading no earlier than the last: what `timer_update` does in one go. */
  lemma QuietUpdate(s: Driver)
    requires s.target.None? && s.done == 0 && s.record < s.clock / UNIT_MILLISECOND
    ensures var systemTick := s.clock / UNIT_MILLISECOND;
            var run := [Begin] + Passes(systemTick - s.record) + [End];
            && Exec(s, run).Some?
            && Exec(s, run).value.target.None?
            && Clocked(Run(Exec(s, run).value.ops).w, Exec(s, run).value.record)
               == Update(Clocked(Run(s.ops).w, s.record), systemTick, Quiet(systemTick - s.record))
  {
    var systemTick := s.clock / UNIT_MILLISECOND;
    var n := systemTick - s.record;
    var run := Then(s, [], s, Begin);
    PassesMade(s, run, Next(s, Begin), n);
    run := Then(s, run + Passes(n), Passed(Next(s, Begin), n), End);
    assert [] + [Begin] == [Begin];
    TurnsAreRounds(s.ops, n);
  }
}
