/** Any interleaving of reads, inserts and rounds drives the wheel exactly as it drives the priority queue. */
module Refinement {
  import opened Bits
  import opened Geometry
  import opened Filters
  import opened Wheels
  import opened Location
  import opened Reference
  import opened Runs
  import opened Wrappers

  /** The wheel, with the expiry ticks that callers have computed but not yet inserted. */
  datatype Machine = Machine(w: Wheel, calls: nat, waiting: map<TaskId, uint32>)

  function Boot(): Machine {
    Machine(Empty(), 0, map[])
  }

  function Step(m: Machine, op: Op): Machine {
    match op
    case Read(ms) =>
      m.(calls := m.calls + 1, waiting := m.waiting[m.calls := (m.w.tick + ms / 10) % WORD])
    case Insert(task) =>
      if task !in m.waiting then m
      else m.(waiting := m.waiting - {task}, w := Emplace(m.w, Node(m.waiting[task], task)))
    case Turn => m.(w := Round(m.w))
  }

  function Run(ops: seq<Op>): Machine {
    if ops == [] then Boot() else Step(Run(ops[..|ops| - 1]), ops[|ops| - 1])
  }

  lemma RunSnoc(ops: seq<Op>, op: Op)
    ensures Run(ops + [op]) == Step(Run(ops), op)
  {
    assert (ops + [op])[..|ops|] == ops;
  }

  lemma RunTurn(ops: seq<Op>)
    ensures Run(ops + [Turn]).w == Round(Run(ops).w)
    ensures CountTurns(ops + [Turn]) == CountTurns(ops) + 1
  {
    RunSnoc(ops, Turn);
    assert (ops + [Turn])[..|ops|] == ops;
  }

  /** The same runs with a given level shift; none when the wheel gets stuck. */
  function StepWith(m: Machine, op: Op, step: LevelStep): Option<Machine> {
    if !op.Turn? then Some(Step(m, op))
    else
      match RoundWith(m.w, step)
      case None => None
      case Some(turned) => Some(m.(w := turned))
  }

  function RunWith(ops: seq<Op>, step: LevelStep): Option<Machine> {
    if ops == [] then Some(Boot())
    else
      var m :- RunWith(ops[..|ops| - 1], step);
      StepWith(m, ops[|ops| - 1], step)
  }

  lemma {:induction false} IntendedRun(ops: seq<Op>)
    ensures RunWith(ops, INTENDED_STEP) == Some(Run(ops))
  {
    if ops != [] {
      IntendedRun(ops[..|ops| - 1]);
      IntendedShift(Execute(Run(ops[..|ops| - 1]).w));
    }
  }

  ghost predicate WaitingAgrees(m: Machine, r: Ref) {
    && m.calls == r.calls && m.waiting.Keys == r.waiting.Keys
    && forall t :: t in m.waiting ==> m.waiting[t] == r.waiting[t] % WORD && r.waiting[t] < r.now + HALF_TURN
  }

  /** p is what is pending, in insertion order. */
  ghost predicate Agrees(m: Machine, r: Ref, p: seq<Entry>) {
    && Located(m.w, r.now, p) && Ahead(p, r.now)
    && r.queue == Sort(p)
    && m.w.log == Mapped(r.log, DispatchOf)
    && WaitingAgrees(m, r)
  }

  lemma MappedAppend(a: seq<Entry>, b: seq<Entry>)
    ensures Mapped(a + b, DispatchOf) == Mapped(a, DispatchOf) + Mapped(b, DispatchOf)
  {}

  /** Draining the near slot is popping what is due. */
  lemma FireAgrees(m: Machine, r: Ref, p: seq<Entry>)
    requires Agrees(m, r, p)
    ensures Agrees(m.(w := Execute(m.w)), Fire(r), NotDue(p, r.now))
    ensures Ahead(NotDue(p, r.now), r.now + 1)
  {
    var a, b := Due(p, r.now), Sort(NotDue(p, r.now));
    ExecuteLocated(m.w, r.now, p);
    NotDueAhead(p, r.now);
    SortSplits(p, r.now);
    DueCountIs(a, b, r.now);
    assert Fire(r).queue == b && Fire(r).log == r.log + a;
    MappedAppend(r.log, a);
  }

  /** An increment keeps the agreement once nothing is due at the old tick. */
  lemma ShiftAgrees(m: Machine, r: Ref, p: seq<Entry>)
    requires Agrees(m, r, p) && Ahead(p, r.now + 1)
    ensures Agrees(m.(w := Shift(m.w)), Later(r), p)
  {
    ShiftLocated(m.w, r.now + 1, p);
  }

  lemma FireLeavesLater(r: Ref, p: seq<Entry>)
    requires r.queue == Sort(p) && Ahead(p, r.now)
    ensures forall i :: 0 <= i < |Fire(r).queue| ==> Fire(r).queue[i].deadline > r.now
  {
    SortSplits(p, r.now);
    DueCountIs(Due(p, r.now), Sort(NotDue(p, r.now)), r.now);
  }

  lemma TurnAgrees(m: Machine, r: Ref, p: seq<Entry>) returns (p': seq<Entry>)
    requires Agrees(m, r, p)
    ensures Agrees(m.(w := Round(m.w)), RefTurn(r), p')
    ensures forall i :: 0 <= i < |RefTurn(r).queue| ==> RefTurn(r).queue[i].deadline > RefTurn(r).now
  {
    var p1 := NotDue(p, r.now);
    FireAgrees(m, r, p);
    ShiftAgrees(m.(w := Execute(m.w)), Fire(r), p1);
    var m2, r2 := m.(w := Shift(Execute(m.w))), Later(Fire(r));
    p' := NotDue(p1, r2.now);
    FireAgrees(m2, r2, p1);
    FireLeavesLater(r2, p1);
  }

  lemma InsertAgrees(m: Machine, r: Ref, p: seq<Entry>, task: TaskId) returns (p': seq<Entry>)
    requires Agrees(m, r, p) && (task in r.waiting ==> r.now <= r.waiting[task])
    ensures Agrees(Step(m, Insert(task)), RefStep(r, Insert(task)), p')
  {
    if task in m.waiting {
      var e := Entry(r.waiting[task], r.inserted, task);
      InsertLocated(m.w, r.now, p, e);
      SortAppend(p, e);
      p' := p + [e];
    } else {
      p' := p;
    }
  }

  lemma ReadAgrees(m: Machine, r: Ref, p: seq<Entry>, ms: uint32)
    requires Agrees(m, r, p)
    ensures Agrees(Step(m, Read(ms)), RefStep(r, Read(ms)), p)
  {
    AddWord(r.now, ms / 10);
  }

  lemma AddWord(t: nat, d: nat)
    ensures (t % WORD + d) % WORD == (t + d) % WORD
  {}

  /** On every run without late inserts the wheel and the priority queue agree, dispatch log included. */
  lemma {:induction false} TimelyRunAgrees(ops: seq<Op>) returns (p: seq<Entry>)
    requires Timely(ops)
    ensures Agrees(Run(ops), RefRun(ops), p)
  {
    if ops == [] {
      EmptyLocated();
      p := [];
    } else {
      var op, before := ops[|ops| - 1], ops[..|ops| - 1];
      p := TimelyRunAgrees(before);
      RefMatches(before);
      match op {
        case Read(ms) => ReadAgrees(Run(before), RefRun(before), p, ms);
        case Insert(task) => p := InsertAgrees(Run(before), RefRun(before), p, task);
        case Turn => p := TurnAgrees(Run(before), RefRun(before), p);
      }
    }
  }

  lemma TurnTick(w: Wheel, t: nat)
    requires w.tick == t % WORD
    ensures Round(w).tick == (t + 1) % WORD
  {
    NextWord(t + 1);
    var e := Advance(Execute(w));
    if e.tick % TIME_NEAR == 0 {
      var s := CascadeSlot(e.tick);
      EmplaceAllAt(e.(q := e.q[s := []]), e.q[s], s);
    }
  }

  /** The tick is the number of rounds made, mod 2^32. */
  lemma {:induction false} RunTick(ops: seq<Op>)
    ensures Run(ops).w.tick == CountTurns(ops) % WORD
  {
    if ops != [] {
      var before := ops[..|ops| - 1];
      RunTick(before);
      if ops[|ops| - 1].Turn? {
        TurnTick(Run(before).w, CountTurns(before));
      }
    }
  }
}
