/** A run as some of its tasks see it: the other tasks taken out of queues and log, the other calls' inserts left out. */
module Thinning {
  import opened Bits
  import opened Geometry
  import opened Filters
  import opened Wheels
  import opened Location
  import opened Reference
  import opened Runs
  import opened Refinement

  type Tasks = TaskId -> bool

  function NodeIn(keep: Tasks): Node -> bool {
    (n: Node) => keep(n.task)
  }

  function DispatchIn(keep: Tasks): Dispatch -> bool {
    (d: Dispatch) => keep(d.task)
  }

  function OpIn(keep: Tasks): Op -> bool {
    (op: Op) => op.Insert? ==> keep(op.task)
  }

  function ThinQueue(keep: Tasks): seq<Node> -> seq<Node> {
    (ns: seq<Node>) => Picked(ns, NodeIn(keep))
  }

  function Thin(w: Wheel, keep: Tasks): Wheel {
    WheelState(w.tick, Mapped(w.q, ThinQueue(keep)), Picked(w.log, DispatchIn(keep)))
  }

  function Only(ops: seq<Op>, keep: Tasks): seq<Op> {
    Picked(ops, OpIn(keep))
  }

  /* The wheel does the same to a task whatever else it holds. */

  lemma ThinPush(w: Wheel, s: Slot, n: Node, keep: Tasks)
    ensures Thin(Push(w, s, n), keep) == if keep(n.task) then Push(Thin(w, keep), s, n) else Thin(w, keep)
  {
    PickedAppend(w.q[s], n, NodeIn(keep));
    var q, thin := Thin(Push(w, s, n), keep).q, Thin(w, keep).q;
    assert q[s] == if keep(n.task) then thin[s] + [n] else thin[s];
    if keep(n.task) {
      assert q == Push(Thin(w, keep), s, n).q;
    } else {
      assert q == thin;
    }
  }

  lemma {:induction false} ThinEmplaceAll(w: Wheel, ns: seq<Node>, keep: Tasks)
    ensures Thin(EmplaceAll(w, ns), keep) == EmplaceAll(Thin(w, keep), Picked(ns, NodeIn(keep)))
  {
    if ns != [] {
      var before, n := ns[..|ns| - 1], ns[|ns| - 1];
      var kept := Picked(before, NodeIn(keep));
      ThinEmplaceAll(w, before, keep);
      assert EmplaceAll(w, ns) == Emplace(EmplaceAll(w, before), n);
      ThinEmplace(EmplaceAll(w, before), n, keep);
      if keep(n.task) {
        assert Picked(ns, NodeIn(keep)) == kept + [n];
        EmplaceAllSnoc(Thin(w, keep), kept, n);
      } else {
        assert Picked(ns, NodeIn(keep)) == kept;
      }
    }
  }

  lemma ThinEmplace(w: Wheel, n: Node, keep: Tasks)
    ensures Thin(Emplace(w, n), keep) == if keep(n.task) then Emplace(Thin(w, keep), n) else Thin(w, keep)
  {
    ThinPush(w, SlotOf(n.expire, w.tick), n, keep);
  }

  lemma EmplaceAllSnoc(w: Wheel, ns: seq<Node>, n: Node)
    ensures EmplaceAll(w, ns + [n]) == Emplace(EmplaceAll(w, ns), n)
  {
    assert (ns + [n])[..|ns|] == ns;
  }

  lemma ThinClear(w: Wheel, s: Slot, keep: Tasks)
    ensures Thin(w.(q := w.q[s := []]), keep) == Thin(w, keep).(q := Thin(w, keep).q[s := []])
  {
    assert Thin(w.(q := w.q[s := []]), keep).q == Thin(w, keep).q[s := []];
  }

  lemma ThinCascade(w: Wheel, s: Slot, keep: Tasks)
    ensures Thin(Cascade(w, s), keep) == Cascade(Thin(w, keep), s)
  {
    ThinClear(w, s, keep);
    ThinEmplaceAll(w.(q := w.q[s := []]), w.q[s], keep);
  }

  function DispatchAt(tick: uint32): Node -> Dispatch {
    (n: Node) => Dispatch(n.task, tick)
  }

  lemma ThinFired(ns: seq<Node>, tick: uint32, keep: Tasks)
    ensures Picked(Fired(ns, tick), DispatchIn(keep)) == Fired(Picked(ns, NodeIn(keep)), tick)
  {
    PickedOfMapped(ns, DispatchAt(tick), DispatchIn(keep), NodeIn(keep));
    assert Fired(ns, tick) == Mapped(ns, DispatchAt(tick));
    assert Fired(Picked(ns, NodeIn(keep)), tick) == Mapped(Picked(ns, NodeIn(keep)), DispatchAt(tick));
  }

  lemma ThinExecute(w: Wheel, keep: Tasks)
    ensures Thin(Execute(w), keep) == Execute(Thin(w, keep))
  {
    var s := w.tick % TIME_NEAR;
    ThinFired(w.q[s], w.tick, keep);
    PickedConcat(w.log, Fired(w.q[s], w.tick), DispatchIn(keep));
    ThinClear(w, s, keep);
  }

  lemma ThinShift(w: Wheel, keep: Tasks)
    ensures Thin(Shift(w), keep) == Shift(Thin(w, keep))
  {
    var w' := Advance(w);
    if w'.tick % TIME_NEAR == 0 {
      ThinCascade(w', CascadeSlot(w'.tick), keep);
    }
  }

  lemma ThinRound(w: Wheel, keep: Tasks)
    ensures Thin(Round(w), keep) == Round(Thin(w, keep))
  {
    ThinExecute(w, keep);
    ThinShift(Execute(w), keep);
    ThinExecute(Shift(Execute(w)), keep);
  }

  /* Runs. */

  /** To the kept tasks the two machines are in the same state. */
  ghost predicate SameFor(m: Machine, m': Machine, keep: Tasks) {
    && Thin(m.w, keep) == m'.w && m.calls == m'.calls
    && forall t :: keep(t) ==>
         && (t in m.waiting <==> t in m'.waiting)
         && (t in m.waiting ==> m.waiting[t] == m'.waiting[t])
  }

  /** One step of the machine as the kept tasks see it. */
  lemma ThinStep(m: Machine, op: Op, keep: Tasks)
    ensures Thin(Step(m, op).w, keep)
            == match op
               case Read(_) => Thin(m.w, keep)
               case Insert(t) =>
                 if t in m.waiting && keep(t) then Emplace(Thin(m.w, keep), Node(m.waiting[t], t)) else Thin(m.w, keep)
               case Turn => Round(Thin(m.w, keep))
  {
    match op {
      case Read(_) =>
      case Insert(t) =>
        if t in m.waiting {
          ThinEmplace(m.w, Node(m.waiting[t], t), keep);
        }
      case Turn => ThinRound(m.w, keep);
    }
  }

  lemma SameStep(m: Machine, m': Machine, op: Op, keep: Tasks)
    requires SameFor(m, m', keep)
    ensures SameFor(Step(m, op), if OpIn(keep)(op) then Step(m', op) else m', keep)
  {
    ThinStep(m, op, keep);
  }

  /** Leaving out the inserts of some calls changes nothing for the tasks of the others. */
  lemma {:induction false} ThinRun(ops: seq<Op>, keep: Tasks)
    ensures SameFor(Run(ops), Run(Only(ops, keep)), keep)
  {
    if ops == [] {
      assert Thin(Empty(), keep).q == Empty().q;
    } else {
      var op, before := ops[|ops| - 1], ops[..|ops| - 1];
      ThinRun(before, keep);
      SameStep(Run(before), Run(Only(before, keep)), op, keep);
      if OpIn(keep)(op) {
        RunSnoc(Only(before, keep), op);
      } else {
        assert Only(ops, keep) == Only(before, keep);
      }
    }
  }

  /* What can be read off the thinned run. */

  function EntryIn(keep: Tasks): Entry -> bool {
    (e: Entry) => keep(e.task)
  }

  lemma OnlySnoc(ops: seq<Op>, keep: Tasks)
    requires ops != []
    ensures var op, before := ops[|ops| - 1], ops[..|ops| - 1];
            Only(ops, keep) == if OpIn(keep)(op) then Only(before, keep) + [op] else Only(before, keep)
  {}

  lemma {:induction false} OnlyCounts(ops: seq<Op>, keep: Tasks)
    ensures CountTurns(Only(ops, keep)) == CountTurns(ops) && CountReads(Only(ops, keep)) == CountReads(ops)
  {
    if ops != [] {
      OnlyCounts(ops[..|ops| - 1], keep);
      OnlySnoc(ops, keep);
    }
  }

  lemma {:induction false} OnlyDue(ops: seq<Op>, keep: Tasks, t: TaskId)
    requires t < CountReads(ops) == CountReads(Only(ops, keep))
    ensures DueTick(Only(ops, keep), t) == DueTick(ops, t)
  {
    var before := ops[..|ops| - 1];
    OnlyCounts(before, keep);
    OnlySnoc(ops, keep);
    if t < CountReads(before) {
      OnlyDue(before, keep, t);
    }
  }

  lemma {:induction false} OnlyWaiting(ops: seq<Op>, keep: Tasks, t: TaskId)
    requires keep(t)
    ensures t in Waiting(Only(ops, keep)) <==> t in Waiting(ops)
  {
    if ops != [] {
      var before := ops[..|ops| - 1];
      OnlyWaiting(before, keep, t);
      OnlyCounts(before, keep);
      OnlySnoc(ops, keep);
    }
  }

  /** Without the late inserts a run is timely. */
  lemma {:induction false} OnlyTimely(ops: seq<Op>, keep: Tasks)
    requires forall t :: keep(t) ==> InTime(ops, t)
    ensures Timely(Only(ops, keep))
  {
    if ops != [] {
      var op, before := ops[|ops| - 1], ops[..|ops| - 1];
      OnlyTimely(before, keep);
      OnlyCounts(before, keep);
      OnlySnoc(ops, keep);
      if op.Insert? && keep(op.task) && op.task < CountReads(before) {
        OnlyWaiting(before, keep, op.task);
        OnlyDue(before, keep, op.task);
      }
    }
  }

  lemma {:induction false} OnlyInserted(ops: seq<Op>, keep: Tasks)
    ensures SameButNumbers(Inserted(Only(ops, keep)), Picked(Inserted(ops), EntryIn(keep)))
  {
    if ops != [] {
      var op, before := ops[|ops| - 1], ops[..|ops| - 1];
      OnlyInserted(before, keep);
      OnlyCounts(before, keep);
      OnlySnoc(ops, keep);
      if op.Insert? && op.task in Waiting(before) {
        WaitingBelow(before);
        var e := Entry(DueTick(before, op.task), |Inserted(before)|, op.task);
        PickedAppend(Inserted(before), e, EntryIn(keep));
        if keep(op.task) {
          OnlyWaiting(before, keep, op.task);
          OnlyDue(before, keep, op.task);
        }
      } else if op.Insert? && keep(op.task) {
        OnlyWaiting(before, keep, op.task);
      }
    }
  }

  /** Refinement on every run: to its timely tasks the wheel is the priority queue run on their inserts alone. */
  lemma WheelRefinesQueue(ops: seq<Op>, keep: Tasks) returns (p: seq<Entry>)
    requires forall t :: keep(t) ==> InTime(ops, t)
    ensures SameFor(Run(ops), Run(Only(ops, keep)), keep)
    ensures Agrees(Run(Only(ops, keep)), RefRun(Only(ops, keep)), p)
  {
    ThinRun(ops, keep);
    OnlyTimely(ops, keep);
    p := TimelyRunAgrees(Only(ops, keep));
  }
}
