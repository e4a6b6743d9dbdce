/** The timing wheel as a value: what each private operation of `timer` does to the 512 queues. */
module Wheels {
  import opened Bits
  import opened Geometry
  import opened Wrappers
  import opened Filters

  type TaskId = nat

  datatype Node = Node(expire: uint32, task: TaskId)

  /** One call of the thread pool's `enqueue`, with the tick the wheel showed at that moment. */
  datatype Dispatch = Dispatch(task: TaskId, tick: uint32)

  datatype WheelState = WheelState(tick: uint32, q: seq<seq<Node>>, log: seq<Dispatch>)

  type Wheel = w: WheelState | |w.q| == SLOTS
    witness WheelState(0, seq(SLOTS, (i: nat) => []), [])

  function Empty(): Wheel {
    WheelState(0, seq(SLOTS, (i: nat) => []), [])
  }

  function Emplace(w: Wheel, n: Node): Wheel {
    Push(w, SlotOf(n.expire, w.tick), n)
  }

  function EmplaceAll(w: Wheel, ns: seq<Node>): Wheel {
    if ns == [] then w
    else Emplace(EmplaceAll(w, ns[..|ns| - 1]), ns[|ns| - 1])
  }

  /** Empties one slot and inserts its tasks again, front to back. */
  function Cascade(w: Wheel, s: Slot): Wheel {
    EmplaceAll(w.(q := w.q[s := []]), w.q[s])
  }

  function Fired(ns: seq<Node>, tick: uint32): seq<Dispatch> {
    seq(|ns|, i requires 0 <= i < |ns| => Dispatch(ns[i].task, tick))
  }

  function Execute(w: Wheel): Wheel {
    var s := w.tick % TIME_NEAR;
    w.(q := w.q[s := []], log := w.log + Fired(w.q[s], w.tick))
  }

  function Advance(w: Wheel): Wheel {
    w.(tick := (w.tick + 1) % WORD)
  }

  function Shift(w: Wheel): Wheel {
    var w' := Advance(w);
    if w'.tick % TIME_NEAR == 0 then Cascade(w', CascadeSlot(w'.tick)) else w'
  }

  /** One pass of the catch-up loop. */
  function Round(w: Wheel): Wheel {
    Execute(Shift(Execute(w)))
  }

  /** A stretch of the catch-up loop, which lets go of the lock between rounds: before round i of the
      stretch, other threads insert others[i]. */
  function Rounds(w: Wheel, others: seq<seq<Node>>): Wheel {
    Folded<Wheel, seq<Node>>(RoundAfter, w, others)
  }

  function RoundAfter(w: Wheel, ns: seq<Node>): Wheel {
    Round(EmplaceAll(w, ns))
  }

  function Folded<S, X>(f: (S, X) -> S, s: S, xs: seq<X>): S {
    if xs == [] then s else f(Folded(f, s, xs[..|xs| - 1]), xs[|xs| - 1])
  }

  lemma {:induction false} FoldedCompose<S, X>(f: (S, X) -> S, s: S, a: seq<X>, b: seq<X>)
    ensures Folded(f, Folded(f, s, a), b) == Folded(f, s, a + b)
  {
    if b == [] {
      assert a + b == a;
    } else {
      FoldedCompose(f, s, a, b[..|b| - 1]);
      assert (a + b)[..|a + b| - 1] == a + b[..|b| - 1];
    }
  }

  /** The same for an operation that may have no outcome. */
  function FoldedWith<S, X>(f: (S, X) -> Option<S>, s: S, xs: seq<X>): Option<S> {
    if xs == [] then Some(s)
    else
      var s' :- FoldedWith(f, s, xs[..|xs| - 1]);
      f(s', xs[|xs| - 1])
  }

  lemma {:induction false} FoldedWithNone<S, X>(f: (S, X) -> Option<S>, s: S, xs: seq<X>, i: nat)
    requires i <= |xs| && FoldedWith(f, s, xs[..i]).None?
    ensures FoldedWith(f, s, xs).None?
  {
    var n := |xs|;
    if i < n {
      assert xs[..n - 1][..i] == xs[..i];
      FoldedWithNone(f, s, xs[..n - 1], i);
    } else {
      assert xs[..i] == xs;
    }
  }

  /* The level search of `timer_shift`, for a given shift per level. */

  datatype Target = Found(level: nat, index: nat) | Stuck

  /** `Stuck` stands for a search with no defined outcome: a shift by the word width or more, or a loop that never exits. */
  function Search(x: nat, level: nat, step: LevelStep): Target
    decreases x
  {
    if x % TIME_LEVEL != 0 then Found(level, x % TIME_LEVEL)
    else if step >= 32 || x == 0 then Stuck
    else
      DivLess(x, Pow2(step));
      Search(x / Pow2(step), level + 1, step)
  }

  lemma DivLess(x: nat, d: nat)
    requires x > 0 && d >= 2
    ensures x / d < x
  {
    MulLe(2, d, x / d);
  }

  /** The shift as written on line 208, and the one the geometry calls for. */
  const WRITTEN_STEP: LevelStep := 63
  const INTENDED_STEP: LevelStep := TIME_LEVEL_SHIFT

  type LevelStep = k: nat | k == 63 || k == 6 witness 63

  function ShiftWith(w: Wheel, step: LevelStep): Option<Wheel>
  {
    var w' := Advance(w);
    if w'.tick == 0 then Some(Cascade(w', SlotAt(TIME_LEVEL_COUNT, 0)))
    else if w'.tick % TIME_NEAR != 0 then Some(w')
    else
      SearchTarget(w'.tick, step);
      match Search(w'.tick / TIME_NEAR, 0, step)
      case Stuck => None
      case Found(level, index) => Some(Cascade(w', SlotAt(level + 1, index)))
  }

  /** The intended search always succeeds; the written one succeeds iff the lowest upper field is not zero. */
  lemma SearchTarget(t: uint32, step: LevelStep)
    requires t > 0 && t % TIME_NEAR == 0
    ensures var target := Search(t / TIME_NEAR, 0, step);
            && (target.Found? ==> target.level < TIME_LEVEL_COUNT && target.index < TIME_LEVEL
                                  && SlotAt(target.level + 1, target.index) == CascadeSlot(t))
            && (step == INTENDED_STEP ==> target.Found?)
            && (step == WRITTEN_STEP ==> (target.Stuck? <==> t % 0x4000 == 0))
  {
    if step == INTENDED_STEP {
      SearchFindsLowestField(t);
    } else {
      LowDigits(t, 0x100);
    }
  }

  function RoundWith(w: Wheel, step: LevelStep): Option<Wheel>
  {
    var w' :- ShiftWith(Execute(w), step);
    Some(Execute(w'))
  }

  function RoundsWith(w: Wheel, others: seq<seq<Node>>, step: LevelStep): Option<Wheel> {
    FoldedWith(RoundAfterWith(step), w, others)
  }

  function RoundAfterWith(step: LevelStep): (Wheel, seq<Node>) -> Option<Wheel> {
    (w: Wheel, ns: seq<Node>) => RoundWith(EmplaceAll(w, ns), step)
  }

  lemma RoundsWithNext(w: Wheel, others: seq<seq<Node>>, i: nat, step: LevelStep, w': Wheel)
    requires i < |others| && RoundsWith(w, others[..i], step) == Some(w')
    ensures RoundsWith(w, others[..i + 1], step) == RoundWith(EmplaceAll(w', others[i]), step)
  {
    assert others[..i + 1][..i] == others[..i];
  }

  lemma RoundsWithStuck(w: Wheel, others: seq<seq<Node>>, i: nat, step: LevelStep)
    requires i <= |others| && RoundsWith(w, others[..i], step).None?
    ensures RoundsWith(w, others, step).None?
  {
    FoldedWithNone(RoundAfterWith(step), w, others, i);
  }

  /** With the shift the geometry calls for, the search ends inside the table, at the least non-zero field. */
  lemma SearchFindsLowestField(t: uint32)
    requires t > 0 && t % TIME_NEAR == 0
    ensures Search(t / TIME_NEAR, 0, TIME_LEVEL_SHIFT) == Found(LowestField(t) - 1, Field(t, LowestField(t)))
    ensures Field(t, LowestField(t)) != 0
  {
    Nested(t);
    assert Pow2(6) == 64;
    var a := t / 0x100;
    assert Field(t, 1) == a % 64 && Field(t, 2) == a / 64 % 64;
    assert Field(t, 3) == a / 64 / 64 % 64 && Field(t, 4) == a / 64 / 64 / 64 % 64;
    TopFieldOfWord(t);
    if Field(t, 1) == 0 {
      SearchStep(a, 0);
      if Field(t, 2) == 0 {
        SearchStep(a / 64, 1);
        if Field(t, 3) == 0 {
          SearchStep(a / 64 / 64, 2);
        }
      }
    }
  }

  lemma SearchStep(x: nat, level: nat)
    requires x > 0 && x % 64 == 0
    ensures x / 64 > 0
    ensures Search(x, level, 6) == Search(x / 64, level + 1, 6)
  {
    assert Pow2(6) == 64;
  }

  /** Whatever the shift, a step either fails in the search or is the one the geometry calls for. */
  lemma ShiftUnlessStuck(w: Wheel, step: LevelStep)
    ensures var t := Advance(w).tick;
            var stuck := t > 0 && t % TIME_NEAR == 0 && Search(t / TIME_NEAR, 0, step).Stuck?;
            ShiftWith(w, step) == if stuck then None else Some(Shift(w))
  {
    var t := Advance(w).tick;
    if t > 0 && t % TIME_NEAR == 0 {
      SearchTarget(t, step);
    }
  }

  lemma IntendedShift(w: Wheel)
    ensures ShiftWith(w, INTENDED_STEP) == Some(Shift(w))
  {
    var t := Advance(w).tick;
    ShiftUnlessStuck(w, INTENDED_STEP);
    if t > 0 && t % TIME_NEAR == 0 {
      SearchTarget(t, INTENDED_STEP);
    }
  }

  lemma {:induction false} IntendedRounds(w: Wheel, others: seq<seq<Node>>)
    ensures RoundsWith(w, others, INTENDED_STEP) == Some(Rounds(w, others))
  {
    if others != [] {
      IntendedRounds(w, others[..|others| - 1]);
      IntendedShift(Execute(EmplaceAll(Rounds(w, others[..|others| - 1]), others[|others| - 1])));
    }
  }

  lemma RoundsCompose(w: Wheel, a: seq<seq<Node>>, b: seq<seq<Node>>)
    ensures Rounds(Rounds(w, a), b) == Rounds(w, a + b)
  {
    FoldedCompose<Wheel, seq<Node>>(RoundAfter, w, a, b);
  }

  /* What every reachable wheel satisfies, whatever was inserted and however late. */

  /** A task sits where its own expiry's field points, at whatever level it is. */
  ghost predicate WellPlaced(w: Wheel) {
    forall s: Slot, i :: 0 <= i < |w.q[s]| ==> AtHome(w.q[s][i], s)
  }

  ghost predicate AtHome(n: Node, s: Slot) {
    s == SlotAt(FieldOf(s), Field(n.expire, FieldOf(s)))
  }

  /** The tasks among ns that a wheel at tick t puts into slot r, in order. */
  function Select(ns: seq<Node>, t: uint32, r: Slot): seq<Node> {
    Picked(ns, ChosenFor(t, r))
  }

  function ChosenFor(t: uint32, r: Slot): Node -> bool {
    (n: Node) => SlotOf(n.expire, t) == r
  }

  /** Inserting many tasks appends to each queue its own tasks, in order, and touches nothing else. */
  lemma {:induction false} EmplaceAllAt(w: Wheel, ns: seq<Node>, r: Slot)
    ensures EmplaceAll(w, ns).tick == w.tick && EmplaceAll(w, ns).log == w.log
    ensures EmplaceAll(w, ns).q[r] == w.q[r] + Select(ns, w.tick, r)
  {
    if ns != [] {
      EmplaceAllAt(w, ns[..|ns| - 1], r);
    }
  }

  lemma SlotOfIsHome(n: Node, t: uint32)
    ensures AtHome(n, SlotOf(n.expire, t))
  {
    var j := TopDifference(n.expire, t);
    SlotAtInjective(j, Field(n.expire, j), j, Field(n.expire, j));
  }

  function Push(w: Wheel, s: Slot, n: Node): Wheel {
    w.(q := w.q[s := w.q[s] + [n]])
  }

  lemma PushWellPlaced(w: Wheel, s: Slot, n: Node)
    requires WellPlaced(w) && AtHome(n, s)
    ensures WellPlaced(Push(w, s, n))
  {}

  lemma EmplaceWellPlaced(w: Wheel, n: Node)
    requires WellPlaced(w)
    ensures WellPlaced(Emplace(w, n))
  {
    SlotOfIsHome(n, w.tick);
  }

  lemma {:induction false} EmplaceAllWellPlaced(w: Wheel, ns: seq<Node>)
    requires WellPlaced(w)
    ensures WellPlaced(EmplaceAll(w, ns))
  {
    if ns != [] {
      EmplaceAllWellPlaced(w, ns[..|ns| - 1]);
      EmplaceWellPlaced(EmplaceAll(w, ns[..|ns| - 1]), ns[|ns| - 1]);
    }
  }

  lemma ShiftWellPlaced(w: Wheel)
    requires WellPlaced(w)
    ensures WellPlaced(Shift(w))
  {
    var w' := Advance(w);
    if w'.tick % TIME_NEAR == 0 {
      var s := CascadeSlot(w'.tick);
      EmplaceAllWellPlaced(w'.(q := w'.q[s := []]), w'.q[s]);
    }
  }

  lemma {:induction false} RoundsWellPlaced(w: Wheel, others: seq<seq<Node>>)
    requires WellPlaced(w)
    ensures WellPlaced(Rounds(w, others))
  {
    if others != [] {
      var before := Rounds(w, others[..|others| - 1]);
      RoundsWellPlaced(w, others[..|others| - 1]);
      EmplaceAllWellPlaced(before, others[|others| - 1]);
      ShiftWellPlaced(Execute(EmplaceAll(before, others[|others| - 1])));
    }
  }

  /** A task taken from the redistributed slot never returns to it, so draining that queue terminates. */
  lemma CascadeLeaves(n: Node, t: uint32)
    requires AtHome(n, CascadeSlot(t))
    ensures SlotOf(n.expire, t) != CascadeSlot(t)
  {
    var j := LowestField(t);
    SlotAtInjective(j, Field(t, j), j, Field(n.expire, j));
    var k := TopDifference(n.expire, t);
    SlotAtInjective(k, Field(n.expire, k), j, Field(t, j));
  }

  /** The wheel after i tasks of slot s have been moved. */
  function Draining(w: Wheel, s: Slot, i: nat): Wheel
    requires i <= |w.q[s]|
  {
    var e := EmplaceAll(w.(q := w.q[s := []]), w.q[s][..i]);
    e.(q := e.q[s := w.q[s][i..]])
  }

  ghost predicate Leaves(w: Wheel, s: Slot) {
    forall n :: n in w.q[s] ==> SlotOf(n.expire, w.tick) != s
  }

  lemma DrainStarts(w: Wheel, s: Slot)
    ensures Draining(w, s, 0) == w
  {
    assert w.q[s := []][s := w.q[s]] == w.q;
  }

  lemma DrainStep(w: Wheel, s: Slot, i: nat)
    requires i < |w.q[s]| && Leaves(w, s)
    ensures Draining(w, s, i).q[s] == w.q[s][i..]
    ensures var e := Emplace(Draining(w, s, i), w.q[s][i]);
            e.q[s] == w.q[s][i..] && Draining(w, s, i + 1) == e.(q := e.q[s := w.q[s][i + 1..]])
  {
    var c, q := w.(q := w.q[s := []]), w.q[s];
    assert q[..i + 1][..i] == q[..i];
    EmplaceAllAt(c, q[..i], s);
    assert q[i] in q;
  }

  lemma DrainEnds(w: Wheel, s: Slot)
    requires Leaves(w, s)
    ensures Draining(w, s, |w.q[s]|) == Cascade(w, s)
    ensures Cascade(w, s).q[s] == []
  {
    var c, q := w.(q := w.q[s := []]), w.q[s];
    assert q[..|q|] == q;
    EmplaceAllAt(c, q, s);
    assert forall i :: 0 <= i < |q| ==> q[i] in q;
    PickedNone(q, ChosenFor(c.tick, s));
    var e := EmplaceAll(c, q);
    assert e.q[s] == [];
    assert q[|q|..] == e.q[s];
    assert e.q[s := e.q[s]] == e.q;
  }

  lemma CascadeSlotLeaves(w: Wheel)
    requires WellPlaced(w)
    ensures Leaves(w, CascadeSlot(w.tick))
  {
    forall n | n in w.q[CascadeSlot(w.tick)] ensures SlotOf(n.expire, w.tick) != CascadeSlot(w.tick) {
      CascadeLeaves(n, w.tick);
    }
  }

  lemma ExecuteStep(w: Wheel, i: nat)
    requires i < |w.q[w.tick % TIME_NEAR]|
    ensures Executing(w, i + 1).q == Executing(w, i).q[w.tick % TIME_NEAR := w.q[w.tick % TIME_NEAR][i..][1..]]
    ensures Executing(w, i + 1).log == Executing(w, i).log + [Dispatch(w.q[w.tick % TIME_NEAR][i].task, w.tick)]
  {
    var q := w.q[w.tick % TIME_NEAR];
    assert q[i..][1..] == q[i + 1..];
    assert Fired(q[..i + 1], w.tick) == Fired(q[..i], w.tick) + [Dispatch(q[i].task, w.tick)];
  }

  /** The wheel after i tasks of the current near slot have been handed to the pool. */
  function Executing(w: Wheel, i: nat): Wheel
    requires i <= |w.q[w.tick % TIME_NEAR]|
  {
    var s := w.tick % TIME_NEAR;
    w.(q := w.q[s := w.q[s][i..]], log := w.log + Fired(w.q[s][..i], w.tick))
  }

  lemma ExecuteBounds(w: Wheel)
    ensures Executing(w, 0) == w
    ensures Executing(w, |w.q[w.tick % TIME_NEAR]|) == Execute(w)
  {
    var q := w.q[w.tick % TIME_NEAR];
    assert q[0..] == q && q[..|q|] == q && q[|q|..] == [] && Fired(q[..0], w.tick) == [];
    assert w.q[w.tick % TIME_NEAR := q] == w.q;
  }
}
