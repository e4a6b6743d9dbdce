/** The location invariant: where every pending task sits, in terms of unbounded time. */
module Location {
  import opened Bits
  import opened Geometry
  import opened Wheels
  import opened Filters

  /** A pending task: absolute due tick, position in the order of insertion, identity. */
  datatype Entry = Entry(deadline: nat, number: nat, task: TaskId)

  const HALF_TURN: nat := 0x8000_0000

  function NodeOf(e: Entry): Node {
    Node(e.deadline % WORD, e.task)
  }

  function PlacedIn(t: nat, r: Slot): Entry -> bool {
    (e: Entry) => Place(e.deadline, t) == r
  }

  function DueAt(t: nat): Entry -> bool {
    (e: Entry) => e.deadline == t
  }

  function NotDueAt(t: nat): Entry -> bool {
    (e: Entry) => e.deadline != t
  }

  /** What slot r holds at time t when p, in insertion order, is everything pending. */
  function At(p: seq<Entry>, t: nat, r: Slot): seq<Node> {
    Mapped(Picked(p, PlacedIn(t, r)), NodeOf)
  }

  /** The entries due exactly at t, in insertion order. */
  function Due(p: seq<Entry>, t: nat): seq<Entry> {
    Picked(p, DueAt(t))
  }

  function NotDue(p: seq<Entry>, t: nat): seq<Entry> {
    Picked(p, NotDueAt(t))
  }

  ghost predicate Ahead(p: seq<Entry>, t: nat) {
    forall i :: 0 <= i < |p| ==> t <= p[i].deadline < t + HALF_TURN
  }

  ghost predicate HoldsItsOwn(w: Wheel, t: nat, p: seq<Entry>, r: Slot) {
    w.q[r] == At(p, t, r)
  }

  /** Every queue is exactly the pending tasks whose place it is, in insertion order. */
  ghost predicate Located(w: Wheel, t: nat, p: seq<Entry>) {
    w.tick == t % WORD && forall r: Slot :: HoldsItsOwn(w, t, p, r)
  }

  lemma EmptyLocated()
    ensures Located(Empty(), 0, [])
  {}

  lemma InsertLocated(w: Wheel, t: nat, p: seq<Entry>, e: Entry)
    requires Located(w, t, p) && t <= e.deadline < t + HALF_TURN
    ensures Located(Emplace(w, NodeOf(e)), t, p + [e])
  {
    PlaceIsSlotOf(e.deadline, t);
    forall r: Slot ensures HoldsItsOwn(Emplace(w, NodeOf(e)), t, p + [e], r) {
      assert HoldsItsOwn(w, t, p, r);
      PickedAppend(p, e, PlacedIn(t, r));
      assert At(p + [e], t, r) == At(p, t, r) + (if Place(e.deadline, t) == r then [NodeOf(e)] else []);
    }
  }

  function DispatchOf(e: Entry): Dispatch {
    Dispatch(e.task, e.deadline % WORD)
  }

  lemma CurrentPlace(d: nat, t: nat)
    requires t <= d
    ensures Place(d, t) == t % 0x100 <==> d == t
  {
    if Level(d, t) > 0 {
      SlotAtInjective(Level(d, t), Field(d, Level(d, t)), 0, t % 0x100);
    }
  }

  lemma CurrentSlotIsDue(p: seq<Entry>, t: nat)
    requires Ahead(p, t)
    ensures Fired(At(p, t, t % 0x100), t % WORD) == Mapped(Due(p, t), DispatchOf)
  {
    forall i | 0 <= i < |p| ensures PlacedIn(t, t % 0x100)(p[i]) == DueAt(t)(p[i]) {
      CurrentPlace(p[i].deadline, t);
    }
    PickedSame(p, PlacedIn(t, t % 0x100), DueAt(t));
    PickedIn(p, DueAt(t));
    var due := Due(p, t);
    forall i | 0 <= i < |due| ensures due[i].deadline == t {
      assert DueAt(t)(due[i]);
    }
    assert At(p, t, t % 0x100) == Mapped(due, NodeOf);
    var fired := Fired(Mapped(due, NodeOf), t % WORD);
    forall i | 0 <= i < |due| ensures fired[i] == DispatchOf(due[i]) {}
  }

  lemma AtWithoutDue(p: seq<Entry>, t: nat, r: Slot)
    requires Ahead(p, t)
    ensures At(NotDue(p, t), t, r) == if r == t % 0x100 then [] else At(p, t, r)
  {
    var rest := (e: Entry) => r != t % 0x100 && PlacedIn(t, r)(e);
    forall i | 0 <= i < |p| ensures rest(p[i]) == (NotDueAt(t)(p[i]) && PlacedIn(t, r)(p[i])) {
      CurrentPlace(p[i].deadline, t);
      assert PlacedIn(t, r)(p[i]) == (Place(p[i].deadline, t) == r);
    }
    PickedTwice(p, NotDueAt(t), PlacedIn(t, r), rest);
    if r == t % 0x100 {
      PickedNone(p, rest);
    } else {
      PickedSame(p, rest, PlacedIn(t, r));
    }
  }

  lemma NotDueAhead(p: seq<Entry>, t: nat)
    requires Ahead(p, t)
    ensures Ahead(NotDue(p, t), t) && Ahead(NotDue(p, t), t + 1)
  {
    PickedIn(p, NotDueAt(t));
  }

  /** Draining the current near slot fires exactly what is due now, in insertion order, and nothing else. */
  lemma ExecuteLocated(w: Wheel, t: nat, p: seq<Entry>)
    requires Located(w, t, p) && Ahead(p, t)
    ensures Located(Execute(w), t, NotDue(p, t))
    ensures Execute(w).log == w.log + Mapped(Due(p, t), DispatchOf)
  {
    assert w.tick % TIME_NEAR == t % 0x100 by {
      FieldOfWord(t, 0);
    }
    CurrentSlotIsDue(p, t);
    assert HoldsItsOwn(w, t, p, t % 0x100);
    forall r: Slot ensures HoldsItsOwn(Execute(w), t, NotDue(p, t), r) {
      assert HoldsItsOwn(w, t, p, r);
      AtWithoutDue(p, t, r);
    }
  }

  lemma PlaceLevel(d: nat, t: nat)
    ensures FieldOf(Place(d, t)) == Level(d, t)
  {
    var j := Level(d, t);
    SlotAtInjective(j, Field(d, j), j, Field(d, j));
  }

  /** How one deadline moves when time steps onto a multiple of 256: only out of s, only downwards. */
  lemma StepOfOne(d: nat, t: nat, s: Slot)
    requires 0 < t <= d < t + HALF_TURN && t % 0x100 == 0 && s == CascadeSlot(t % WORD)
    ensures SlotOf(d % WORD, t % WORD) == Place(d, t)
    ensures Place(d, t - 1) != s ==> Place(d, t) == Place(d, t - 1)
    ensures Place(d, t - 1) == s ==> FieldOf(Place(d, t)) < LowestField(t)
    ensures FieldOf(Place(d, t - 1)) >= LowestField(t) == FieldOf(s)
  {
    PlaceIsSlotOf(d, t);
    StepMovesOneSlot(d, t);
    LowLevelsAreDone(d, t);
    PlaceLevel(d, t);
    PlaceLevel(d, t - 1);
    LowestFieldOfWord(t);
    SlotAtInjective(LowestField(t), Field(t, LowestField(t)), LowestField(t), Field(t, LowestField(t)));
    if Place(d, t - 1) == s {
      CascadeDescends(d, t);
    }
  }

  /** What the redistribution sends from slot s to slot r. */
  lemma Redistributed(p: seq<Entry>, t: nat, s: Slot, r: Slot, moved: Entry -> bool)
    requires t > 0 && Ahead(p, t)
    requires forall i :: 0 <= i < |p| ==>
               moved(p[i]) == (Place(p[i].deadline, t - 1) == s && SlotOf(p[i].deadline % WORD, t % WORD) == r)
    ensures Select(At(p, t - 1, s), t % WORD, r) == Mapped(Picked(p, moved), NodeOf)
  {
    PickedOfMappedPicked(p, PlacedIn(t - 1, s), NodeOf, ChosenFor(t % WORD, r), moved);
  }

  /** Slots below the redistributed level are empty and receive; slots from it up keep what they have. */
  lemma RedistributedAt(p: seq<Entry>, t: nat, r: Slot)
    requires t > 0 && t % 0x100 == 0 && Ahead(p, t)
    ensures var s := CascadeSlot(t % WORD);
            var kept := if r == s then [] else At(p, t - 1, r);
            At(p, t, r) == kept + Select(At(p, t - 1, s), t % WORD, r) && (FieldOf(r) < LowestField(t) ==> kept == [])
  {
    var s := CascadeSlot(t % WORD);
    forall i | 0 <= i < |p|
      ensures SlotOf(p[i].deadline % WORD, t % WORD) == Place(p[i].deadline, t)
      ensures Place(p[i].deadline, t - 1) != s ==> Place(p[i].deadline, t) == Place(p[i].deadline, t - 1)
      ensures Place(p[i].deadline, t - 1) == s ==> FieldOf(Place(p[i].deadline, t)) < LowestField(t)
      ensures FieldOf(Place(p[i].deadline, t - 1)) >= LowestField(t) == FieldOf(s)
    {
      StepOfOne(p[i].deadline, t, s);
    }
    if FieldOf(r) < LowestField(t) {
      Redistributed(p, t, s, r, PlacedIn(t, r));
      PickedNone(p, PlacedIn(t - 1, r));
    } else {
      var nothing := (e: Entry) => false;
      Redistributed(p, t, s, r, nothing);
      PickedNone(p, nothing);
      if r == s {
        PickedNone(p, PlacedIn(t, r));
      } else {
        PickedSame(p, PlacedIn(t, r), PlacedIn(t - 1, r));
      }
    }
  }

  lemma UnmovedAt(p: seq<Entry>, t: nat, r: Slot)
    requires t > 0 && t % 0x100 != 0 && Ahead(p, t)
    ensures At(p, t, r) == At(p, t - 1, r)
  {
    forall i | 0 <= i < |p| ensures PlacedIn(t, r)(p[i]) == PlacedIn(t - 1, r)(p[i]) {
      StepMovesOneSlot(p[i].deadline, t);
    }
    PickedSame(p, PlacedIn(t, r), PlacedIn(t - 1, r));
  }

  /** One redistribution at most restores the location invariant after every increment, wrap included. */
  lemma ShiftLocated(w: Wheel, t: nat, p: seq<Entry>)
    requires t > 0 && Located(w, t - 1, p) && Ahead(p, t)
    ensures Located(Shift(w), t, p) && Shift(w).log == w.log
  {
    var w' := Advance(w);
    assert w'.tick == t % WORD by {
      NextWord(t);
    }
    FieldOfWord(t, 0);
    if t % 0x100 == 0 {
      var s := CascadeSlot(w'.tick);
      var c := w'.(q := w'.q[s := []]);
      assert HoldsItsOwn(w, t - 1, p, s);
      forall r: Slot ensures HoldsItsOwn(Shift(w), t, p, r) {
        assert HoldsItsOwn(w, t - 1, p, r);
        EmplaceAllAt(c, w'.q[s], r);
        RedistributedAt(p, t, r);
      }
      EmplaceAllAt(c, w'.q[s], s);
    } else {
      forall r: Slot ensures HoldsItsOwn(Shift(w), t, p, r) {
        assert HoldsItsOwn(w, t - 1, p, r);
        UnmovedAt(p, t, r);
      }
    }
  }

  lemma NextWord(t: nat)
    requires t > 0
    ensures ((t - 1) % WORD + 1) % WORD == t % WORD
  {}

  /** Nothing pending belongs at position 0 of upper wheels 0 to 2, and at position 0 of wheel 3 only what is due past the next wrap. */
  lemma PositionZero(d: nat, t: nat)
    requires t <= d && 1 <= Level(d, t) && Field(d, Level(d, t)) == 0
    ensures Level(d, t) == 4 && d / WORD > t / WORD
  {
    var j := Level(d, t);
    QuotientMonotone(t, d, Span(j));
    LevelIsPrefix(d, t, j - 1);
    Nested(d);
    Nested(t);
    if j < 4 {
      LevelIsPrefix(d, t, j);
    }
  }

  lemma PositionZeroOf(w: Wheel, t: nat, p: seq<Entry>)
    requires Located(w, t, p) && Ahead(p, t)
    ensures w.q[SlotAt(1, 0)] == w.q[SlotAt(2, 0)] == w.q[SlotAt(3, 0)] == []
    ensures w.q[SlotAt(4, 0)] == Mapped(Picked(p, PlacedIn(t, SlotAt(4, 0))), NodeOf)
    ensures forall i :: 0 <= i < |p| && Place(p[i].deadline, t) == SlotAt(4, 0) ==> p[i].deadline / WORD > t / WORD
  {
    forall i | 0 <= i < |p|
      ensures Place(p[i].deadline, t) !in {SlotAt(1, 0), SlotAt(2, 0), SlotAt(3, 0)}
      ensures Place(p[i].deadline, t) == SlotAt(4, 0) ==> p[i].deadline / WORD > t / WORD
    {
      var d := p[i].deadline;
      PlaceLevel(d, t);
      if 1 <= Level(d, t) && Field(d, Level(d, t)) == 0 {
        PositionZero(d, t);
      }
    }
    PickedNone(p, PlacedIn(t, SlotAt(1, 0)));
    PickedNone(p, PlacedIn(t, SlotAt(2, 0)));
    PickedNone(p, PlacedIn(t, SlotAt(3, 0)));
    assert HoldsItsOwn(w, t, p, SlotAt(1, 0)) && HoldsItsOwn(w, t, p, SlotAt(2, 0));
    assert HoldsItsOwn(w, t, p, SlotAt(3, 0)) && HoldsItsOwn(w, t, p, SlotAt(4, 0));
  }
}
