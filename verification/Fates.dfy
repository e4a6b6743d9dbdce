/** What becomes of an insert, however early or late it comes: the course of one task through the wheel. */
module Fates {
  import opened Bits
  import opened Geometry
  import opened Filters
  import opened Wheels
  import opened Location
  import opened Reference
  import opened Runs
  import opened Refinement
  import opened Thinning
  import opened Punctuality
  import opened Wrappers

  /** A task is not on the wheel yet, in a queue, or dispatched at an absolute tick. */
  datatype Whereabouts = Nowhere | Held(slot: Slot) | Sent(at: nat)

  function Drained(x: Whereabouts, t: nat): Whereabouts {
    if x == Held(t % 0x100) then Sent(t) else x
  }

  function Redistributed(x: Whereabouts, e: uint32, t: nat): Whereabouts {
    if t % 0x100 == 0 && x == Held(CascadeSlot(t % WORD)) then Held(SlotOf(e, t % WORD)) else x
  }

  /** One round, from tick t to t + 1, for a task that expires at e. */
  function Turned(x: Whereabouts, e: uint32, t: nat): Whereabouts {
    Drained(Redistributed(Drained(x, t), e, t + 1), t + 1)
  }

  function TurnedBy(e: uint32): (Whereabouts, nat) -> Whereabouts {
    (x: Whereabouts, t: nat) => Turned(x, e, t)
  }

  /** Where the task is after n rounds from tick t. */
  function Course(x: Whereabouts, e: uint32, t: nat, n: nat): Whereabouts {
    Iterated(TurnedBy(e), x, t, n)
  }

  function Iterated<S>(f: (S, nat) -> S, s: S, t: nat, n: nat): S {
    if n == 0 then s else f(Iterated(f, s, t, n - 1), t + (n - 1))
  }

  lemma {:induction false} IteratedFollows<S>(f: (S, nat) -> S, t: nat, n: nat, path: nat -> S)
    requires forall i: nat :: i < n ==> f(path(i), t + i) == path(i + 1)
    ensures Iterated(f, path(0), t, n) == path(n)
  {
    if n > 0 {
      IteratedFollows(f, t, n - 1, path);
    }
  }

  predicate Fixes<S(==)>(f: (S, nat) -> S, s: S, t: nat) {
    f(s, t) == s
  }

  lemma {:induction false} IteratedFixed<S>(f: (S, nat) -> S, s: S, t: nat, n: nat)
    requires forall u: nat :: t <= u < t + n ==> Fixes(f, s, u)
    ensures Iterated(f, s, t, n) == s
  {
    if n > 0 {
      IteratedFixed(f, s, t, n - 1);
      assert Fixes(f, s, t + (n - 1));
    }
  }

  lemma {:induction false} IteratedCompose<S>(f: (S, nat) -> S, s: S, t: nat, a: nat, b: nat)
    ensures Iterated(f, Iterated(f, s, t, a), t + a, b) == Iterated(f, s, t, a + b)
  {
    if b > 0 {
      IteratedCompose(f, s, t, a, b - 1);
      assert a + b - 1 == a + (b - 1) && t + a + (b - 1) == t + (a + b - 1);
    }
  }

  /** The wheel with this one task. */
  function Alone(x: Whereabouts, n: Node, t: nat): Wheel {
    WheelState(t % WORD, if x.Held? then Empty().q[x.slot := [n]] else Empty().q,
               if x.Sent? then [Dispatch(n.task, x.at % WORD)] else [])
  }

  lemma AloneExecute(x: Whereabouts, n: Node, t: nat)
    ensures Execute(Alone(x, n, t)) == Alone(Drained(x, t), n, t)
  {
    FieldOfWord(t, 0);
    assert Execute(Alone(x, n, t)).q == Alone(Drained(x, t), n, t).q;
  }

  lemma AloneShift(x: Whereabouts, n: Node, t: nat)
    ensures Shift(Alone(x, n, t)) == Alone(Redistributed(x, n.expire, t + 1), n, t + 1)
  {
    FieldOfWord(t + 1, 0);
    NextWord(t + 1);
    var w := Alone(x, n, t + 1);
    assert Advance(Alone(x, n, t)) == w;
    if (t + 1) % 0x100 == 0 {
      AloneCascade(x, n, t + 1, CascadeSlot((t + 1) % WORD));
    }
  }

  lemma AloneEmplace(n: Node, t: nat)
    ensures Emplace(Alone(Nowhere, n, t), n) == Alone(Held(SlotOf(n.expire, t % WORD)), n, t)
  {
    var s := SlotOf(n.expire, t % WORD);
    assert Empty().q[s] == [] && [] + [n] == [n];
  }

  lemma AloneCascade(x: Whereabouts, n: Node, t: nat, s: Slot)
    ensures Cascade(Alone(x, n, t), s)
            == Alone(if x == Held(s) then Held(SlotOf(n.expire, t % WORD)) else x, n, t)
  {
    var w := Alone(x, n, t);
    var c := w.(q := w.q[s := []]);
    if x == Held(s) {
      assert w.q[s] == [n] && c.q == Empty().q;
      assert [n][..0] == [] && EmplaceAll(c, [n]) == Emplace(c, n);
      AloneEmplace(n, t);
    } else {
      assert w.q[s] == [] && c.q == w.q;
    }
  }

  lemma AloneRound(x: Whereabouts, n: Node, t: nat)
    ensures Round(Alone(x, n, t)) == Alone(Turned(x, n.expire, t), n, t + 1)
  {
    AloneExecute(x, n, t);
    AloneShift(Drained(x, t), n, t);
    AloneExecute(Redistributed(Drained(x, t), n.expire, t + 1), n, t + 1);
  }

  /* On course: the slot is the place of a deadline less than a turn ahead. */

  lemma CascadedPlace(d: nat, t: nat)
    requires 0 < t <= d < t + WORD && t % 0x100 == 0 && Place(d, t - 1) == CascadeSlot(t % WORD)
    ensures SlotOf(d % WORD, t % WORD) == Place(d, t)
  {
    CascadeDescends(d, t);
    LevelIsPrefix(d, t, 3);
    SlotOfIsPlace(d, t);
  }

  lemma OnCourseOnto(d: nat, t: nat)
    requires 0 < t <= d < t + WORD
    ensures Redistributed(Held(Place(d, t - 1)), d % WORD, t) == Held(Place(d, t))
  {
    StepMovesOneSlot(d, t);
    if t % 0x100 == 0 && Place(d, t - 1) == CascadeSlot(t % WORD) {
      CascadedPlace(d, t);
    }
  }

  lemma OnCourseDrained(d: nat, t: nat)
    requires t <= d
    ensures Drained(Held(Place(d, t)), t) == if d == t then Sent(d) else Held(Place(d, t))
  {
    CurrentPlace(d, t);
  }

  lemma SentStaysSent(a: nat, e: uint32, t: nat)
    ensures Drained(Sent(a), t) == Sent(a) == Redistributed(Sent(a), e, t)
  {}

  lemma OnCourseTurn(d: nat, t: nat)
    requires t <= d < t + WORD
    ensures Turned(Held(Place(d, t)), d % WORD, t) == if d <= t + 1 then Sent(d) else Held(Place(d, t + 1))
  {
    hide Drained, Redistributed, Place;
    OnCourseDrained(d, t);
    if t < d {
      OnCourseOnto(d, t + 1);
      OnCourseDrained(d, t + 1);
    } else {
      SentStaysSent(d, d % WORD, t + 1);
    }
  }

  lemma SentStays(a: nat, e: uint32, t: nat)
    ensures Turned(Sent(a), e, t) == Sent(a)
  {}

  /** At tick u a round keeps a task in its place, or dispatches it if it reaches the task's tick. */
  ghost predicate KeepsOrSends(turn: (Whereabouts, nat) -> Whereabouts, place: nat -> Slot, d: nat, u: nat) {
    && (u <= d ==> turn(Held(place(u)), u) == if d <= u + 1 then Sent(d) else Held(place(u + 1)))
    && turn(Sent(d), u) == Sent(d)
  }

  lemma {:induction false} KeptUntilDue(turn: (Whereabouts, nat) -> Whereabouts, place: nat -> Slot, d: nat, t: nat, n: nat)
    requires t <= d && forall u: nat :: t <= u ==> KeepsOrSends(turn, place, d, u)
    ensures Iterated(turn, Held(place(t)), t, n) == if n > 0 && d <= t + n then Sent(d) else Held(place(t + n))
  {
    if n > 0 {
      KeptUntilDue(turn, place, d, t, n - 1);
      assert KeepsOrSends(turn, place, d, t + (n - 1));
    }
  }

  lemma OnCourseKeeps(d: nat, t: nat)
    requires d < t + WORD
    ensures KeepsOrSends(TurnedBy(d % WORD), PlaceOf(d), d, t)
  {
    hide Turned, Place;
    if t <= d {
      OnCourseTurn(d, t);
    }
    SentStays(d, d % WORD, t);
  }

  function PlaceOf(d: nat): nat -> Slot {
    (t: nat) => Place(d, t)
  }

  lemma OnCourse(d: nat, t: nat, n: nat)
    requires t <= d < t + WORD
    ensures Course(Held(Place(d, t)), d % WORD, t, n) == if n > 0 && d <= t + n then Sent(d) else Held(Place(d, t + n))
  {
    forall u: nat | t <= u ensures KeepsOrSends(TurnedBy(d % WORD), PlaceOf(d), d, u) {
      OnCourseKeeps(d, u);
    }
    KeptUntilDue(TurnedBy(d % WORD), PlaceOf(d), d, t, n);
    assert PlaceOf(d)(t) == Place(d, t) && PlaceOf(d)(t + n) == Place(d, t + n);
  }

  /* Too late, but in the present block: caught at the same low byte in the next block. */

  function NearAfter(b: nat, t: nat, n: nat): Whereabouts {
    if b + 0x100 <= t + n then Sent(b + 0x100) else Held(b % 0x100)
  }

  lemma NearStep(b: nat, e: uint32, t: nat, n: nat)
    requires b < t < b + 0x100
    ensures Turned(NearAfter(b, t, n), e, t + n) == NearAfter(b, t, n + 1)
  {
    if t + n < b + 0x100 {
      LowByteBetween(b, t + n);
      LowByteBetween(b, t + n + 1);
    }
  }

  lemma NearCourse(b: nat, e: uint32, t: nat, n: nat)
    requires b < t < b + 0x100
    ensures Course(Held(b % 0x100), e, t, n) == NearAfter(b, t, n)
  {
    var path := (i: nat) => NearAfter(b, t, i);
    forall i: nat | i < n ensures TurnedBy(e)(path(i), t + i) == path(i + 1) {
      NearStep(b, e, t, i);
    }
    IteratedFollows(TurnedBy(e), t, n, path);
  }

  lemma LowByteBetween(b: nat, u: nat)
    requires b < u <= b + 0x100
    ensures u % 0x100 == b % 0x100 <==> u == b + 0x100
  {}

  /* Too late, at upper wheel 0 to 2. */

  /** Held at position Field(b, j) of upper wheel j - 1, although tick b has gone by. */
  function Behindhand(b: nat, j: nat): Whereabouts
    requires j <= 3
  {
    Held(SlotAt(j, Field(b, j)))
  }

  /** The tick at which that position is redistributed next. */
  function NextVisit(b: nat, j: nat): nat {
    (b / Span(j) + 64) * Span(j)
  }

  lemma VisitedAt(b: nat, j: nat, t: nat)
    requires 1 <= j <= 3 && t > 0 && t % 0x100 == 0 && CascadeSlot(t % WORD) == SlotAt(j, Field(b, j))
    ensures Field(b, j) != 0 && t % Span(j) == 0 && t / Span(j) % 64 == b / Span(j) % 64
  {
    LowestFieldOfWord(t);
    var k := LowestField(t);
    SlotAtInjective(k, Field(t, k), j, Field(b, j));
    StepOnto(t, j);
  }

  lemma NotBeforeNextVisit(b: nat, j: nat, t: nat)
    requires 1 <= j <= 3 && b / Span(j) < t / Span(j) && t / Span(j) % 64 == b / Span(j) % 64
    ensures t >= NextVisit(b, j)
  {
    assert t / Span(j) >= b / Span(j) + 64;
    MulLe(b / Span(j) + 64, t / Span(j), Span(j));
  }

  lemma VisitedFromNextVisit(b: nat, j: nat, t: nat)
    requires 1 <= j <= 3 && t > 0 && b / Span(j) < t / Span(j)
    requires t % 0x100 == 0 && CascadeSlot(t % WORD) == SlotAt(j, Field(b, j))
    ensures Field(b, j) != 0 && t >= NextVisit(b, j)
  {
    VisitedAt(b, j, t);
    NotBeforeNextVisit(b, j, t);
  }

  lemma NotYetVisited(b: nat, j: nat, t: nat)
    requires 1 <= j <= 3 && t > 0 && b / Span(j) < t / Span(j) && (Field(b, j) == 0 || t < NextVisit(b, j))
    ensures Redistributed(Behindhand(b, j), b % WORD, t) == Behindhand(b, j)
  {
    if t % 0x100 == 0 && CascadeSlot(t % WORD) == SlotAt(j, Field(b, j)) {
      VisitedFromNextVisit(b, j, t);
    }
  }

  lemma BehindStays(b: nat, j: nat, t: nat)
    requires 1 <= j <= 3 && b / Span(j) < t / Span(j) && (Field(b, j) == 0 || t + 1 < NextVisit(b, j))
    ensures Turned(Behindhand(b, j), b % WORD, t) == Behindhand(b, j)
  {
    QuotientMonotone(t, t + 1, Span(j));
    NotYetVisited(b, j, t + 1);
  }

  lemma BehindWaits(b: nat, j: nat, t: nat, n: nat)
    requires 1 <= j <= 3 && b / Span(j) < t / Span(j) && (Field(b, j) == 0 || t + n < NextVisit(b, j))
    ensures Course(Behindhand(b, j), b % WORD, t, n) == Behindhand(b, j)
  {
    forall u: nat | t <= u < t + n ensures Fixes(TurnedBy(b % WORD), Behindhand(b, j), u) {
      QuotientMonotone(t, u, Span(j));
      BehindStays(b, j, u);
    }
    IteratedFixed(TurnedBy(b % WORD), Behindhand(b, j), t, n);
  }

  /* And when it is visited. */

  lemma NextVisitFields(b: nat, j: nat)
    requires 1 <= j <= 3 && Field(b, j) != 0
    ensures var t := NextVisit(b, j);
            t > 0 && t % 0x100 == 0 && CascadeSlot(t % WORD) == SlotAt(j, Field(b, j))
  {
    FieldIs(b, j);
    Visited(b / Span(j) + 64, j);
  }

  lemma FieldIs(b: nat, j: nat)
    requires 1 <= j <= 4
    ensures Field(b, j) == b / Span(j) % 64 == (b / Span(j) + 64) % 64
  {}

  lemma Visited(a: nat, j: nat)
    requires 1 <= j <= 3 && a % 64 != 0
    ensures var t := a * Span(j); t > 0 && t % 0x100 == 0 && CascadeSlot(t % WORD) == SlotAt(j, a % 64)
  {
    LowFieldsZero(a, j);
    CascadeSlotIs(a * Span(j), j);
  }

  lemma CascadeSlotIs(t: nat, j: nat)
    requires LowestField(t) == j
    ensures CascadeSlot(t % WORD) == SlotAt(j, Field(t, j))
  {
    LowestFieldOfWord(t);
  }

  lemma LowFieldsZero(a: nat, j: nat)
    requires 1 <= j <= 3 && a % 64 != 0
    ensures var t := a * Span(j); t > 0 && t % 0x100 == 0 && LowestField(t) == j && Field(t, j) == a % 64
  {
    if j == 1 {
      Multiple(a, 0x100);
    } else if j == 2 {
      Multiple(a, 0x4000);
      Multiple(64 * a, 0x100);
    } else {
      Multiple(a, 0x10_0000);
      Multiple(64 * a, 0x4000);
      Multiple(64 * (64 * a), 0x100);
    }
  }

  lemma Multiple(a: nat, d: nat)
    requires d >= 1
    ensures a * d / d == a && a * d % d == 0
  {
    Unique(a * d, d, a, 0);
  }

  /** From there it goes up to a higher wheel, past positions 63 only. */
  lemma NextVisitLevel(b: nat, j: nat) returns (k: nat)
    requires 1 <= j <= 3
    ensures k == Level(b, NextVisit(b, j)) && j < k <= 4
    ensures b / Span(k) + 1 == NextVisit(b, j) / Span(k)
    ensures forall i :: j < i < k ==> Field(b, i) == 63
  {
    var t := NextVisit(b, j);
    k := Level(b, t);
    Multiple(b / Span(j) + 64, Span(j));
    Levels(b, t, j);
  }

  /** Two ticks 64 positions apart on one wheel are one position apart on the next, and so on while they carry. */
  lemma Levels(b: nat, t: nat, j: nat)
    requires 1 <= j <= 3 && t / Span(j) == b / Span(j) + 64
    ensures var k := Level(b, t);
            && j < k <= 4 && b / Span(k) + 1 == t / Span(k)
            && forall i :: j < i < k ==> Field(b, i) == 63
  {
    Nested(b);
    Nested(t);
    if j <= 1 {
      Carry(b / 0x4000, t / 0x4000);
    }
    if j <= 2 {
      Carry(b / 0x10_0000, t / 0x10_0000);
    }
  }

  lemma Carry(a: nat, a': nat)
    requires a' == a + 1 || a' == a
    ensures a' / 64 == a / 64 || (a % 64 == 63 && a' / 64 == a / 64 + 1)
  {}

  /** Some field of b from upper wheel j - 1 to upper wheel 2 is zero. */
  predicate ZeroFrom(b: nat, j: nat) {
    exists k :: j <= k <= 3 && Field(b, k) == 0
  }

  lemma ZeroFromNext(b: nat, j: nat, k: nat)
    requires j <= k <= 4 && forall i :: j <= i < k ==> Field(b, i) != 0
    ensures ZeroFrom(b, j) <==> ZeroFrom(b, k)
  {
    if ZeroFrom(b, j) {
      var i :| j <= i <= 3 && Field(b, i) == 0;
      assert i >= k;
    }
  }

  /** A visit to a task that is behind sends it to its field of the next higher wheel that has not carried. */
  lemma BehindVisited(b: nat, j: nat, t: nat) returns (k: nat)
    requires 1 <= j <= 3 && Field(b, j) != 0 && t + 1 == NextVisit(b, j) && b / Span(j) < t / Span(j)
    ensures j < k <= 4 && b / Span(k) + 1 == (t + 1) / Span(k)
    ensures ZeroFrom(b, j) <==> ZeroFrom(b, k)
    ensures Turned(Behindhand(b, j), b % WORD, t) == Held(SlotAt(k, Field(b, k)))
  {
    NextVisitFields(b, j);
    k := NextVisitLevel(b, j);
    ZeroFromNext(b, j, k);
    BehindMoves(b, t + 1, k);
  }

  lemma BehindMoves(b: nat, t: nat, k: nat)
    requires 1 <= k <= 4 && k == Level(b, t) && (k == 4 ==> b / Span(4) + 1 == t / Span(4))
    ensures SlotOf(b % WORD, t % WORD) == SlotAt(k, Field(b, k))
  {
    LevelIsPrefix(b, t, 3);
    SlotOfIsPlace(b, t);
  }

  lemma NextVisitAhead(b: nat, j: nat, t: nat)
    requires 1 <= j <= 3 && t / Span(j) < b / Span(j) + 64
    ensures t < NextVisit(b, j) < b + WORD
  {
    assert t == t / Span(j) * Span(j) + t % Span(j) && b == b / Span(j) * Span(j) + b % Span(j);
    MulLe(t / Span(j) + 1, b / Span(j) + 64, Span(j));
    assert NextVisit(b, j) == b / Span(j) * Span(j) + 64 * Span(j);
  }

  /** On the top wheel a deadline gone by has the place of the same deadline a turn later. */
  lemma TopPlace(b: nat, t: nat)
    requires b / 0x400_0000 != t / 0x400_0000 && t / 0x400_0000 < b / 0x400_0000 + 64
    ensures Place(b + WORD, t) == SlotAt(4, Field(b, 4)) && (b + WORD) % WORD == b % WORD
  {
    QuotientOfSum(b, 0x400_0000, 64);
    LevelIsPrefix(b + WORD, t, 3);
    DropMultiple(b, WORD, 1);
  }

  lemma TopCourse(b: nat, t: nat, n: nat)
    requires b < t < b + WORD && b / 0x400_0000 != t / 0x400_0000 && t / 0x400_0000 < b / 0x400_0000 + 64
    ensures NextTurn(Course(Held(SlotAt(4, Field(b, 4))), b % WORD, t, n), b, t + n)
  {
    TopPlace(b, t);
    OnCourse(b + WORD, t, n);
  }

  predicate NextTurn(x: Whereabouts, b: nat, t: nat) {
    if t < b + WORD then x.Held? else x == Sent(b + WORD)
  }

  lemma CourseSplit(x: Whereabouts, e: uint32, t: nat, m: nat, n: nat)
    requires m <= n
    ensures Course(x, e, t, n) == Course(Course(x, e, t, m), e, t + m, n - m)
  {
    IteratedCompose(TurnedBy(e), x, t, m, n - m);
  }

  /** A task behind climbs from wheel to wheel until a zero field strands it or it is on course for its next turn. */
  lemma {:induction false} LateCourse(b: nat, j: nat, t: nat, n: nat)
    requires 1 <= j <= 3 && b / Span(j) < t / Span(j) < b / Span(j) + 64
    ensures var x := Course(Behindhand(b, j), b % WORD, t, n);
            if ZeroFrom(b, j) then x.Held? else NextTurn(x, b, t + n)
    decreases 4 - j
  {
    NextVisitAhead(b, j, t);
    var u := NextVisit(b, j);
    if Field(b, j) == 0 || t + n < u {
      BehindWaits(b, j, t, n);
    } else {
      var k := BehindUntilVisit(b, j, t, u - t);
      CourseSplit(Behindhand(b, j), b % WORD, t, u - t, n);
      if k <= 3 {
        LateCourse(b, k, u, n - (u - t));
      } else {
        GreaterQuotient(u, b, Span(4));
        TopCourse(b, u, n - (u - t));
      }
    }
  }

  lemma BehindUntilVisit(b: nat, j: nat, t: nat, m: nat) returns (k: nat)
    requires 1 <= j <= 3 && Field(b, j) != 0 && b / Span(j) < t / Span(j) && m > 0 && t + m == NextVisit(b, j)
    ensures j < k <= 4 && b / Span(k) + 1 == (t + m) / Span(k)
    ensures ZeroFrom(b, j) <==> ZeroFrom(b, k)
    ensures Course(Behindhand(b, j), b % WORD, t, m) == Held(SlotAt(k, Field(b, k)))
  {
    BehindWaits(b, j, t, m - 1);
    QuotientMonotone(t, t + (m - 1), Span(j));
    k := BehindVisited(b, j, t + (m - 1));
  }

  /* Altogether. */

  /** When a task due at d and inserted at tick now is dispatched, if ever. */
  function Fate(d: nat, now: nat): Option<nat> {
    var b := ThisTurn(d, now);
    if now <= b then Some(b)
    else if Level(b, now) == 0 then Some(b + TIME_NEAR)
    else if ZeroFrom(b, Level(b, now)) then None
    else Some(b + WORD)
  }

  /** The tick of the present turn that shows the same 32 bits as d. */
  function ThisTurn(d: nat, now: nat): nat {
    now / WORD * WORD + d % WORD
  }

  lemma ThisTurnIs(d: nat, now: nat)
    ensures var b := ThisTurn(d, now);
            && b % WORD == d % WORD && b / WORD == now / WORD && b < now + WORD
            && SlotOf(d % WORD, now % WORD) == Place(b, now)
  {
    var b := ThisTurn(d, now);
    Unique(b, WORD, now / WORD, d % WORD);
    Nested(b);
    Nested(now);
    SlotOfIsPlace(b, now);
  }

  ghost predicate Meets(x: Whereabouts, fate: Option<nat>, now: nat, n: nat) {
    if n > 0 && fate.Some? && fate.value <= now + n then x == Sent(fate.value) else x.Held?
  }

  lemma FateCourse(d: nat, now: nat, n: nat)
    ensures Meets(Course(Held(SlotOf(d % WORD, now % WORD)), d % WORD, now, n), Fate(d, now), now, n)
  {
    var b := ThisTurn(d, now);
    ThisTurnIs(d, now);
    if now <= b {
      OnCourse(b, now, n);
    } else {
      LateFateCourse(b, now, n);
    }
  }

  lemma LateFateCourse(b: nat, now: nat, n: nat)
    requires b < now && b / WORD == now / WORD
    ensures Meets(Course(Held(Place(b, now)), b % WORD, now, n), Fate(b, now), now, n)
  {
    var j := Level(b, now);
    assert ThisTurn(b, now) == b;
    if j == 0 {
      NearCourse(b, b % WORD, now, n);
    } else if j <= 3 {
      LevelBehind(b, now, j);
      LateCourse(b, j, now, n);
    } else {
      Nested(b);
      Nested(now);
      TopCourse(b, now, n);
    }
  }

  lemma LevelBehind(b: nat, t: nat, j: nat)
    requires b < t && j == Level(b, t) && 1 <= j <= 3
    ensures b / Span(j) < t / Span(j) < b / Span(j) + 64
  {
    LevelIsPrefix(b, t, j);
    LevelIsPrefix(b, t, j - 1);
    QuotientMonotone(b, t, Span(j));
    Nested(b);
    Nested(t);
  }

  /* Runs: a task's insert, followed through whatever comes after. */

  lemma {:induction false} RunWaiting(ops: seq<Op>)
    ensures Run(ops).calls == CountReads(ops) && Run(ops).waiting.Keys == Waiting(ops)
    ensures forall t :: t in Waiting(ops) ==> t < CountReads(ops) && Run(ops).waiting[t] == DueTick(ops, t) % WORD
  {
    WaitingBelow(ops);
    if ops != [] {
      var op, before := ops[|ops| - 1], ops[..|ops| - 1];
      RunWaiting(before);
      if op.Read? {
        RunTick(before);
        AddWord(CountTurns(before), op.ms / 10);
      }
    }
  }

  /** Of task t, the run has left nothing but x. */
  ghost predicate Shows(ops: seq<Op>, t: TaskId, x: Whereabouts, n: Node) {
    Thin(Run(ops).w, Just(t)) == Alone(x, n, CountTurns(ops))
  }

  lemma CountsSnoc(ops: seq<Op>, op: Op)
    ensures CountTurns(ops + [op]) == CountTurns(ops) + (if op.Turn? then 1 else 0)
    ensures CountReads(ops + [op]) == CountReads(ops) + (if op.Read? then 1 else 0)
    ensures Waiting(ops + [op]) == Waiting(ops) + (if op.Read? then {CountReads(ops)} else {})
                                   - (if op.Insert? then {op.task} else {})
  {
    assert (ops + [op])[..|ops|] == ops;
  }

  lemma AloneTurn(w: Wheel, t: TaskId, x: Whereabouts, n: Node, now: nat)
    requires Thin(w, Just(t)) == Alone(x, n, now)
    ensures Thin(Round(w), Just(t)) == Alone(Turned(x, n.expire, now), n, now + 1)
  {
    ThinRound(w, Just(t));
    AloneRound(x, n, now);
  }

  lemma ShowsTurn(ops: seq<Op>, t: TaskId, x: Whereabouts, n: Node)
    requires Shows(ops, t, x, n)
    ensures Shows(ops + [Turn], t, Turned(x, n.expire, CountTurns(ops)), n)
  {
    hide Run, Thin, Alone, Round, Turned;
    RunTurn(ops);
    AloneTurn(Run(ops).w, t, x, n, CountTurns(ops));
  }

  /** Other calls' steps do not show. */
  lemma ShowsNothing(ops: seq<Op>, op: Op, t: TaskId)
    requires !op.Turn? && (op == Insert(t) ==> t !in Waiting(ops))
    ensures Thin(Run(ops + [op]).w, Just(t)) == Thin(Run(ops).w, Just(t))
    ensures CountTurns(ops + [op]) == CountTurns(ops)
  {
    RunSnoc(ops, op);
    CountsSnoc(ops, op);
    RunWaiting(ops);
    ThinStep(Run(ops), op, Just(t));
  }

  /** A step that does not insert t leaves it alone, unless it is a round. */
  lemma ShowsStep(ops: seq<Op>, op: Op, t: TaskId, x: Whereabouts, n: Node)
    requires Shows(ops, t, x, n) && (op == Insert(t) ==> t !in Waiting(ops))
    ensures Shows(ops + [op], t, After(x, op, n, CountTurns(ops)), n)
  {
    if op.Turn? {
      ShowsTurn(ops, t, x, n);
    } else {
      ShowsNothing(ops, op, t);
    }
  }

  function After(x: Whereabouts, op: Op, n: Node, t: nat): Whereabouts {
    if op.Turn? then Turned(x, n.expire, t) else x
  }

  lemma NothingShown(t: TaskId, n: Node)
    ensures Shows([], t, Nowhere, n)
  {
    assert Thin(Empty(), Just(t)).q == Empty().q;
  }

  /** Until call t inserts, its task is nowhere. */
  lemma {:induction false} Unseen(ops: seq<Op>, t: TaskId, n: Node)
    requires t in Waiting(ops) || CountReads(ops) <= t
    ensures Shows(ops, t, Nowhere, n)
  {
    if ops == [] {
      NothingShown(t, n);
    } else {
      var op, before := ops[|ops| - 1], ops[..|ops| - 1];
      hide Run, Thin, Alone, Shows, Turned;
      WaitingBelow(before);
      Unseen(before, t, n);
      ShowsStep(before, op, t, Nowhere, n);
      assert before + [op] == ops;
    }
  }

  lemma InsertShows(ops: seq<Op>, t: TaskId)
    requires t in Waiting(ops) && t < CountReads(ops)
    ensures var d, now := DueTick(ops, t) % WORD, CountTurns(ops);
            Shows(ops + [Insert(t)], t, Held(SlotOf(d, now % WORD)), Node(d, t))
  {
    var n := Node(DueTick(ops, t) % WORD, t);
    RunWaiting(ops);
    RunTick(ops);
    Unseen(ops, t, n);
    RunSnoc(ops, Insert(t));
    CountsSnoc(ops, Insert(t));
    ThinStep(Run(ops), Insert(t), Just(t));
    AloneEmplace(n, CountTurns(ops));
  }

  function Trace(x: Whereabouts, n: Node, now: nat, more: seq<Op>): Whereabouts {
    if more == [] then x
    else
      var last, op := more[..|more| - 1], more[|more| - 1];
      After(Trace(x, n, now, last), op, n, now + CountTurns(last))
  }

  lemma {:induction false} TraceIsCourse(x: Whereabouts, n: Node, now: nat, more: seq<Op>)
    ensures Trace(x, n, now, more) == Course(x, n.expire, now, CountTurns(more))
  {
    if more != [] {
      TraceIsCourse(x, n, now, more[..|more| - 1]);
    }
  }

  lemma {:induction false} CountsConcat(ops: seq<Op>, t: TaskId, more: seq<Op>)
    requires t !in Waiting(ops) && t < CountReads(ops)
    ensures t !in Waiting(ops + more) && t < CountReads(ops + more)
    ensures CountTurns(ops + more) == CountTurns(ops) + CountTurns(more)
  {
    if more == [] {
      assert ops + more == ops;
    } else {
      var last, op := more[..|more| - 1], more[|more| - 1];
      CountsConcat(ops, t, last);
      CountsSnoc(ops + last, op);
      assert ops + last + [op] == ops + more;
    }
  }

  /** From then on it takes its own course, whatever the run does besides. */
  lemma {:induction false} Followed(ops: seq<Op>, t: TaskId, x: Whereabouts, n: Node, more: seq<Op>)
    requires Shows(ops, t, x, n) && t !in Waiting(ops) && t < CountReads(ops)
    ensures Shows(ops + more, t, Trace(x, n, CountTurns(ops), more), n)
  {
    if more == [] {
      assert ops + more == ops;
    } else {
      var last, op := more[..|more| - 1], more[|more| - 1];
      Followed(ops, t, x, n, last);
      CountsConcat(ops, t, last);
      FollowedStep(ops + last, op, t, Trace(x, n, CountTurns(ops), last), Trace(x, n, CountTurns(ops), more), n);
      assert ops + last + [op] == ops + more;
    }
  }

  lemma FollowedStep(ops: seq<Op>, op: Op, t: TaskId, x: Whereabouts, y: Whereabouts, n: Node)
    requires Shows(ops, t, x, n) && t !in Waiting(ops) && y == After(x, op, n, CountTurns(ops))
    ensures Shows(ops + [op], t, y, n)
  {
    ShowsStep(ops, op, t, x, n);
  }

  /** All that a wheel with one task says of it. */
  lemma MeetsLog(x: Whereabouts, n: Node, fate: Option<nat>, now: nat, k: nat)
    requires Meets(x, fate, now, k)
    ensures Alone(x, n, now + k).log
            == if k > 0 && fate.Some? && fate.value <= now + k then [Dispatch(n.task, fate.value % WORD)] else []
  {}

  /** The fate of every insert, in time or late, in every run: all that the log ever says of it. */
  lemma InsertFate(ops: seq<Op>, t: TaskId, more: seq<Op>)
    requires t in Waiting(ops) && t < CountReads(ops)
    ensures var log, fate := Run(ops + [Insert(t)] + more).w.log, Fate(DueTick(ops, t), CountTurns(ops));
            Picked(log, DispatchIn(Just(t)))
            == if CountTurns(more) > 0 && fate.Some? && fate.value <= CountTurns(ops) + CountTurns(more)
               then [Dispatch(t, fate.value % WORD)] else []
  {
    var d, now, n := DueTick(ops, t), CountTurns(ops), Node(DueTick(ops, t) % WORD, t);
    var x := Held(SlotOf(d % WORD, now % WORD));
    InsertShows(ops, t);
    CountsSnoc(ops, Insert(t));
    CountsConcat(ops + [Insert(t)], t, more);
    Followed(ops + [Insert(t)], t, x, n, more);
    TraceIsCourse(x, n, now, more);
    FateCourse(d, now, CountTurns(more));
    MeetsLog(Course(x, d % WORD, now, CountTurns(more)), n, Fate(d, now), now, CountTurns(more));
  }
}
