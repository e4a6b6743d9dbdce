/** The geometry of the wheels: a 32-bit tick split into one 8-bit and four 6-bit fields. */
module Geometry {
  import opened Bits

  const TIME_NEAR_SHIFT: nat := 8
  const TIME_NEAR: nat := 256
  const TIME_NEAR_MASK: nat := 255
  const TIME_LEVEL_SHIFT: nat := 6
  const TIME_LEVEL: nat := 64
  const TIME_LEVEL_MASK: nat := 63
  const TIME_LEVEL_COUNT: nat := 4

  /** 256 near slots followed by the slots of the four upper wheels. */
  const SLOTS: nat := 512

  type Slot = s: nat | s < SLOTS

  /** Ticks per position of field j; field 0 is the near wheel, field j > 0 is upper wheel j - 1. */
  function Span(j: nat): (n: nat)
    ensures n >= 1
  {
    if j == 0 then 1
    else if j == 1 then 0x100
    else if j == 2 then 0x4000
    else if j == 3 then 0x10_0000
    else if j == 4 then 0x400_0000
    else WORD
  }

  function Field(x: nat, j: nat): (f: nat)
    ensures f < 256 && (j > 0 ==> f < 64)
  {
    if j == 0 then x % 0x100
    else if j == 1 then x / 0x100 % 64
    else if j == 2 then x / 0x4000 % 64
    else if j == 3 then x / 0x10_0000 % 64
    else x / 0x400_0000 % 64
  }

  function SlotAt(j: nat, i: nat): Slot
    requires j <= 4 && i < (if j == 0 then 256 else 64)
  {
    if j == 0 then i else 256 + 64 * (j - 1) + i
  }

  /** The field a slot indexes. */
  function FieldOf(s: Slot): (j: nat)
    ensures j <= 4
  {
    if s < 256 then 0 else (s - 256) / 64 + 1
  }

  /** The most significant field in which two ticks differ, 0 if only the low 8 bits may. */
  function TopDifference(e: nat, t: nat): (j: nat)
    ensures j <= 4
  {
    if Field(e, 4) != Field(t, 4) then 4
    else if Field(e, 3) != Field(t, 3) then 3
    else if Field(e, 2) != Field(t, 2) then 2
    else if Field(e, 1) != Field(t, 1) then 1
    else 0
  }

  /** Where a task that expires at tick e belongs when the wheel stands at tick t. */
  function SlotOf(e: uint32, t: uint32): Slot {
    var j := TopDifference(e, t);
    SlotAt(j, Field(e, j))
  }

  /** The slot that a step onto tick t (a multiple of 256) has to redistribute. */
  function CascadeSlot(t: uint32): Slot {
    var j := LowestField(t);
    SlotAt(j, Field(t, j))
  }

  /** The least upper field of t that is not zero; 4 when they all are. */
  function LowestField(t: nat): (j: nat)
    ensures 1 <= j <= 4
  {
    if Field(t, 1) != 0 then 1
    else if Field(t, 2) != 0 then 2
    else if Field(t, 3) != 0 then 3
    else 4
  }

  /** The same level, read off unbounded ticks. */
  function Level(d: nat, t: nat): (j: nat)
    ensures j <= 4
  {
    if d / 0x100 == t / 0x100 then 0
    else if d / 0x4000 == t / 0x4000 then 1
    else if d / 0x10_0000 == t / 0x10_0000 then 2
    else if d / 0x400_0000 == t / 0x400_0000 then 3
    else 4
  }

  /** Where a task due at absolute tick d is kept while the absolute time is t. */
  function Place(d: nat, t: nat): Slot {
    var j := Level(d, t);
    SlotAt(j, Field(d, j))
  }

  /** Bits above field j agree iff no higher field differs. */
  lemma TopDifferenceIsPrefix(e: uint32, t: uint32)
    ensures TopDifference(e, t) <= 0 <==> e / 0x100 == t / 0x100
    ensures TopDifference(e, t) <= 1 <==> e / 0x4000 == t / 0x4000
    ensures TopDifference(e, t) <= 2 <==> e / 0x10_0000 == t / 0x10_0000
    ensures TopDifference(e, t) <= 3 <==> e / 0x400_0000 == t / 0x400_0000
  {
    TopFieldOfWord(e);
    TopFieldOfWord(t);
    FieldSplitsPrefix(e, t, 3);
    FieldSplitsPrefix(e, t, 2);
    FieldSplitsPrefix(e, t, 1);
  }

  lemma TopFieldOfWord(x: uint32)
    ensures Field(x, 4) == x / 0x400_0000
  {}

  lemma FieldSplitsPrefix(e: nat, t: nat, j: nat)
    requires 1 <= j <= 3
    ensures e / Span(j) == t / Span(j) <==> e / Span(j + 1) == t / Span(j + 1) && Field(e, j) == Field(t, j)
  {
    Nested(e);
    Nested(t);
    Digits(e / Span(j), t / Span(j));
  }

  lemma Digits(a: nat, b: nat)
    ensures a == b <==> a / 64 == b / 64 && a % 64 == b % 64
  {}

  lemma Nested(x: nat)
    ensures x / 0x4000 == x / 0x100 / 64
    ensures x / 0x10_0000 == x / 0x4000 / 64
    ensures x / 0x400_0000 == x / 0x10_0000 / 64
    ensures x / WORD == x / 0x400_0000 / 64
  {}

  lemma FieldOfWord(x: nat, j: nat)
    requires j <= 4
    ensures Field(x % WORD, j) == Field(x, j)
  {
    var q, r := x / WORD, x % WORD;
    assert x == WORD * q + r;
    if j == 0 {
      DropMultiple(r, 0x100, 0x100_0000 * q);
    } else if j == 1 {
      FieldOfSum(r, 0x100, 0x4_0000 * q);
    } else if j == 2 {
      FieldOfSum(r, 0x4000, 0x1000 * q);
    } else if j == 3 {
      FieldOfSum(r, 0x10_0000, 64 * q);
    } else {
      FieldOfSum(r, 0x400_0000, q);
    }
  }

  lemma FieldOfSum(r: nat, d: nat, m: nat)
    requires d >= 1
    ensures (m * (64 * d) + r) / d % 64 == r / d % 64
  {
    assert m * (64 * d) == 64 * m * d;
    QuotientOfSum(r, d, 64 * m);
    DropMultiple(r / d, 64, m);
  }

  lemma QuotientOfSum(r: nat, d: nat, m: nat)
    requires d >= 1
    ensures (m * d + r) / d == m + r / d
  {
    assert m * d + r == (m + r / d) * d + r % d;
    Unique(m * d + r, d, m + r / d, r % d);
  }

  lemma DropMultiple(r: nat, d: nat, m: nat)
    requires d >= 1
    ensures (m * d + r) % d == r % d
  {
    assert m * d + r == (m + r / d) * d + r % d;
    Unique(m * d + r, d, m + r / d, r % d);
  }

  /** The 32-bit choice of slot is the unbounded one wherever the top field tells the two ticks apart. */
  lemma SlotOfIsPlace(d: nat, t: nat)
    requires Field(d, 4) == Field(t, 4) ==> d / 0x400_0000 == t / 0x400_0000
    ensures SlotOf(d % WORD, t % WORD) == Place(d, t)
  {
    forall j | 0 <= j <= 4
      ensures Field(d % WORD, j) == Field(d, j) && Field(t % WORD, j) == Field(t, j)
    {
      FieldOfWord(d, j);
      FieldOfWord(t, j);
    }
    FieldSplitsPrefix(d, t, 3);
    FieldSplitsPrefix(d, t, 2);
    FieldSplitsPrefix(d, t, 1);
  }

  /** So it is on deadlines less than half a turn ahead. */
  lemma PlaceIsSlotOf(d: nat, t: nat)
    requires t <= d < t + 0x8000_0000
    ensures SlotOf(d % WORD, t % WORD) == Place(d, t)
  {
    TopFieldDecides(d, t);
    SlotOfIsPlace(d, t);
  }

  lemma TopFieldDecides(d: nat, t: nat)
    requires t <= d < t + 0x8000_0000
    ensures Field(d, 4) == Field(t, 4) <==> d / 0x400_0000 == t / 0x400_0000
  {
    var a, b := d / 0x400_0000, t / 0x400_0000;
    assert b <= a <= b + 33;
  }

  /** At the start of a top-level block the field decides for a whole turn ahead. */
  lemma TopFieldDecidesAt(d: nat, t: nat)
    requires t <= d < t + WORD && t % 0x400_0000 == 0
    ensures Field(d, 4) == Field(t, 4) <==> d / 0x400_0000 == t / 0x400_0000
  {
    var a, b := d / 0x400_0000, t / 0x400_0000;
    assert b <= a < b + 64;
  }

  lemma LevelIsPrefix(d: nat, t: nat, j: nat)
    requires j <= 3
    ensures Level(d, t) <= j <==> d / Span(j + 1) == t / Span(j + 1)
  {
    Nested(d);
    Nested(t);
  }

  /** Stepping onto t moves exactly the prefixes up to its lowest non-zero field. */
  lemma StepOnto(t: nat, j: nat)
    requires t > 0 && t % 0x100 == 0 && 1 <= j <= 4
    ensures j <= LowestField(t) ==> t % Span(j) == 0 && t / Span(j) == (t - 1) / Span(j) + 1
    ensures j > LowestField(t) ==> t / Span(j) == (t - 1) / Span(j)
  {
    Nested(t);
    LowDigits(t, 0x100);
    LowDigits(t, 0x4000);
    LowDigits(t, 0x10_0000);
    if t % Span(j) == 0 {
      PreviousBlock(t, Span(j));
    } else {
      SameBlock(t, Span(j));
    }
  }

  lemma LowDigits(t: nat, d: nat)
    requires d >= 1
    ensures t % (64 * d) == t / d % 64 * d + t % d
  {
    var a, r := t / d, t % d;
    assert t == a * d + r;
    Regrouped(a / 64, a % 64, r, d);
    assert a == 64 * (a / 64) + a % 64;
    Unique(t, 64 * d, a / 64, a % 64 * d + r);
  }

  lemma Regrouped(q: nat, f: nat, r: nat, d: nat)
    requires f < 64 && r < d
    ensures (64 * q + f) * d + r == q * (64 * d) + (f * d + r) && f * d + r < 64 * d
  {
    MulLe(f, 63, d);
    assert (64 * q + f) * d == 64 * q * d + f * d;
    assert 64 * q * d == q * (64 * d);
  }

  lemma PreviousBlock(t: nat, d: nat)
    requires d >= 1 && t > 0 && t % d == 0
    ensures (t - 1) / d == t / d - 1
  {
    assert t == t / d * d;
    assert t / d >= 1;
    assert t - 1 == (t / d - 1) * d + (d - 1);
    Unique(t - 1, d, t / d - 1, d - 1);
  }

  lemma SameBlock(t: nat, d: nat)
    requires d >= 1 && t % d != 0
    ensures t > 0 && (t - 1) / d == t / d
  {
    assert t == t / d * d + t % d;
    MulLe(0, t / d, d);
    Unique(t - 1, d, t / d, t % d - 1);
  }

  lemma LowestFieldOfWord(t: nat)
    ensures LowestField(t % WORD) == LowestField(t)
    ensures Field(t % WORD, LowestField(t)) == Field(t, LowestField(t))
  {
    FieldOfWord(t, 1);
    FieldOfWord(t, 2);
    FieldOfWord(t, 3);
    FieldOfWord(t, 4);
  }

  /** When time enters a new block, everything still pending sits at the redistributed level or above. */
  lemma LowLevelsAreDone(d: nat, t: nat)
    requires t > 0 && t % 0x100 == 0 && t <= d
    ensures Level(d, t - 1) >= LowestField(t)
  {
    var j := LowestField(t);
    StepOnto(t, j);
    LevelIsPrefix(d, t - 1, j - 1);
    QuotientMonotone(t, d, Span(j));
  }

  lemma QuotientMonotone(x: nat, y: nat, d: nat)
    requires x <= y && d >= 1
    ensures x / d <= y / d
  {
    if x / d > y / d {
      GreaterQuotient(x, y, d);
    }
  }

  lemma GreaterQuotient(x: nat, y: nat, d: nat)
    requires d >= 1 && x / d > y / d
    ensures x > y
  {
    assert x == x / d * d + x % d && y == y / d * d + y % d;
    MulLe(y / d + 1, x / d, d);
  }

  /** A step of time leaves every pending task in its place, except those in the one slot it redistributes. */
  lemma StepMovesOneSlot(d: nat, t: nat)
    requires 0 < t <= d
    ensures Place(d, t) != Place(d, t - 1) ==>
              t % 0x100 == 0 && Place(d, t - 1) == CascadeSlot(t % WORD)
  {
    if t % 0x100 != 0 {
      SamePrefixes(t);
    } else {
      var j := LowestField(t);
      LowestFieldOfWord(t);
      LowLevelsAreDone(d, t);
      var l := Level(d, t - 1);
      if l > j {
        LevelAboveKept(d, t, l);
      } else if d / Span(j) == t / Span(j) {
      } else {
        LevelAtKept(d, t);
      }
    }
  }

  lemma SamePrefixes(t: nat)
    requires t % 0x100 != 0
    ensures t > 0 && forall d: nat :: Level(d, t) == Level(d, t - 1)
  {
    SameBlock(t, 0x100);
    Nested(t);
    Nested(t - 1);
  }

  lemma LevelAboveKept(d: nat, t: nat, l: nat)
    requires t > 0 && t % 0x100 == 0 && l == Level(d, t - 1) > LowestField(t)
    ensures Level(d, t) == l
  {
    StepOnto(t, l);
    LevelIsPrefix(d, t, l - 1);
    LevelIsPrefix(d, t - 1, l - 1);
    if l < 4 {
      StepOnto(t, l + 1);
      LevelIsPrefix(d, t, l);
      LevelIsPrefix(d, t - 1, l);
    }
  }

  lemma LevelAtKept(d: nat, t: nat)
    requires t > 0 && t % 0x100 == 0 && Level(d, t - 1) == LowestField(t)
    requires d / Span(LowestField(t)) != t / Span(LowestField(t))
    ensures Level(d, t) == LowestField(t)
  {
    var j := LowestField(t);
    LevelIsPrefix(d, t, j - 1);
    if j < 4 {
      StepOnto(t, j + 1);
      LevelIsPrefix(d, t, j);
      LevelIsPrefix(d, t - 1, j);
    }
  }

  /** Every task of the redistributed slot goes strictly down. */
  lemma CascadeDescends(d: nat, t: nat)
    requires 0 < t <= d < t + WORD && t % 0x100 == 0
    requires Place(d, t - 1) == CascadeSlot(t % WORD)
    ensures Level(d, t) < LowestField(t) == Level(d, t - 1)
  {
    var j := LowestField(t);
    LowestFieldOfWord(t);
    assert Level(d, t - 1) == j && Field(d, j) == Field(t, j) by {
      SlotAtInjective(Level(d, t - 1), Field(d, Level(d, t - 1)), j, Field(t, j));
    }
    if j < 4 {
      StepOnto(t, j + 1);
      LevelIsPrefix(d, t - 1, j);
      FieldSplitsPrefix(d, t, j);
    } else {
      StepOnto(t, 4);
      TopFieldDecidesAt(d, t);
    }
    LevelIsPrefix(d, t, j - 1);
  }

  lemma SlotAtInjective(j: nat, i: nat, j': nat, i': nat)
    requires j <= 4 && i < (if j == 0 then 256 else 64)
    requires j' <= 4 && i' < (if j' == 0 then 256 else 64)
    ensures SlotAt(j, i) == SlotAt(j', i') <==> j == j' && i == i'
    ensures FieldOf(SlotAt(j, i)) == j
  {}
}
