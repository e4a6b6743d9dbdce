/** The level search with the shift that line 208 spells: how far it carries. */
module WrittenShift {
  import opened Bits
  import opened Geometry
  import opened Wheels
  import opened Wrappers
  import opened Reference
  import opened Runs
  import opened Refinement

  /** With the written shift a run survives iff it stays below tick 2^14, and then it is the intended run. */
  lemma {:induction false} WrittenRunSurvives(ops: seq<Op>)
    ensures RunWith(ops, WRITTEN_STEP).Some? <==> CountTurns(ops) < 0x4000
    ensures RunWith(ops, WRITTEN_STEP).Some? ==> RunWith(ops, WRITTEN_STEP).value == Run(ops)
  {
    hide Step, Round, RoundWith;
    if ops != [] {
      var op, before := ops[|ops| - 1], ops[..|ops| - 1];
      WrittenRunSurvives(before);
      if op.Turn? && CountTurns(before) < 0x4000 {
        RunTick(before);
        WrittenTurn(Run(before), CountTurns(ops));
      }
    }
  }

  /** One round onto absolute tick n, at or below the first multiple of 2^14. */
  lemma WrittenTurn(m: Machine, n: nat)
    requires 0 < n <= 0x4000 && m.w.tick == n - 1
    ensures StepWith(m, Turn, WRITTEN_STEP) == if n < 0x4000 then Some(Step(m, Turn)) else None
  {
    WrittenRound(m.w, n);
  }

  lemma WrittenRound(w: Wheel, n: nat)
    requires 0 < n <= 0x4000 && w.tick == n - 1
    ensures RoundWith(w, WRITTEN_STEP) == if n < 0x4000 then Some(Round(w)) else None
  {
    WrittenShiftOnto(Execute(w), n);
  }

  lemma WrittenShiftOnto(w: Wheel, n: nat)
    requires 0 < n <= 0x4000 && w.tick == n - 1
    ensures ShiftWith(w, WRITTEN_STEP) == if n < 0x4000 then Some(Shift(w)) else None
  {
    ShiftUnlessStuck(w, WRITTEN_STEP);
    WrittenSearch(n);
  }

  lemma WrittenSearch(n: nat)
    requires 0 < n <= 0x4000
    ensures n % TIME_NEAR == 0 && Search(n / TIME_NEAR, 0, WRITTEN_STEP).Stuck? <==> n == 0x4000
  {
    if n % TIME_NEAR == 0 {
      SearchTarget(n, WRITTEN_STEP);
    }
  }
}
