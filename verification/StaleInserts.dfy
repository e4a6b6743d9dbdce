/** Inserts that come more rounds after their read than their own delay. */
module StaleInserts {
  import opened Bits
  import opened Geometry
  import opened Filters
  import opened Wheels
  import opened Location
  import opened Reference
  import opened Runs
  import opened Refinement
  import opened Thinning
  import opened Punctuality
  import opened Fates
  import opened Wrappers

  predicate Logged(w: Wheel, t: TaskId) {
    exists i :: 0 <= i < |w.log| && w.log[i].task == t
  }

  lemma LoggedIff(w: Wheel, t: TaskId)
    ensures Logged(w, t) <==> Picked(w.log, DispatchIn(Just(t))) != []
  {
    if Logged(w, t) {
      var i :| 0 <= i < |w.log| && w.log[i].task == t;
      PickedAt(w.log, DispatchIn(Just(t)), i);
    } else {
      PickedNone(w.log, DispatchIn(Just(t)));
    }
  }

  lemma {:induction false} CountsOfTurns(n: nat)
    ensures CountTurns(Turns(n)) == n && CountReads(Turns(n)) == 0 && Waiting(Turns(n)) == {}
  {
    if n > 0 {
      CountsOfTurns(n - 1);
      CountsSnoc(Turns(n - 1), Turn);
    }
  }

  /* Lost inserts. */

  /** If call t inserts now, no continuation of the run ever dispatches its task. */
  ghost predicate Lost(ops: seq<Op>, t: TaskId) {
    forall more :: !Logged(Run(ops + [Insert(t)] + more).w, t)
  }

  lemma LostIffNoFate(ops: seq<Op>, t: TaskId)
    requires t in Waiting(ops) && t < CountReads(ops)
    ensures Lost(ops, t) <==> Fate(DueTick(ops, t), CountTurns(ops)).None?
  {
    hide Run, Fate, Picked, Logged, DispatchIn;
    var fate := Fate(DueTick(ops, t), CountTurns(ops));
    if fate.None? {
      forall more ensures !Logged(Run(ops + [Insert(t)] + more).w, t) {
        InsertFate(ops, t, more);
        LoggedIff(Run(ops + [Insert(t)] + more).w, t);
      }
    } else {
      var more := Turns(fate.value + 1);
      CountsOfTurns(fate.value + 1);
      InsertFate(ops, t, more);
      LoggedIff(Run(ops + [Insert(t)] + more).w, t);
      assert Logged(Run(ops + [Insert(t)] + more).w, t);
    }
  }

  /** In time, for any delay that can be asked for, a task is dispatched at its tick. */
  lemma TimelyFate(d: nat, now: nat)
    requires now <= d < now + HALF_TURN
    ensures Fate(d, now) == Some(d)
  {
    var b := ThisTurn(d, now);
    ThisTurnIs(d, now);
    if d / WORD == now / WORD {
      Unique(d, WORD, now / WORD, d % WORD);
      assert b == d;
    } else {
      NextTurnIs(d, now);
      assert b + WORD == d;
      assert Level(b, now) == 4;
    }
  }

  lemma NextTurnIs(d: nat, now: nat)
    requires now <= d < now + WORD && d / WORD != now / WORD
    ensures d == (now / WORD + 1) * WORD + d % WORD
  {
    QuotientMonotone(now, d, WORD);
    assert d == d / WORD * WORD + d % WORD && now == now / WORD * WORD + now % WORD;
    MulLe(d / WORD, now / WORD + 1, WORD);
  }

  /** Too late by less than a turn: caught in the next block, on time a turn later, or never. */
  lemma LateFate(d: nat, now: nat)
    requires d < now < d + WORD
    ensures Fate(d, now) == if Level(d, now) == 0 then Some(d + TIME_NEAR)
                            else if ZeroFrom(d, Level(d, now)) then None
                            else Some(d + WORD)
  {
    if d / WORD == now / WORD {
      Unique(d, WORD, now / WORD, d % WORD);
      assert ThisTurn(d, now) == d;
    } else {
      LastTurnIs(d, now);
    }
  }

  /** A tick of the previous turn comes round again in this one. */
  lemma LastTurnIs(d: nat, now: nat)
    requires d < now < d + WORD && d / WORD != now / WORD
    ensures ThisTurn(d, now) == d + WORD && Level(d, now) == 4
  {
    QuotientMonotone(d, now, WORD);
    assert d == d / WORD * WORD + d % WORD && now == now / WORD * WORD + now % WORD;
    MulLe(now / WORD, d / WORD + 1, WORD);
    Nested(d);
    Nested(now);
  }

  /** Exactly when a late insert is lost: time has left the task's block at some upper wheel, and from that wheel to
      upper wheel 2 its due tick has a zero field. */
  lemma LateInsertLostIff(ops: seq<Op>, t: TaskId)
    requires t in Waiting(ops) && t < CountReads(ops)
    requires DueTick(ops, t) < CountTurns(ops) < DueTick(ops, t) + WORD
    ensures Lost(ops, t) <==> var d, j := DueTick(ops, t), Level(DueTick(ops, t), CountTurns(ops));
                              j >= 1 && ZeroFrom(d, j)
  {
    LostIffNoFate(ops, t);
    LateFate(DueTick(ops, t), CountTurns(ops));
  }

  /* When an insert that is already due, or due next, is served by the round that follows it. */

  /** The latenesses at which a late insert is caught by the very next round: whole turns, one round short of whole
      turns, and besides, at the last tick of a block, the whole of that block. */
  predicate CaughtLate(d: nat, now: nat)
    requires d < now
  {
    var late := (now - d) % WORD;
    late == 0 || late == WORD - 1 || (late == TIME_NEAR - 1 && now % TIME_NEAR == TIME_NEAR - 1)
  }

  lemma LatenessInTurn(d: nat, now: nat)
    requires d < now
    ensures var b, late := ThisTurn(d, now), (now - d) % WORD;
            now - b == if b <= now then late else late - WORD
  {
    var b := ThisTurn(d, now);
    ThisTurnIs(d, now);
    QuotientMonotone(d, now, WORD);
    var turns, ahead := b / WORD - d / WORD, now - b;
    assert now - d == turns * WORD + ahead by {
      assert b == b / WORD * WORD + b % WORD && d == d / WORD * WORD + d % WORD;
    }
    InTurn(now - d, turns, ahead);
  }

  lemma InTurn(x: nat, turns: nat, ahead: int)
    requires x == turns * WORD + ahead && 0 - WORD < ahead < WORD
    ensures x % WORD == if ahead >= 0 then ahead else ahead + WORD
  {
    if ahead >= 0 {
      Unique(x, WORD, turns, ahead);
    } else {
      Unique(x, WORD, turns - 1, ahead + WORD);
    }
  }

  /** Of a task already due, or due next. */
  lemma FateSoon(d: nat, now: nat)
    requires d <= now + 1
    ensures Fate(d, now).Some? && Fate(d, now).value <= now + 1 <==> now <= d || CaughtLate(d, now)
  {
    if now <= d {
      TimelyFate(d, now);
    } else {
      LatenessInTurn(d, now);
      ThisTurnIs(d, now);
      var b := ThisTurn(d, now);
      if b < now {
        LateFateSoon(b, now);
      } else if now % TIME_NEAR == TIME_NEAR - 1 {
        FullBlockFits(b, now);
      }
    }
  }

  /** A tick still to come in this turn is not that far ahead. */
  lemma FullBlockFits(b: nat, now: nat)
    requires now <= b && b / WORD == now / WORD && now % TIME_NEAR == TIME_NEAR - 1
    ensures b - now < WORD - TIME_NEAR + 1
  {
    FieldOfWord(now, 0);
    LowByteOfWord(now % WORD);
    assert b == b / WORD * WORD + b % WORD && now == now / WORD * WORD + now % WORD;
  }

  lemma LowByteOfWord(x: nat)
    requires x % TIME_NEAR == TIME_NEAR - 1
    ensures x >= TIME_NEAR - 1
  {}

  lemma LateFateSoon(b: nat, now: nat)
    requires b < now && b / WORD == now / WORD
    ensures Fate(b, now).Some? && Fate(b, now).value <= now + 1
            <==> now - b == WORD - 1 || (now - b == TIME_NEAR - 1 && now % TIME_NEAR == TIME_NEAR - 1)
  {
    Unique(b, WORD, now / WORD, b % WORD);
    var j := Level(b, now);
    if j == 0 {
      assert now - b < TIME_NEAR;
    } else if j <= 3 {
      LevelIsPrefix(b, now, 3);
      assert now - b < 0x400_0000;
    } else if now - b == WORD - 1 {
      assert ZeroFrom(b, 4) == false;
    }
  }

  /** Due by the next tick, a task is served by the next round iff its insert kept within its delay or is caught late. */
  lemma DueInsertServedIff(ops: seq<Op>, t: TaskId)
    requires t in Waiting(ops) && t < CountReads(ops) && DueTick(ops, t) <= CountTurns(ops) + 1
    ensures Logged(Run(ops + [Insert(t)] + [Turn]).w, t)
            <==> CountTurns(ops) <= DueTick(ops, t) || CaughtLate(DueTick(ops, t), CountTurns(ops))
  {
    assert [Turn][..0] == [] && CountTurns([Turn]) == 1;
    InsertFate(ops, t, [Turn]);
    LoggedIff(Run(ops + [Insert(t)] + [Turn]).w, t);
    FateSoon(DueTick(ops, t), CountTurns(ops));
  }

  /* One round between read and insert, for a call of less than 10 ms. */

  function OneRoundLate(n: nat): seq<Op> {
    Turns(n) + [Read(9)] + [Turn]
  }

  lemma OneRoundLateCounts(n: nat)
    ensures var ops := OneRoundLate(n);
            Waiting(ops) == {0} && CountReads(ops) == 1 && DueTick(ops, 0) == n && CountTurns(ops) == n + 1
  {
    var a, b := Turns(n), Turns(n) + [Read(9)];
    CountsOfTurns(n);
    CountsSnoc(a, Read(9));
    CountsSnoc(b, Turn);
    assert b[..|b| - 1] == a && (b + [Turn])[..|b|] == b;
  }

  /** Such a call is lost exactly at the end of a block if one of the due tick's fields of upper wheels 0 to 2 is zero. */
  lemma OneRoundLateLostIff(n: nat)
    ensures Lost(OneRoundLate(n), 0) <==> n % TIME_NEAR == TIME_NEAR - 1 && ZeroFrom(n, 1)
  {
    OneRoundLateCounts(n);
    LateInsertLostIff(OneRoundLate(n), 0);
    if n % TIME_NEAR == TIME_NEAR - 1 {
      assert n / 0x100 + 1 == (n + 1) / 0x100;
      NextBlock(n, n + 1);
      ZeroFromNext(n, 1, Level(n, n + 1));
    } else {
      assert n / 0x100 == (n + 1) / 0x100;
    }
  }

  lemma NextBlock(b: nat, t: nat)
    requires t / 0x100 == b / 0x100 + 1
    ensures Level(b, t) >= 1 && forall i :: 1 <= i < Level(b, t) ==> Field(b, i) == 63
  {
    Nested(b);
    Nested(t);
    Carry(b / 0x100, t / 0x100);
    Carry(b / 0x4000, t / 0x4000);
    Carry(b / 0x10_0000, t / 0x10_0000);
  }

  /* Where lost tasks lie. */

  lemma RoundSkips(w: Wheel, s: Slot)
    requires IsUnvisited(s)
    ensures w.q[s] <= Round(w).q[s]
  {
    var e := Advance(Execute(w));
    var c := CascadeSlot(e.tick);
    if e.tick % TIME_NEAR == 0 {
      var j := LowestField(e.tick);
      SlotAtInjective(j, Field(e.tick, j), FieldOf(s), 0);
      EmplaceAllAt(e.(q := e.q[c := []]), e.q[c], s);
      EmplaceAllAt(e.(q := e.q[c := []]), e.q[c], c);
    }
  }

  /** What lies in an unvisited position stays there, in every run. */
  lemma {:induction false} Stranded(ops: seq<Op>, s: Slot, more: seq<Op>)
    requires IsUnvisited(s)
    ensures Run(ops).w.q[s] <= Run(ops + more).w.q[s]
  {
    if more == [] {
      assert ops + more == ops;
    } else {
      var last, op := more[..|more| - 1], more[|more| - 1];
      Stranded(ops, s, last);
      RunSnoc(ops + last, op);
      assert ops + last + [op] == ops + more;
      match op {
        case Read(_) =>
        case Insert(_) =>
        case Turn => RoundSkips(Run(ops + last).w, s);
      }
    }
  }

  /** A late insert goes straight to one exactly when time has left its block at upper wheel 0, 1 or 2 and its field there is zero. */
  lemma LateInsertStranded(d: nat, now: nat)
    requires d < now < d + WORD
    ensures IsUnvisited(SlotOf(d % WORD, now % WORD)) <==> 1 <= Level(d, now) <= 3 && Field(d, Level(d, now)) == 0
  {
    var b := ThisTurn(d, now);
    ThisTurnIs(d, now);
    UnvisitedPlace(b, now);
    if d / WORD == now / WORD {
      Unique(d, WORD, now / WORD, d % WORD);
    } else {
      LastTurnIs(d, now);
      if 1 <= Level(b, now) && Field(b, Level(b, now)) == 0 {
        PositionZero(b, now);
      }
    }
  }

  lemma UnvisitedPlace(b: nat, now: nat)
    ensures IsUnvisited(Place(b, now)) <==> 1 <= Level(b, now) <= 3 && Field(b, Level(b, now)) == 0
  {
    var j := Level(b, now);
    SlotAtInjective(j, Field(b, j), 1, 0);
    SlotAtInjective(j, Field(b, j), 2, 0);
    SlotAtInjective(j, Field(b, j), 3, 0);
  }
}
