/** Class `timer`, over arrays of queues and bit operations as the source has them. */
module Timers {
  import opened Bits
  import opened Geometry
  import opened Wheels
  import opened Wrappers

  const UNIT_MILLISECOND: nat := 10
  const INT32_MAX: nat := 0x7FFF_FFFF

  class Timer {
    const near: array<seq<Node>>
    const table: array2<seq<Node>>
    var tick: uint32
    var record: nat
    /** The calls made to the thread pool so far. */
    var log: seq<Dispatch>
    /** The amount by which the level search shifts: 63 as written, 6 as the geometry needs. */
    const step: LevelStep

    ghost predicate Valid()
      reads this, near, table
    {
      && near.Length == TIME_NEAR
      && table.Length0 == TIME_LEVEL_COUNT && table.Length1 == TIME_LEVEL
      && WellPlaced(View())
    }

    /** The wheel these arrays stand for. */
    ghost function View(): Wheel
      requires near.Length == TIME_NEAR && table.Length0 == TIME_LEVEL_COUNT && table.Length1 == TIME_LEVEL
      reads this, near, table
    {
      WheelState(tick, near[..] + TableQueues(), log)
    }

    ghost function TableQueues(): (q: seq<seq<Node>>)
      requires table.Length0 == TIME_LEVEL_COUNT && table.Length1 == TIME_LEVEL
      reads table
      ensures |q| == 256
    {
      seq(256, k requires 0 <= k < 256 reads table => table[k / 64, k % 64])
    }

    constructor (systemTick: nat, step: LevelStep)
      ensures Valid() && fresh(near) && fresh(table)
      ensures View() == Empty() && record == systemTick && this.step == step
    {
      near := new seq<Node>[TIME_NEAR](_ => []);
      table := new seq<Node>[TIME_LEVEL_COUNT, TIME_LEVEL]((_, _) => []);
      tick := 0;
      record := systemTick;
      log := [];
      this.step := step;
    }

    /** The unlocked half of `thesky_timeout`. */
    method ReadExpire(ms: uint32) returns (expire: Option<uint32>)
      ensures expire == Some((tick + ms / UNIT_MILLISECOND) % WORD)
    {
      var argTick := ms / UNIT_MILLISECOND;
      if INT32_MAX < argTick {
        return None;
      }
      expire := Some((tick + argTick) % WORD);
    }

    method PushNear(idx: nat, task: Node)
      requires Valid() && idx < TIME_NEAR && AtHome(task, idx)
      modifies near
      ensures Valid() && View() == Push(old(View()), idx, task)
    {
      PushWellPlaced(View(), idx, task);
      near[idx] := near[idx] + [task];
      assert View().q == Push(old(View()), idx, task).q;
    }

    method PushTable(lv: nat, idx: nat, task: Node)
      requires Valid() && lv < TIME_LEVEL_COUNT && idx < TIME_LEVEL && AtHome(task, SlotAt(lv + 1, idx))
      modifies table
      ensures Valid() && View() == Push(old(View()), SlotAt(lv + 1, idx), task)
    {
      PushWellPlaced(View(), SlotAt(lv + 1, idx), task);
      table[lv, idx] := table[lv, idx] + [task];
      assert View().q == Push(old(View()), SlotAt(lv + 1, idx), task).q;
    }

    /** The search loop of `emplace_task`: the upper wheel whose field is the highest one that differs. */
    method FindLevel(expire: uint32) returns (lv: nat)
      requires TopDifference(expire, tick) > 0
      ensures lv == TopDifference(expire, tick) - 1
    {
      lv := 0;
      var shift := Shl(TIME_NEAR, TIME_LEVEL_SHIFT);
      ShiftedSpan(1);
      while lv < TIME_LEVEL_COUNT - 1
        invariant lv <= 3
        invariant lv < 3 ==> shift == Span(lv + 2)
        invariant TopDifference(expire, tick) > lv
      {
        MaskTest(expire, tick, lv + 2);
        if Or(expire, shift - 1) == Or(tick, shift - 1) {
          break;
        }
        ShiftedSpan(lv + 2);
        shift := Shl(shift, TIME_LEVEL_SHIFT);
        lv := lv + 1;
      }
    }

    /** Places a task by comparing or-masks, widest common prefix first. */
    method EmplaceTask(task: Node)
      requires Valid()
      modifies near, table
      ensures Valid() && View() == Emplace(old(View()), task)
    {
      SlotOfIsHome(task, tick);
      MaskTest(task.expire, tick, 1);
      if Or(task.expire, TIME_NEAR_MASK) == Or(tick, TIME_NEAR_MASK) {
        var idx := And(task.expire, TIME_NEAR_MASK);
        AndLowMask(task.expire, 8);
        PushNear(idx, task);
      } else {
        var lv := FindLevel(task.expire);
        var idx := And(Shr(task.expire, TIME_NEAR_SHIFT + lv * TIME_LEVEL_SHIFT), TIME_LEVEL_MASK);
        MaskedField(task.expire, lv + 1);
        PushTable(lv, idx, task);
      }
    }
  
    /** The locked half of `thesky_timeout`. */
    method InsertLocked(expire: uint32, task: TaskId)
      requires Valid()
      modifies near, table
      ensures Valid() && View() == Emplace(old(View()), Node(expire, task))
    {
      EmplaceTask(Node(expire, task));
    }

    method PopTable(lv: nat, idx: nat)
      requires Valid() && lv < TIME_LEVEL_COUNT && idx < TIME_LEVEL && table[lv, idx] != []
      modifies table
      ensures Valid()
      ensures var s := SlotAt(lv + 1, idx);
              View() == old(View()).(q := old(View()).q[s := old(View()).q[s][1..]])
    {
      table[lv, idx] := table[lv, idx][1..];
      ghost var s := SlotAt(lv + 1, idx);
      assert View().q == old(View()).q[s := old(View()).q[s][1..]];
    }

    /** Moves the front task of an upper queue to where it belongs now. */
    method MoveFront(lv: nat, idx: nat)
      requires Valid() && lv < TIME_LEVEL_COUNT && idx < TIME_LEVEL && table[lv, idx] != []
      modifies near, table
      ensures Valid()
      ensures var s := SlotAt(lv + 1, idx);
              var e := Emplace(old(View()), old(View()).q[s][0]);
              View() == e.(q := e.q[s := e.q[s][1..]])
      ensures table[lv, idx] == View().q[SlotAt(lv + 1, idx)]
    {
      ghost var s := SlotAt(lv + 1, idx);
      assert View().q[s] == table[lv, idx];
      var task := table[lv, idx][0];
      EmplaceTask(task);
      assert View().q[s] == table[lv, idx];
      PopTable(lv, idx);
      assert View().q[s] == table[lv, idx];
    }

    method DownQueue(lv: nat, idx: nat)
      requires Valid() && lv < TIME_LEVEL_COUNT && idx < TIME_LEVEL
      requires CascadeSlot(tick) == SlotAt(lv + 1, idx)
      modifies near, table
      ensures Valid() && View() == Cascade(old(View()), SlotAt(lv + 1, idx))
      ensures table[lv, idx] == []
    {
      ghost var w, s := View(), SlotAt(lv + 1, idx);
      ghost var i := 0;
      CascadeSlotLeaves(w);
      DrainStarts(w, s);
      assert View().q[s] == table[lv, idx];
      while table[lv, idx] != []
        invariant Valid() && i <= |w.q[s]|
        invariant View() == Draining(w, s, i)
        invariant table[lv, idx] == w.q[s][i..]
        decreases |w.q[s]| - i
      {
        DrainStep(w, s, i);
        MoveFront(lv, idx);
        i := i + 1;
      }
      DrainEnds(w, s);
    }

    method PopNear(idx: nat)
      requires Valid() && idx < TIME_NEAR && near[idx] != []
      modifies near
      ensures Valid()
      ensures View() == old(View()).(q := old(View()).q[idx := old(View()).q[idx][1..]])
    {
      near[idx] := near[idx][1..];
      assert View().q == old(View()).q[idx := old(View()).q[idx][1..]];
    }

    method TimerExecute()
      requires Valid()
      modifies near, this`log
      ensures Valid() && View() == Execute(old(View()))
    {
      ghost var w := View();
      ghost var i := 0;
      var idx := And(tick, TIME_NEAR_MASK);
      AndLowMask(tick, 8);
      ExecuteBounds(w);
      assert near[idx] == View().q[idx];
      while near[idx] != []
        invariant Valid() && i <= |w.q[idx]|
        invariant View() == Executing(w, i)
        invariant near[idx] == View().q[idx] == w.q[idx][i..]
        decreases |w.q[idx]| - i
      {
        ExecuteStep(w, i);
        var task := near[idx][0];
        log := log + [Dispatch(task.task, tick)];
        assert near[idx] == View().q[idx];
        PopNear(idx);
        i := i + 1;
        assert near[idx] == View().q[idx];
      }
    }

    /** The search loop of `timer_shift`. */
    method SearchLevels() returns (target: Target)
      ensures target == Search(tick / TIME_NEAR, 0, step)
    {
      var x := Shr(tick, TIME_NEAR_SHIFT);
      assert Pow2(8) == TIME_NEAR;
      var lv := 0;
      while true
        invariant Search(x, lv, step) == Search(tick / TIME_NEAR, 0, step)
        decreases x
      {
        var idx := And(x, TIME_LEVEL_MASK);
        AndLowMask(x, 6);
        if idx != 0 {
          return Found(lv, idx);
        }
        if step >= 32 || x == 0 {
          return Stuck;
        }
        DivLess(x, Pow2(step));
        x := Shr(x, step);
        lv := lv + 1;
      }
    }

    /** `defined` is false when the level search has no defined outcome. */
    method TimerShift() returns (defined: bool)
      requires Valid()
      modifies near, table, this`tick
      ensures Valid() && defined == ShiftWith(old(View()), step).Some?
      ensures View() == if defined then ShiftWith(old(View()), step).value else Advance(old(View()))
    {
      ghost var w := Advance(View());
      tick := (tick + 1) % WORD;
      assert View() == w && WellPlaced(w);
      if tick == 0 {
        DownQueue(TIME_LEVEL_COUNT - 1, 0);
        return true;
      }
      AndLowMask(tick, 8);
      if And(tick, TIME_NEAR_MASK) == 0 {
        SearchTarget(tick, step);
        var target := SearchLevels();
        match target {
          case Stuck => return false;
          case Found(lv, idx) => DownQueue(lv, idx);
        }
      }
      return true;
    }

    /** Catches up with the system clock, one round per tick missed. */
    method TimerUpdate(systemTick: nat, others: seq<seq<Node>>) returns (defined: bool)
      requires Valid() && |others| == Missed(record, systemTick)
      modifies this`tick, this`record, this`log, near, table
      ensures Valid()
      ensures defined == RoundsWith(old(View()), others, step).Some?
      ensures defined ==> View() == RoundsWith(old(View()), others, step).value
      ensures record == if defined then systemTick else old(record)
    {
      if record == systemTick {
        return true;
      } else if record < systemTick {
        defined := CatchUp(systemTick - record, others);
        if !defined {
          return;
        }
      }
      record := systemTick;
      return true;
    }

    /** The catch-up loop. It lets go of the lock after each round; others[i] is what other threads insert
        before its round i. */
    method CatchUp(over: nat, others: seq<seq<Node>>) returns (defined: bool)
      requires Valid() && |others| == over
      modifies this`tick, this`log, near, table
      ensures Valid()
      ensures defined == RoundsWith(old(View()), others, step).Some?
      ensures defined ==> View() == RoundsWith(old(View()), others, step).value
    {
      ghost var w := View();
      var idx := 0;
      while idx < over
        invariant Valid() && 0 <= idx <= over
        invariant RoundsWith(w, others[..idx], step) == Some(View())
      {
        RoundsWithNext(w, others, idx, step, View());
        InsertAll(others[idx]);
        defined := Round();
        if !defined {
          RoundsWithStuck(w, others, idx + 1, step);
          return;
        }
        idx := idx + 1;
      }
      assert others[..idx] == others;
      return true;
    }

    /** A series of locked inserts. */
    method InsertAll(tasks: seq<Node>)
      requires Valid()
      modifies near, table
      ensures Valid() && View() == EmplaceAll(old(View()), tasks)
    {
      ghost var w := View();
      var i := 0;
      while i < |tasks|
        invariant Valid() && 0 <= i <= |tasks|
        invariant View() == EmplaceAll(w, tasks[..i])
      {
        assert tasks[..i + 1][..i] == tasks[..i];
        InsertLocked(tasks[i].expire, tasks[i].task);
        i := i + 1;
      }
      assert tasks[..i] == tasks;
    }

    /** The locked body of the catch-up loop. */
    method Round() returns (defined: bool)
      requires Valid()
      modifies this`tick, this`log, near, table
      ensures Valid()
      ensures defined == RoundWith(old(View()), step).Some?
      ensures defined ==> View() == RoundWith(old(View()), step).value
    {
      TimerExecute();
      defined := TimerShift();
      if defined {
        TimerExecute();
      }
    }
  }

  function Missed(record: nat, systemTick: nat): nat {
    if record < systemTick then systemTick - record else 0
  }

  /** The or-mask comparison asks whether every field from j up agrees. */
  lemma MaskTest(e: uint32, t: uint32, j: nat)
    requires 1 <= j <= 4
    ensures Or(e, Span(j) - 1) == Or(t, Span(j) - 1) <==> TopDifference(e, t) < j
  {
    TopDifferenceIsPrefix(e, t);
    SpanIsPow2(j);
    MaskedEqual(e, t, 8 + 6 * (j - 1));
  }

  lemma SpanIsPow2(j: nat)
    requires 1 <= j <= 4
    ensures Span(j) == Pow2(8 + 6 * (j - 1))
  {
    assert Pow2(8) == 0x100 && Pow2(14) == 0x4000 && Pow2(20) == 0x10_0000 && Pow2(26) == 0x400_0000;
  }

  lemma MaskedField(e: uint32, j: nat)
    requires 1 <= j <= 4
    ensures And(Shr(e, TIME_NEAR_SHIFT + (j - 1) * TIME_LEVEL_SHIFT), TIME_LEVEL_MASK) == Field(e, j)
  {
    SpanIsPow2(j);
    AndLowMask(Shr(e, 8 + 6 * (j - 1)), 6);
    assert Pow2(6) == 64;
  }

  /** `shift` walks through the spans; only the product that is never compared wraps to zero. */
  lemma ShiftedSpan(j: nat)
    requires 1 <= j <= 4
    ensures Shl(Span(j), TIME_LEVEL_SHIFT) == if j < 4 then Span(j + 1) else 0
  {
    assert Pow2(6) == 64;
  }
}
