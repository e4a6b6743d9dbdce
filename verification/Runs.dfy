/** Runs of the timer, and what can be read off a run without running anything. */
module Runs {
  import opened Wheels
  import opened Location
  import opened Reference

  function CountTurns(ops: seq<Op>): nat {
    if ops == [] then 0 else CountTurns(ops[..|ops| - 1]) + (if ops[|ops| - 1].Turn? then 1 else 0)
  }

  function CountReads(ops: seq<Op>): nat {
    if ops == [] then 0 else CountReads(ops[..|ops| - 1]) + (if ops[|ops| - 1].Read? then 1 else 0)
  }

  /** The tick the t-th call asked for: rounds done when it read the tick, plus its delay. */
  function DueTick(ops: seq<Op>, t: TaskId): nat
    requires t < CountReads(ops)
  {
    var op, before := ops[|ops| - 1], ops[..|ops| - 1];
    if t < CountReads(before) then DueTick(before, t) else CountTurns(before) + op.ms / 10
  }

  /** The calls that have read the tick but not inserted their task yet. */
  function Waiting(ops: seq<Op>): set<TaskId> {
    if ops == [] then {}
    else
      var op, before := ops[|ops| - 1], ops[..|ops| - 1];
      match op
      case Read(_) => Waiting(before) + {CountReads(before)}
      case Insert(task) => Waiting(before) - {task}
      case Turn => Waiting(before)
  }

  lemma {:induction false} WaitingBelow(ops: seq<Op>)
    ensures forall t :: t in Waiting(ops) ==> t < CountReads(ops)
  {
    if ops != [] {
      WaitingBelow(ops[..|ops| - 1]);
    }
  }

  /** Everything inserted so far, in the order of insertion. */
  function Inserted(ops: seq<Op>): seq<Entry> {
    if ops == [] then []
    else
      var op, before := ops[|ops| - 1], ops[..|ops| - 1];
      if op.Insert? && op.task in Waiting(before) then
        WaitingBelow(before);
        Inserted(before) + [Entry(DueTick(before, op.task), |Inserted(before)|, op.task)]
      else Inserted(before)
  }

  /** Every entry is one call's, with the tick that call asked for; no call is both waiting and inserted, or inserted twice. */
  lemma {:induction false} InsertedOnce(ops: seq<Op>)
    ensures forall i :: 0 <= i < |Inserted(ops)| ==>
              var e := Inserted(ops)[i];
              e.number == i && e.task < CountReads(ops) && e.task !in Waiting(ops) && e.deadline == DueTick(ops, e.task)
    ensures forall i, j :: 0 <= i < j < |Inserted(ops)| ==> Inserted(ops)[i].task != Inserted(ops)[j].task
  {
    if ops != [] {
      InsertedOnce(ops[..|ops| - 1]);
      WaitingBelow(ops[..|ops| - 1]);
    }
  }

  /** Every call made is waiting or inserted. */
  lemma {:induction false} EveryCallKept(ops: seq<Op>, t: TaskId) returns (i: nat)
    requires t < CountReads(ops) && t !in Waiting(ops)
    ensures i < |Inserted(ops)| && Inserted(ops)[i].task == t
  {
    var op, before := ops[|ops| - 1], ops[..|ops| - 1];
    if op == Insert(t) && t in Waiting(before) {
      i := |Inserted(before)|;
    } else {
      i := EveryCallKept(before, t);
    }
  }

  lemma {:induction false} RefMatches(ops: seq<Op>)
    ensures var r := RefRun(ops);
            && r.now == CountTurns(ops) && r.calls == CountReads(ops) && r.inserted == |Inserted(ops)|
            && r.waiting.Keys == Waiting(ops)
            && forall t :: t in r.waiting ==> t < CountReads(ops) && r.waiting[t] == DueTick(ops, t)
  {
    WaitingBelow(ops);
    if ops != [] {
      RefMatches(ops[..|ops| - 1]);
      WaitingBelow(ops[..|ops| - 1]);
    }
  }

  function Turns(n: nat): seq<Op> {
    if n == 0 then [] else Turns(n - 1) + [Turn]
  }

  /** No insert comes more rounds after its read than the delay it asked for. */
  ghost predicate Timely(ops: seq<Op>) {
    ops == [] ||
    var op, before := ops[|ops| - 1], ops[..|ops| - 1];
    && Timely(before)
    && (op.Insert? && op.task in Waiting(before) && op.task < CountReads(before) ==>
          CountTurns(before) <= DueTick(before, op.task))
  }

  /** Call t has not inserted more rounds after its read than the delay it asked for. */
  predicate InTime(ops: seq<Op>, t: TaskId) {
    ops == [] ||
    var op, before := ops[|ops| - 1], ops[..|ops| - 1];
    && InTime(before, t)
    && (op == Insert(t) && t in Waiting(before) && t < CountReads(before) ==> CountTurns(before) <= DueTick(before, t))
  }

  /** A late insert has happened, and after its due tick. */
  lemma {:induction false} LateIsInserted(ops: seq<Op>, t: TaskId)
    requires !InTime(ops, t)
    ensures t < CountReads(ops) && t !in Waiting(ops) && DueTick(ops, t) < CountTurns(ops)
  {
    var before := ops[..|ops| - 1];
    if !InTime(before, t) {
      LateIsInserted(before, t);
    }
  }
}
