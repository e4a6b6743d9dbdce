/** When each task is dispatched, as a function of the run alone. */
module Punctuality {
  import opened Bits
  import opened Geometry
  import opened Filters
  import opened Wheels
  import opened Location
  import opened Reference
  import opened Refinement
  import opened Runs
  import opened Thinning

  /** Fired and pending together are the stable sort of everything inserted, cut at the present. */
  ghost predicate CutAtNow(r: Ref, all: seq<Entry>) {
    && r.log + r.queue == Sort(all)
    && (forall i :: 0 <= i < |r.log| ==> r.log[i].deadline <= r.now)
    && (forall i :: 0 <= i < |r.queue| ==> r.now <= r.queue[i].deadline)
  }

  /** What is not due yet, at a position past what is. */
  lemma LaterInQueue(r: Ref, all: seq<Entry>, i: nat)
    requires CutAtNow(r, all) && Ordered(Sort(all)) && DueCount(r.queue, r.now) <= i < |r.queue|
    ensures r.now < r.queue[i].deadline
  {
    var k := DueCount(r.queue, r.now);
    if i > k {
      var a, b := |r.log| + k, |r.log| + i;
      assert Before((r.log + r.queue)[a], (r.log + r.queue)[b]);
    }
  }

  lemma FireCuts(r: Ref, all: seq<Entry>)
    requires CutAtNow(r, all) && Ordered(Sort(all))
    ensures CutAtNow(Fire(r), all) && Fire(r).now == r.now
    ensures forall i :: 0 <= i < |Fire(r).queue| ==> r.now < Fire(r).queue[i].deadline
  {
    hide Sort, Ordered;
    var k := DueCount(r.queue, r.now);
    assert r.log + r.queue[..k] + r.queue[k..] == r.log + r.queue;
    forall i | k <= i < |r.queue| ensures r.now < r.queue[i].deadline {
      LaterInQueue(r, all, i);
    }
  }

  lemma LaterCuts(r: Ref, all: seq<Entry>)
    requires CutAtNow(r, all) && forall i :: 0 <= i < |r.queue| ==> r.now < r.queue[i].deadline
    ensures CutAtNow(Later(r), all) && Later(r).now == r.now + 1
  {}

  lemma TurnCuts(r: Ref, all: seq<Entry>)
    requires CutAtNow(r, all) && Ordered(Sort(all))
    ensures CutAtNow(RefTurn(r), all) && RefTurn(r).now == r.now + 1
    ensures forall i :: 0 <= i < |RefTurn(r).queue| ==> r.now + 1 < RefTurn(r).queue[i].deadline
  {
    hide CutAtNow, Ordered, Fire, Later;
    FireCuts(r, all);
    LaterCuts(Fire(r), all);
    FireCuts(Later(Fire(r)), all);
  }

  lemma ReadCuts(r: Ref, all: seq<Entry>, ms: uint32)
    requires CutAtNow(r, all)
    ensures CutAtNow(RefStep(r, Read(ms)), all)
  {}

  lemma InsertCuts(r: Ref, all: seq<Entry>, e: Entry)
    requires CutAtNow(r, all) && r.now <= e.deadline
    ensures CutAtNow(r.(queue := InsertStable(r.queue, e)), all + [e])
  {
    InsertAfter(r.log, r.queue, e);
    SortAppend(all, e);
    InsertMembers(r.queue, e);
    var q := InsertStable(r.queue, e);
    forall i | 0 <= i < |q| ensures r.now <= q[i].deadline {
      assert q[i] in multiset(q);
      assert q[i] in r.queue || q[i] == e;
    }
  }

  lemma EmptyCuts()
    ensures CutAtNow(START, [])
  {}

  lemma {:induction false} QueueCutsAtNow(ops: seq<Op>)
    requires Timely(ops)
    ensures CutAtNow(RefRun(ops), Inserted(ops))
  {
    hide CutAtNow, Ordered, Sort, RefTurn, InsertStable;
    if ops == [] {
      EmptyCuts();
    } else {
      var op, before := ops[|ops| - 1], ops[..|ops| - 1];
      var r := RefRun(before);
      QueueCutsAtNow(before);
      RefMatches(before);
      match op {
        case Read(ms) => ReadCuts(r, Inserted(before), ms);
        case Insert(task) =>
          if task in r.waiting {
            InsertStepCuts(r, Inserted(before), task);
          }
        case Turn =>
          InsertedOnce(before);
          SortOrdered(Inserted(before));
          TurnCuts(r, Inserted(before));
      }
    }
  }

  lemma InsertStepCuts(r: Ref, all: seq<Entry>, task: TaskId)
    requires CutAtNow(r, all) && task in r.waiting && r.now <= r.waiting[task]
    ensures CutAtNow(RefStep(r, Insert(task)), all + [Entry(r.waiting[task], r.inserted, task)])
  {
    InsertCuts(r, all, Entry(r.waiting[task], r.inserted, task));
  }

  predicate JustTurned(ops: seq<Op>) {
    ops != [] && ops[|ops| - 1].Turn?
  }

  lemma QueueLaterAfterTurn(ops: seq<Op>)
    requires Timely(ops) && JustTurned(ops)
    ensures forall i :: 0 <= i < |RefRun(ops).queue| ==> RefRun(ops).now < RefRun(ops).queue[i].deadline
  {
    hide CutAtNow, Ordered, Sort, RefTurn;
    var before := ops[..|ops| - 1];
    QueueCutsAtNow(before);
    InsertedOnce(before);
    SortOrdered(Inserted(before));
    TurnCuts(RefRun(before), Inserted(before));
  }

  lemma PendingIsInserted(ops: seq<Op>, p: seq<Entry>)
    requires Timely(ops) && Agrees(Run(ops), RefRun(ops), p)
    ensures forall e :: e in p ==> e in Inserted(ops)
  {
    QueueCutsAtNow(ops);
    SortMembers(p);
    SortMembers(Inserted(ops));
    var r := RefRun(ops);
    forall e | e in p ensures e in Inserted(ops) {
      assert e in multiset(Sort(p));
      assert e in r.queue;
      assert e in r.log + r.queue;
      assert e in multiset(Sort(Inserted(ops)));
    }
  }

  /** The log is what comes first in all, up to the present round. */
  ghost predicate CutOf(log: seq<Dispatch>, all: seq<Entry>, ops: seq<Op>) {
    && |log| <= |all| && log == Mapped(all[..|log|], DispatchOf)
    && (forall i :: 0 <= i < |log| ==> all[i].deadline <= CountTurns(ops))
    && (forall i :: |log| <= i < |all| ==> CountTurns(ops) <= all[i].deadline)
    && (JustTurned(ops) ==> forall i :: |log| <= i < |all| ==> CountTurns(ops) < all[i].deadline)
  }

  lemma TimelyLog(ops: seq<Op>)
    requires Timely(ops)
    ensures CutOf(Run(ops).w.log, Sort(Inserted(ops)), ops)
  {
    hide Run, RefRun, Agrees, CutAtNow, CutOf, Sort;
    var p := TimelyRunAgrees(ops);
    QueueCutsAtNow(ops);
    if JustTurned(ops) {
      QueueLaterAfterTurn(ops);
    }
    RefMatches(ops);
    AgreesLog(Run(ops), RefRun(ops), p);
    CutIsCut(RefRun(ops), Inserted(ops), Run(ops).w.log, ops);
  }

  lemma AgreesLog(m: Machine, r: Ref, p: seq<Entry>)
    requires Agrees(m, r, p)
    ensures m.w.log == Mapped(r.log, DispatchOf)
  {}

  lemma CutIsCut(r: Ref, inserted: seq<Entry>, log: seq<Dispatch>, ops: seq<Op>)
    requires CutAtNow(r, inserted) && log == Mapped(r.log, DispatchOf) && r.now == CountTurns(ops)
    requires JustTurned(ops) ==> forall i :: 0 <= i < |r.queue| ==> r.now < r.queue[i].deadline
    ensures CutOf(log, Sort(inserted), ops)
  {
    CutSplits(r, inserted);
  }

  lemma CutSplits(r: Ref, inserted: seq<Entry>)
    requires CutAtNow(r, inserted)
    ensures var all := Sort(inserted);
            && |r.log| <= |all| && all[..|r.log|] == r.log
            && (forall i :: 0 <= i < |r.log| ==> all[i] == r.log[i])
            && (forall i :: |r.log| <= i < |all| ==> all[i] == r.queue[i - |r.log|])
  {}

  lemma CutSame(log: seq<Dispatch>, all: seq<Entry>, all': seq<Entry>, ops: seq<Op>, ops': seq<Op>)
    requires CutOf(log, all, ops) && SameButNumbers(all, all')
    requires CountTurns(ops) == CountTurns(ops') && (JustTurned(ops') ==> JustTurned(ops))
    ensures CutOf(log, all', ops')
  {
    assert Mapped(all[..|log|], DispatchOf) == Mapped(all'[..|log|], DispatchOf);
  }

  /** What has been inserted of the given tasks, in the order of insertion. */
  function Kept(ops: seq<Op>, keep: Tasks): seq<Entry> {
    Picked(Inserted(ops), EntryIn(keep))
  }

  lemma {:induction false} PickedNumbered(p: seq<Entry>, keep: Entry -> bool)
    requires Numbered(p)
    ensures Numbered(Picked(p, keep))
  {
    if p != [] {
      PickedNumbered(p[..|p| - 1], keep);
      PickedIn(p[..|p| - 1], keep);
    }
  }

  /** In every run, whatever the other calls do: what the log says of tasks inserted in time is their stable sort
      by deadline, cut at the present round. */
  lemma LogIsStableSort(ops: seq<Op>, keep: Tasks)
    requires forall t :: keep(t) ==> InTime(ops, t)
    ensures CutOf(Picked(Run(ops).w.log, DispatchIn(keep)), Sort(Kept(ops, keep)), ops)
    ensures Ordered(Sort(Kept(ops, keep)))
  {
    var only := Only(ops, keep);
    ThinRun(ops, keep);
    OnlyTimely(ops, keep);
    TimelyLog(only);
    OnlyCounts(ops, keep);
    OnlyInserted(ops, keep);
    SortSame(Inserted(only), Kept(ops, keep));
    CutSame(Run(only).w.log, Sort(Inserted(only)), Sort(Kept(ops, keep)), only, ops);
    InsertedOnce(ops);
    PickedNumbered(Inserted(ops), EntryIn(keep));
    SortOrdered(Kept(ops, keep));
  }

  /** One position of the sorted entries at a time. */
  lemma SortedAt(ops: seq<Op>, keep: Tasks, j: nat)
    requires j < |Sort(Kept(ops, keep))|
    ensures var e := Sort(Kept(ops, keep))[j];
            && e in Inserted(ops) && keep(e.task)
            && e.task < CountReads(ops) && e.task !in Waiting(ops) && e.deadline == DueTick(ops, e.task)
  {
    InsertedOnce(ops);
    var kept := Kept(ops, keep);
    SortMembers(kept);
    assert Sort(kept)[j] in multiset(Sort(kept));
    var k :| 0 <= k < |kept| && kept[k] == Sort(kept)[j];
    PickedIn(Inserted(ops), EntryIn(keep));
    assert EntryIn(keep)(kept[k]);
  }

  /** The log at one position, if its task was inserted in time. */
  lemma LogAt(ops: seq<Op>, keep: Tasks, j: nat) returns (j': nat)
    requires forall t :: keep(t) ==> InTime(ops, t)
    requires j < |Run(ops).w.log| && keep(Run(ops).w.log[j].task)
    ensures j' < |Sort(Kept(ops, keep))| && Run(ops).w.log[j] == DispatchOf(Sort(Kept(ops, keep))[j'])
    ensures Sort(Kept(ops, keep))[j'].deadline <= CountTurns(ops)
    ensures j' == |Picked(Run(ops).w.log[..j], DispatchIn(keep))|
  {
    LogIsStableSort(ops, keep);
    PickedAt(Run(ops).w.log, DispatchIn(keep), j);
    j' := |Picked(Run(ops).w.log[..j], DispatchIn(keep))|;
  }

  function Just(t: TaskId): Tasks {
    (x: TaskId) => x == t
  }

  lemma KeptOfOne(ops: seq<Op>, t: TaskId) returns (e: Entry)
    requires t < CountReads(ops) && t !in Waiting(ops)
    ensures Sort(Kept(ops, Just(t))) == [e] && e.task == t && e.deadline == DueTick(ops, t)
  {
    InsertedOnce(ops);
    var k := EveryCallKept(ops, t);
    PickedOnly(Inserted(ops), EntryIn(Just(t)), k);
    e := Inserted(ops)[k];
    assert [e][..0] == [] && Sort([]) == [];
  }

  lemma CutOfOne(log: seq<Dispatch>, e: Entry, ops: seq<Op>)
    requires CutOf(log, [e], ops)
    requires e.deadline < CountTurns(ops) || (e.deadline == CountTurns(ops) && JustTurned(ops))
    ensures log == [DispatchOf(e)]
  {
    var all := [e];
    assert all[0] == e && all[..1] == all;
    assert |log| == 1;
  }

  /** A task inserted in time that has come due is dispatched exactly once, at the tick it asked for. */
  lemma DispatchedExactlyOnce(ops: seq<Op>, t: TaskId) returns (i: nat)
    requires InTime(ops, t) && t < CountReads(ops) && t !in Waiting(ops)
    requires DueTick(ops, t) < CountTurns(ops) || (DueTick(ops, t) == CountTurns(ops) && JustTurned(ops))
    ensures var log := Run(ops).w.log;
            && i < |log| && log[i] == Dispatch(t, DueTick(ops, t) % WORD)
            && forall j :: 0 <= j < |log| && log[j].task == t ==> j == i
  {
    var e := KeptOfOne(ops, t);
    LogIsStableSort(ops, Just(t));
    var log := Run(ops).w.log;
    CutOfOne(Picked(log, DispatchIn(Just(t))), e, ops);
    i := OnePicked(log, DispatchIn(Just(t)));
    forall j | 0 <= j < |log| && log[j].task == t ensures j == i {
      assert DispatchIn(Just(t))(log[j]);
    }
  }

  /** However late other tasks or this one: nothing is dispatched before its tick has come, nor without having
      been inserted; and what was inserted in time is dispatched at its very tick. */
  lemma NeverBeforeItsTick(ops: seq<Op>, j: nat)
    requires j < |Run(ops).w.log|
    ensures var d := Run(ops).w.log[j];
            && d.task < CountReads(ops) && d.task !in Waiting(ops) && DueTick(ops, d.task) <= CountTurns(ops)
            && (InTime(ops, d.task) ==> d.tick == DueTick(ops, d.task) % WORD)
  {
    var t := Run(ops).w.log[j].task;
    if InTime(ops, t) {
      var j' := LogAt(ops, Just(t), j);
      SortedAt(ops, Just(t), j');
    } else {
      LateIsInserted(ops, t);
    }
  }

  /** The round that reaches a task's tick is the round that dispatches it. */
  lemma FiresInItsRound(ops: seq<Op>, t: TaskId) returns (i: nat)
    requires t < CountReads(ops) && t !in Waiting(ops)
    requires DueTick(ops, t) == CountTurns(ops) + 1
    ensures forall j :: 0 <= j < |Run(ops).w.log| ==> Run(ops).w.log[j].task != t
    ensures var log := Run(ops + [Turn]).w.log;
            i < |log| && log[i] == Dispatch(t, DueTick(ops, t) % WORD)
  {
    var next := ops + [Turn];
    assert next[..|next| - 1] == ops;
    forall j | 0 <= j < |Run(ops).w.log| ensures Run(ops).w.log[j].task != t {
      NeverBeforeItsTick(ops, j);
    }
    if !InTime(ops, t) {
      LateIsInserted(ops, t);
    }
    i := DispatchedExactlyOnce(next, t);
  }

  /** Two tasks inserted in time are dispatched in order of due tick, and in order of insertion within one tick. */
  lemma DispatchOrder(ops: seq<Op>, i: nat, j: nat) returns (a: Entry, b: Entry)
    requires i < j < |Run(ops).w.log|
    requires InTime(ops, Run(ops).w.log[i].task) && InTime(ops, Run(ops).w.log[j].task)
    ensures a in Inserted(ops) && b in Inserted(ops) && Before(a, b)
    ensures Run(ops).w.log[i] == DispatchOf(a) && Run(ops).w.log[j] == DispatchOf(b)
  {
    var keep, log := OnTime(ops), Run(ops).w.log;
    var i' := LogAt(ops, keep, i);
    var j' := LogAt(ops, keep, j);
    PickedAt(log[..j], DispatchIn(keep), i);
    assert log[..j][..i] == log[..i];
    SortedAt(ops, keep, i');
    SortedAt(ops, keep, j');
    LogIsStableSort(ops, keep);
    a, b := Sort(Kept(ops, keep))[i'], Sort(Kept(ops, keep))[j'];
  }

  function OnTime(ops: seq<Op>): Tasks {
    (t: TaskId) => InTime(ops, t)
  }

  predicate IsUnvisited(s: Slot) {
    s == SlotAt(1, 0) || s == SlotAt(2, 0) || s == SlotAt(3, 0)
  }

  lemma UnvisitedWhenTimely(ops: seq<Op>, s: Slot, i: nat)
    requires Timely(ops) && i < |Run(ops).w.q[s]|
    requires IsUnvisited(s) || s == SlotAt(4, 0)
    ensures var n := Run(ops).w.q[s][i];
            && !IsUnvisited(s) && n.task < CountReads(ops)
            && n.expire == DueTick(ops, n.task) % WORD && DueTick(ops, n.task) / WORD > CountTurns(ops) / WORD
  {
    hide Run, RefRun, Agrees, Located, Ahead, Timely, Picked;
    var p := TimelyRunAgrees(ops);
    RunLocated(ops, p);
    PositionZeroOf(Run(ops).w, CountTurns(ops), p);
    var here := Picked(p, PlacedIn(CountTurns(ops), SlotAt(4, 0)));
    assert Run(ops).w.q[s] == Mapped(here, NodeOf);
    PickedIn(p, PlacedIn(CountTurns(ops), SlotAt(4, 0)));
    assert here[i] in p && PlacedIn(CountTurns(ops), SlotAt(4, 0))(here[i]);
    PendingIsInserted(ops, p);
    InsertedOnce(ops);
  }

  lemma RunLocated(ops: seq<Op>, p: seq<Entry>)
    requires Agrees(Run(ops), RefRun(ops), p)
    ensures Located(Run(ops).w, CountTurns(ops), p) && Ahead(p, CountTurns(ops))
  {
    hide Run, RefRun, Located, Ahead;
    RefMatches(ops);
  }

  /** Why one redistribution per step is enough: in every run the positions it never visits hold only tasks that
      came too late, and position 0 of the top wheel, of the others, only what is due past the next wrap. */
  lemma UnvisitedPositions(ops: seq<Op>, s: Slot, i: nat)
    requires i < |Run(ops).w.q[s]| && InTime(ops, Run(ops).w.q[s][i].task)
    requires IsUnvisited(s) || s == SlotAt(4, 0)
    ensures var n := Run(ops).w.q[s][i];
            && !IsUnvisited(s) && n.task < CountReads(ops)
            && n.expire == DueTick(ops, n.task) % WORD && DueTick(ops, n.task) / WORD > CountTurns(ops) / WORD
  {
    var keep, q := OnTime(ops), Run(ops).w.q[s];
    ThinRun(ops, keep);
    OnlyTimely(ops, keep);
    OnlyCounts(ops, keep);
    PickedAt(q, NodeIn(keep), i);
    assert Run(Only(ops, keep)).w.q[s] == Picked(q, NodeIn(keep));
    UnvisitedWhenTimely(Only(ops, keep), s, |Picked(q[..i], NodeIn(keep))|);
    OnlyDue(ops, keep, q[i].task);
  }
}
