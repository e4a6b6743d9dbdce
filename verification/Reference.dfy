/** A stable priority queue of absolute deadlines: the simple machine the wheel must agree with. */
module Reference {
  import opened Bits
  import opened Filters
  import opened Wheels
  import opened Location

  /** Inserts behind everything due no later. */
  function InsertStable(q: seq<Entry>, e: Entry): seq<Entry> {
    if q == [] || q[|q| - 1].deadline <= e.deadline then q + [e]
    else InsertStable(q[..|q| - 1], e) + [q[|q| - 1]]
  }

  function Sort(p: seq<Entry>): seq<Entry> {
    if p == [] then [] else InsertStable(Sort(p[..|p| - 1]), p[|p| - 1])
  }

  /** How many entries at the head are due by now. */
  function DueCount(q: seq<Entry>, now: nat): (k: nat)
    ensures k <= |q|
    ensures forall i :: 0 <= i < k ==> q[i].deadline <= now
    ensures k < |q| ==> q[k].deadline > now
  {
    if q == [] || q[0].deadline > now then 0 else 1 + DueCount(q[1..], now)
  }

  predicate Before(a: Entry, b: Entry) {
    a.deadline < b.deadline || (a.deadline == b.deadline && a.number < b.number)
  }

  ghost predicate Ordered(q: seq<Entry>) {
    forall i, j :: 0 <= i < j < |q| ==> Before(q[i], q[j])
  }

  lemma {:induction false} InsertMembers(q: seq<Entry>, e: Entry)
    ensures multiset(InsertStable(q, e)) == multiset(q) + multiset{e}
  {
    if !(q == [] || q[|q| - 1].deadline <= e.deadline) {
      InsertMembers(q[..|q| - 1], e);
      assert q == q[..|q| - 1] + [q[|q| - 1]];
    }
  }

  lemma {:induction false} SortMembers(p: seq<Entry>)
    ensures multiset(Sort(p)) == multiset(p)
  {
    if p != [] {
      var e, p' := p[|p| - 1], p[..|p| - 1];
      SortMembers(p');
      InsertMembers(Sort(p'), e);
      assert p == p' + [e] && multiset(p' + [e]) == multiset(p') + multiset{e};
    }
  }

  lemma {:induction false} InsertOrdered(q: seq<Entry>, e: Entry)
    requires Ordered(q) && forall i :: 0 <= i < |q| ==> q[i].number < e.number
    ensures Ordered(InsertStable(q, e))
  {
    if !(q == [] || q[|q| - 1].deadline <= e.deadline) {
      var q' := q[..|q| - 1];
      InsertOrdered(q', e);
      InsertMembers(q', e);
      var r := InsertStable(q', e);
      forall i | 0 <= i < |r| ensures Before(r[i], q[|q| - 1]) {
        assert r[i] in multiset(r);
        assert r[i] in q' || r[i] == e;
      }
    }
  }

  ghost predicate Numbered(p: seq<Entry>) {
    forall i, j :: 0 <= i < j < |p| ==> p[i].number < p[j].number
  }

  /** Sorting is stable: by deadline, and by insertion number among equals. */
  lemma {:induction false} SortOrdered(p: seq<Entry>)
    requires Numbered(p)
    ensures Ordered(Sort(p))
  {
    if p != [] {
      var p' := p[..|p| - 1];
      SortOrdered(p');
      SortMembers(p');
      forall i | 0 <= i < |Sort(p')| ensures Sort(p')[i].number < p[|p| - 1].number {
        assert Sort(p')[i] in multiset(Sort(p'));
        assert Sort(p')[i] in multiset(p');
      }
      InsertOrdered(Sort(p'), p[|p| - 1]);
    }
  }

  /** The same tasks with the same deadlines, however numbered. */
  ghost predicate SameButNumbers(p: seq<Entry>, p': seq<Entry>) {
    |p| == |p'| && forall i :: 0 <= i < |p| ==> p[i].deadline == p'[i].deadline && p[i].task == p'[i].task
  }

  lemma {:induction false} InsertSame(q: seq<Entry>, q': seq<Entry>, e: Entry, e': Entry)
    requires SameButNumbers(q, q') && e.deadline == e'.deadline && e.task == e'.task
    ensures SameButNumbers(InsertStable(q, e), InsertStable(q', e'))
  {
    var n := |q| - 1;
    if !(q == [] || q[n].deadline <= e.deadline) {
      InsertSame(q[..n], q'[..n], e, e');
    }
  }

  /** Numbers play no part in sorting. */
  lemma {:induction false} SortSame(p: seq<Entry>, p': seq<Entry>)
    requires SameButNumbers(p, p')
    ensures SameButNumbers(Sort(p), Sort(p'))
  {
    if p != [] {
      var n := |p| - 1;
      SortSame(p[..n], p'[..n]);
      InsertSame(Sort(p[..n]), Sort(p'[..n]), p[n], p'[n]);
    }
  }

  /** Inserting what is due no earlier than all of a leaves a alone. */
  lemma {:induction false} InsertAfter(a: seq<Entry>, b: seq<Entry>, e: Entry)
    requires forall i :: 0 <= i < |a| ==> a[i].deadline <= e.deadline
    ensures InsertStable(a + b, e) == a + InsertStable(b, e)
  {
    if b == [] {
      assert a + b == a;
    } else if b[|b| - 1].deadline <= e.deadline {
      assert a + b + [e] == a + (b + [e]);
    } else {
      var b' := b[..|b| - 1];
      InsertAfter(a, b', e);
      assert (a + b)[..|a + b| - 1] == a + b';
    }
  }

  lemma {:induction false} InsertFirst(b: seq<Entry>, e: Entry)
    requires forall i :: 0 <= i < |b| ==> b[i].deadline > e.deadline
    ensures InsertStable(b, e) == [e] + b
  {
    if b != [] {
      InsertFirst(b[..|b| - 1], e);
    }
  }

  /** With nothing overdue, the sorted queue begins with what is due now, in insertion order. */
  lemma {:induction false} SortSplits(p: seq<Entry>, t: nat)
    requires forall i :: 0 <= i < |p| ==> t <= p[i].deadline
    ensures Sort(p) == Due(p, t) + Sort(NotDue(p, t))
    ensures forall i :: 0 <= i < |Due(p, t)| ==> Due(p, t)[i].deadline == t
    ensures forall i :: 0 <= i < |Sort(NotDue(p, t))| ==> Sort(NotDue(p, t))[i].deadline > t
  {
    DueMembers(p, t);
    LaterMembers(p, t);
    if p != [] {
      var e, p' := p[|p| - 1], p[..|p| - 1];
      SortSplits(p', t);
      assert p' + [e] == p;
      PickedAppend(p', e, DueAt(t));
      PickedAppend(p', e, NotDueAt(t));
      if e.deadline == t {
        InsertBetween(Due(p', t), Sort(NotDue(p', t)), e);
        assert NotDue(p, t) == NotDue(p', t);
      } else {
        InsertAfter(Due(p', t), Sort(NotDue(p', t)), e);
        assert Due(p, t) == Due(p', t);
        SortAppend(NotDue(p', t), e);
      }
    }
  }

  /** Something due now goes behind what is due now and before what is due later. */
  lemma InsertBetween(a: seq<Entry>, b: seq<Entry>, e: Entry)
    requires forall i :: 0 <= i < |a| ==> a[i].deadline <= e.deadline
    requires forall i :: 0 <= i < |b| ==> b[i].deadline > e.deadline
    ensures InsertStable(a + b, e) == a + [e] + b
  {
    InsertAfter(a, b, e);
    InsertFirst(b, e);
    Associative(a, [e], b);
  }

  lemma Associative(a: seq<Entry>, b: seq<Entry>, c: seq<Entry>)
    ensures a + (b + c) == a + b + c
  {}

  lemma SortAppend(p: seq<Entry>, e: Entry)
    ensures Sort(p + [e]) == InsertStable(Sort(p), e)
  {
    assert (p + [e])[..|p|] == p;
  }

  lemma DueMembers(p: seq<Entry>, t: nat)
    ensures forall i :: 0 <= i < |Due(p, t)| ==> Due(p, t)[i].deadline == t
  {
    PickedIn(p, DueAt(t));
    forall i | 0 <= i < |Due(p, t)| ensures Due(p, t)[i].deadline == t {
      assert DueAt(t)(Due(p, t)[i]);
    }
  }

  lemma LaterMembers(p: seq<Entry>, t: nat)
    requires forall i :: 0 <= i < |p| ==> t <= p[i].deadline
    ensures forall i :: 0 <= i < |Sort(NotDue(p, t))| ==> Sort(NotDue(p, t))[i].deadline > t
  {
    PickedIn(p, NotDueAt(t));
    var later := NotDue(p, t);
    SortMembers(later);
    forall i | 0 <= i < |Sort(later)| ensures Sort(later)[i].deadline > t {
      assert Sort(later)[i] in multiset(Sort(later));
      assert Sort(later)[i] in multiset(later);
      var k :| 0 <= k < |later| && later[k] == Sort(later)[i];
      assert NotDueAt(t)(later[k]);
    }
  }

  lemma {:induction false} DueCountIs(a: seq<Entry>, b: seq<Entry>, now: nat)
    requires forall i :: 0 <= i < |a| ==> a[i].deadline <= now
    requires forall i :: 0 <= i < |b| ==> b[i].deadline > now
    ensures DueCount(a + b, now) == |a|
  {
    if a == [] {
      assert a + b == b;
    } else {
      DueCountIs(a[1..], b, now);
      assert (a + b)[1..] == a[1..] + b;
    }
  }

  /* The reference machine. */

  datatype Ref = Ref(
    now: nat,
    calls: nat,
    inserted: nat,
    waiting: map<TaskId, nat>,
    queue: seq<Entry>,
    log: seq<Entry>)

  /** One atomic step of a run: the unlocked read and the locked insert of `thesky_timeout`, and one catch-up round. */
  datatype Op = Read(ms: uint32) | Insert(task: TaskId) | Turn

  const START: Ref := Ref(0, 0, 0, map[], [], [])

  function Fire(r: Ref): Ref {
    var k := DueCount(r.queue, r.now);
    r.(queue := r.queue[k..], log := r.log + r.queue[..k])
  }

  function Later(r: Ref): Ref {
    r.(now := r.now + 1)
  }

  function RefTurn(r: Ref): Ref {
    Fire(Later(Fire(r)))
  }

  function RefStep(r: Ref, op: Op): Ref {
    match op
    case Read(ms) =>
      r.(calls := r.calls + 1, waiting := r.waiting[r.calls := r.now + ms / 10])
    case Insert(task) =>
      if task !in r.waiting then r
      else r.(waiting := r.waiting - {task}, inserted := r.inserted + 1,
              queue := InsertStable(r.queue, Entry(r.waiting[task], r.inserted, task)))
    case Turn => RefTurn(r)
  }

  function RefRun(ops: seq<Op>): Ref {
    if ops == [] then START else RefStep(RefRun(ops[..|ops| - 1]), ops[|ops| - 1])
  }
}
