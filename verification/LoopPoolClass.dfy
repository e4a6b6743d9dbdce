/** `EventLoopThreadPool` as its own text has it: the hooks, and handing out loops in turn. */
module LoopPoolObject {
  import opened LoopPools
  import Bits

  type LoopId = nat

  const TWO63: int := 0x8000_0000_0000_0000
  const TWO64: int := 0x1_0000_0000_0000_0000

  type int64 = x: int | -TWO63 <= x < TWO63 witness 0

  /** Two's-complement increment. */
  function Increment(x: int64): int64 {
    if x == TWO63 - 1 then -TWO63 else x + 1
  }

  /** Conversion to `uint64_t`, as `next % threads_.size()` applies it. */
  function Unsigned(x: int64): nat {
    if x < 0 then x + TWO64 else x
  }

  /** The counter after k calls while the pool runs. */
  function CounterAfter(k: nat): int64 {
    if k == 0 then 0 else Increment(CounterAfter(k - 1))
  }

  /** Read as unsigned it counts the calls mod 2^64, straight through the sign change. */
  lemma {:induction false} CounterCounts(k: nat)
    requires k <= TWO64
    ensures Unsigned(CounterAfter(k)) == if k == TWO64 then 0 else k
  {
    if k > 0 {
      CounterCounts(k - 1);
    }
  }

  /** The positions that the first k calls choose among n loops. */
  function Picks(k: nat, n: nat): (p: seq<nat>)
    requires n >= 1
    ensures |p| == k
  {
    if k == 0 then [] else Picks(k - 1, n) + [Unsigned(CounterAfter(k - 1)) % n]
  }

  function Chosen(p: seq<nat>, x: nat): nat {
    if p == [] then 0 else Chosen(p[..|p| - 1], x) + (if p[|p| - 1] == x then 1 else 0)
  }

  ghost predicate Balanced(p: seq<nat>, n: nat) {
    forall x, y :: 0 <= x < n && 0 <= y < n ==> Chosen(p, x) <= Chosen(p, y) + 1
  }

  lemma PicksStep(k: nat, n: nat, x: nat)
    requires n >= 1
    ensures Chosen(Picks(k + 1, n), x) == Chosen(Picks(k, n), x) + (if Unsigned(CounterAfter(k)) % n == x then 1 else 0)
  {
    var p := Picks(k + 1, n);
    assert p[..|p| - 1] == Picks(k, n);
  }

  /** Up to the wrap of the counter, after q full turns and r more calls: q choices of each position, and one more of the first r. */
  lemma {:induction false} PicksCount(k: nat, n: nat, q: nat, r: nat, x: nat)
    requires x < n && r < n && k == q * n + r && k <= TWO64
    ensures Chosen(Picks(k, n), x) == q + (if x < r then 1 else 0)
    decreases k
  {
    if k == 0 {
      Bits.MulLe(1, n, q);
    } else {
      var q', r' := Previous(k, n, q, r);
      PicksStep(k - 1, n, x);
      CounterCounts(k - 1);
      PicksCount(k - 1, n, q', r', x);
    }
  }

  lemma Previous(k: nat, n: nat, q: nat, r: nat) returns (q': nat, r': nat)
    requires r < n && k == q * n + r && k > 0
    ensures r' < n && k - 1 == q' * n + r' && (k - 1) % n == r'
    ensures if r > 0 then q' == q && r' == r - 1 else q == q' + 1 && r' == n - 1
  {
    if r > 0 {
      q', r' := q, r - 1;
    } else {
      q', r' := q - 1, n - 1;
      assert q * n == (q - 1) * n + n;
    }
    Bits.Unique(k - 1, n, q', r');
  }

  lemma Divided(k: nat, n: nat) returns (q: nat, r: nat)
    requires n >= 1
    ensures r < n && k == q * n + r && r == k % n
  {
    q, r := k / n, k % n;
  }

  /** For the first 2^64 calls, any two loops differ by at most one. */
  lemma RoundRobinFair(k: nat, n: nat)
    requires n >= 1 && k <= TWO64
    ensures Balanced(Picks(k, n), n)
  {
    var q, r := Divided(k, n);
    forall x, y | 0 <= x < n && 0 <= y < n ensures Chosen(Picks(k, n), x) <= Chosen(Picks(k, n), y) + 1 {
      PicksCount(k, n, q, r, x);
      PicksCount(k, n, q, r, y);
    }
  }

  /** The call after those keeps the balance iff the number of loops divides 2^64. */
  lemma FairAcrossWrapIff(k: nat, n: nat)
    requires n >= 1 && k == TWO64
    ensures Balanced(Picks(k + 1, n), n) <==> k % n == 0
  {
    var p := Picks(k + 1, n);
    var q, r := Divided(k, n);
    CounterCounts(k);
    Bits.Unique(0, n, 0, 0);
    forall x | 0 <= x < n
      ensures Chosen(p, x) == q + (if x < r then 1 else 0) + (if x == 0 then 1 else 0)
    {
      PicksCount(k, n, q, r, x);
      PicksStep(k, n, x);
    }
    if r != 0 {
      assert Chosen(p, 0) == q + 2 && Chosen(p, n - 1) == q;
    }
  }

  class LoopPool {
    const baseLoop: LoopId
    const threadNum: nat
    var threads: seq<LoopId>
    var next: int64
    var status: Status
    var armed: bool
    /** How often the stop callback has been called. */
    var calls: nat
    /** The two counters that `Start` shares with the hooks. */
    var startedCount: nat
    var exitedCount: nat
    /** Where each loop thread and the caller of `Stop` stand, and what `Stop` is called with. */
    var phases: seq<Thread>
    var stopper: Stopper
    const wait: bool
    const hasCallback: bool
    /** The positions handed out so far. */
    var choices: seq<nat>

    /** This pool as a machine state. */
    function View(): State
      reads this
    {
      State(phases, startedCount, exitedCount, status, stopper, wait, hasCallback, armed, calls)
    }

    ghost predicate Valid()
      reads this
    {
      && |phases| == threadNum
      && next == CounterAfter(|choices|)
      && (choices != [] ==> threads != [] && choices == Picks(|choices|, |threads|))
    }

    constructor (baseLoop: LoopId, threadNum: nat, wait: bool, hasCallback: bool)
      ensures this.baseLoop == baseLoop && this.threadNum == threadNum
      ensures Valid() && threads == [] && choices == []
      ensures this.wait == wait && this.hasCallback == hasCallback && stopper == Idle
      ensures startedCount == exitedCount == calls == 0 && !armed
    {
      this.baseLoop, this.threadNum, this.wait, this.hasCallback := baseLoop, threadNum, wait, hasCallback;
      threads, next, status, armed, calls, choices := [], 0, Stopped, false, 0, [];
      startedCount, exitedCount, phases, stopper := 0, 0, seq(threadNum, (i: nat) => New), Idle;
    }

    /** Starts a thread per loop object given. */
    method Start(loops: seq<LoopId>)
      requires Valid() && |loops| == threadNum && threads == [] && choices == []
      requires stopper == Idle && calls == 0 && !armed
      modifies this`status, this`threads, this`startedCount, this`exitedCount, this`phases
      ensures Valid() && View() == Initial(threadNum, wait, hasCallback) && threads == loops
    {
      status := Starting;
      phases := seq(threadNum, (i: nat) => New);
      startedCount, exitedCount := 0, 0;
      assert phases == Initial(threadNum, wait, hasCallback).threads;
      if threadNum == 0 {
        status := Running;
        assert loops == [];
        return;
      }
      var i := 0;
      while i < threadNum
        modifies this`threads
        invariant 0 <= i <= threadNum && threads == loops[..i]
      {
        threads := threads + [loops[i]];
        i := i + 1;
      }
      assert loops[..i] == loops;
    }

    /** Chooses the loops in turn: whatever came between, its choices so far are `Picks`. */
    method GetNextLoop() returns (loop: LoopId)
      requires Valid()
      modifies this`next, this`choices
      ensures Valid()
      ensures status != Running || threads == [] ==> loop == baseLoop && choices == old(choices)
      ensures status == Running && threads != [] ==>
                && |choices| == |old(choices)| + 1 && choices == Picks(|choices|, |threads|)
                && choices[|choices| - 1] < |threads| && loop == threads[choices[|choices| - 1]]
      ensures threads != [] && |choices| <= TWO64 ==> Balanced(choices, |threads|)
    {
      loop := baseLoop;
      if status == Running && threads != [] {
        var taken := next;
        next := Increment(next);
        loop := threads[Unsigned(taken) % |threads|];
        choices := choices + [Unsigned(taken) % |threads|];
      }
      if threads != [] && |choices| <= TWO64 {
        RoundRobinFair(|choices|, |threads|);
      }
    }

    method GetNextLoopWithHash(hash: nat) returns (loop: LoopId)
      ensures loop == if status == Running && threads != [] then threads[hash % |threads|] else baseLoop
    {
      loop := baseLoop;
      if status == Running && threads != [] {
        loop := threads[hash % |threads|];
      }
    }

    /** What thread i does first in its loop: count itself, then call `OnThreadStarted`. */
    method StartHookOf(i: nat)
      requires Valid() && i < |phases| && phases[i].New?
      modifies this`startedCount, this`phases, this`status
      ensures Valid() && View() == Next(Next(old(View()), CountStart(i)), RunStartHook(i))
    {
      startedCount := startedCount + 1;
      var count := startedCount;
      phases := phases[i := StartHook(count)];
      OnThreadStarted(count, i);
    }

    /** Called with its own count by thread i: the machine's start hook. */
    method OnThreadStarted(count: nat, i: nat)
      requires Valid() && i < |phases| && phases[i] == StartHook(count)
      modifies this`phases, this`status
      ensures status == if count == threadNum then Running else old(status)
      ensures Valid() && View() == Next(old(View()), RunStartHook(i))
    {
      if count == threadNum {
        status := Running;
      }
      phases := phases[i := Looping];
    }

    /** What thread i does after its loop: its exit hook, then it is stopped. */
    method AfterLoop(i: nat)
      requires Valid() && i < |phases| && phases[i].Returned?
      modifies this`exitedCount, this`phases, this`status, this`armed, this`calls
      ensures Valid()
      ensures View() == Next(Next(Next(old(View()), CountExit(i)), RunExitHook(i)), MarkExited(i))
    {
      ExitHookOf(i);
      phases := phases[i := Exited(phases[i].count)];
    }

    /** The hook: count the exit, then call `OnThreadExited`. */
    method ExitHookOf(i: nat)
      requires Valid() && i < |phases| && phases[i].Returned?
      modifies this`exitedCount, this`phases, this`status, this`armed, this`calls
      ensures Valid() && View() == Next(Next(old(View()), CountExit(i)), RunExitHook(i))
    {
      exitedCount := exitedCount + 1;
      var count := exitedCount;
      phases := phases[i := ExitHook(count)];
      OnThreadExited(count, i);
    }

    /** Called with its own count by thread i: the machine's exit hook. */
    method OnThreadExited(count: nat, i: nat)
      requires Valid() && i < |phases| && phases[i] == ExitHook(count)
      modifies this`phases, this`status, this`armed, this`calls
      ensures count != threadNum ==> status == old(status) && armed == old(armed) && calls == old(calls)
      ensures count == threadNum ==> status == Stopped && !armed && calls == old(calls) + (if old(armed) then 1 else 0)
      ensures Valid() && View() == Next(old(View()), RunExitHook(i))
    {
      if count == threadNum {
        status := Stopped;
        if armed {
          calls := calls + 1;
          armed := false;
        }
      }
      phases := phases[i := HookDone(count)];
    }

    /** `Stop` up to its wait; for an empty pool, all of it. */
    method StopUntilWait()
      requires Valid() && stopper == Idle
      modifies this`status, this`stopper, this`armed, this`calls
      ensures threadNum == 0 ==> status == Stopped && calls == old(calls) + (if hasCallback then 1 else 0) && stopper == Done
      ensures threadNum > 0 ==> status == Stopping && armed == hasCallback && calls == old(calls) && stopper == Armed
      ensures Valid() && View() == NextStop(NextStop(old(View())))
    {
      status := Stopping;
      stopper := Announced;
      if threadNum == 0 {
        status := Stopped;
        if hasCallback {
          calls := calls + 1;
        }
        stopper := Done;
        return;
      }
      armed := hasCallback;
      stopper := Armed;
    }

    /** `Stop` from its wait on; asked to wait, it gets here once every thread is stopped. */
    method StopAfterWait()
      requires Valid() && stopper == Armed && (wait ==> All(phases, (t: Thread) => t.Exited?))
      modifies this`status, this`stopper
      ensures status == Stopped && stopper == Done
      ensures Valid() && View() == NextStop(NextStop(old(View())))
    {
      stopper := Waited;
      status := Stopped;
      stopper := Done;
    }
  }

}
