/** `thread_pool` as its own text has it, one call at a time, against the step machine. */
module ThreadPoolObject {
  import opened ThreadPools

  /** The machine's steps for worker i left to itself until it sleeps or exits. */
  function WorkAlone(s: State, i: nat): State
    requires IsAt(s, i, Ready)
    decreases |s.queue|
  {
    var s' := Next(s, Check(i));
    if s'.workers[i].Running? then WorkAlone(Next(s', Finish(i)), i) else s'
  }

  /** Alone, a worker runs the whole queue in order, then sleeps, or exits if the pool is stopping. */
  lemma {:induction false} WorkAloneDrains(s: State, i: nat)
    requires IsAt(s, i, Ready)
    ensures var s' := WorkAlone(s, i);
            && s'.queue == [] && s'.dequeued == s.dequeued + s.queue && s'.finished == s.finished + s.queue
            && s'.workers == s.workers[i := if s.stop then Exited else Blocked]
    decreases |s.queue|
  {
    if s.queue != [] {
      OneTask(s, i);
      WorkAloneDrains(Next(Next(s, Check(i)), Finish(i)), i);
      TakeFirst(s.dequeued, s.queue);
      TakeFirst(s.finished, s.queue);
    }
  }

  lemma OneTask(s: State, i: nat)
    requires IsAt(s, i, Ready) && s.queue != []
    ensures Next(Next(s, Check(i)), Finish(i))
            == s.(queue := s.queue[1..], dequeued := s.dequeued + [s.queue[0]], finished := s.finished + [s.queue[0]])
  {
    assert s.workers[i := Running(s.queue[0])][i := Ready] == s.workers;
  }

  class ThreadPool {
    var tasks: seq<TaskId>
    var stop: bool
    /** Where each worker thread stands. */
    var workers: seq<Worker>
    var destructor: Destructor
    var accepted: seq<TaskId>
    var dequeued: seq<TaskId>
    var finished: seq<TaskId>

    /** This pool as a machine state with no notification outstanding. */
    function View(): State
      reads this
    {
      State(tasks, stop, workers, 0, destructor, accepted, dequeued, finished)
    }

    constructor (threads: nat)
      ensures View() == Initial(threads)
    {
      tasks, stop, workers, destructor := [], false, seq(threads, (i: nat) => Ready), Alive;
      accepted, dequeued, finished := [], [], [];
    }

    /** Asking for more workers than the machine has cores is refused. */
    static method Create(cores: nat, threads: nat) returns (pool: ThreadPool?)
      ensures pool == null <==> cores < threads
      ensures pool != null ==> fresh(pool) && pool.View() == Initial(threads)
    {
      if cores < threads {
        return null;
      }
      pool := new ThreadPool(threads);
    }

    /** Accepts a task unless the pool is stopping, then wakes one sleeper if there is one. */
    method Enqueue(task: TaskId) returns (ok: bool)
      modifies this`tasks, this`accepted, this`workers
      ensures ok == !old(stop)
      ensures ok ==> tasks == old(tasks) + [task] && accepted == old(accepted) + [task]
      ensures ok ==> if SomeBlocked(old(View()))
                     then exists i: nat :: IsAt(old(View()), i, Blocked) && workers == old(workers)[i := Ready]
                     else workers == old(workers)
      ensures !ok ==> View() == old(View()) == Next(old(View()), ThreadPools.Action.Enqueue(task))
      ensures var s := Next(old(View()), ThreadPools.Action.Enqueue(task));
              && (ok && !SomeBlocked(s) ==> View() == Next(s, NotifyNobody))
              && (ok && SomeBlocked(s) ==> exists i :: Enabled(s, NotifyOne(i)) && View() == Next(s, NotifyOne(i)))
    {
      if stop {
        return false;
      }
      ghost var s := Next(View(), ThreadPools.Action.Enqueue(task));
      tasks := tasks + [task];
      accepted := accepted + [task];
      if i :| 0 <= i < |workers| && workers[i].Blocked? {
        workers := workers[i := Ready];
        assert IsAt(old(View()), i, Blocked);
        assert Enabled(s, NotifyOne(i)) && View() == Next(s, NotifyOne(i));
      }
      return true;
    }

    /** The loop of one worker thread, until it goes to sleep or returns. */
    method Work(i: nat)
      requires IsAt(View(), i, Ready)
      modifies this`tasks, this`dequeued, this`finished, this`workers
      ensures View() == WorkAlone(old(View()), i)
    {
      while true
        invariant IsAt(View(), i, Ready)
        invariant WorkAlone(View(), i) == WorkAlone(old(View()), i)
        decreases |tasks|
      {
        if !(stop || tasks != []) {
          workers := workers[i := Blocked];
          return;
        }
        if stop && tasks == [] {
          workers := workers[i := Exited];
          return;
        }
        var task := tasks[0];
        tasks := tasks[1..];
        dequeued := dequeued + [task];
        workers := workers[i := Running(task)];
        finished := finished + [task];
        workers := workers[i := Ready];
      }
    }

    /** The first half of the destructor; the joins follow. */
    method BeginStop()
      requires destructor == Alive
      modifies this`stop, this`destructor, this`workers
      ensures stop && destructor == Joining && |workers| == |old(workers)|
      ensures forall i :: 0 <= i < |workers| ==> workers[i] == if old(workers)[i].Blocked? then Ready else old(workers)[i]
      ensures View() == Next(Next(old(View()), SetStop), NotifyAll)
    {
      stop := true;
      destructor := Joining;
      workers := Awakened(workers);
    }
  }
}
