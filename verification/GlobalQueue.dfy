/** The global injection queue.

    Every operation is one critical section of its mutex, so each method is one atomic step
    of the scheduler protocol; `wake` is the number of `notify_one` calls that follow. */
module GlobalQueue {
  import opened Handles

  datatype View = View(queue: seq<Handle>, epoch: nat, idle: int, stopped: bool)

  function PushBack(g: View, tasks: seq<Handle>): (r: (View, nat))
    ensures (r.0.epoch == g.epoch + 1) == (r.1 > 0) == (tasks != [] && g.idle > 0)
    ensures r.0.epoch >= g.epoch && r.1 <= |tasks|
  {
    var wake := if g.idle <= 0 then 0 else if |tasks| < g.idle then |tasks| else g.idle;
    (g.(queue := g.queue + tasks, epoch := if wake > 0 then g.epoch + 1 else g.epoch), wake)
  }

  function PopFront(g: View): (r: (View, Handle))
    ensures g.queue == (if g.queue == [] then [] else [r.1]) + r.0.queue
  {
    if g.queue == [] then (g, NULL) else (g.(queue := g.queue[1..]), g.queue[0])
  }

  /** The bump that `notify_one_idle` makes. */
  function Bump(g: View): (r: (View, nat)) {
    if g.idle > 0 then (g.(epoch := g.epoch + 1), 1) else (g, 0)
  }

  predicate MustLeave(g: View, observed: nat) {
    g.stopped || g.epoch != observed
  }

  class GlobalQueue {
    var queue: seq<Handle>
    var idleThreads: int
    var wakeEpoch: nat
    var stopFlag: bool

    ghost function Now(): View
      reads this
    {
      View(queue, wakeEpoch, idleThreads, stopFlag)
    }

    constructor ()
      ensures Now() == View([], 0, 0, false)
    {
      queue, idleThreads, wakeEpoch, stopFlag := [], 0, 0, false;
    }

    method Push(task: Handle) returns (wake: nat)
      modifies this
      ensures queue == old(queue) + [task] && idleThreads == old(idleThreads) && stopFlag == old(stopFlag)
      ensures wake == (if old(idleThreads) > 0 then 1 else 0) && wakeEpoch == old(wakeEpoch) + wake
      ensures (Now(), wake) == PushBack(old(Now()), [task])
    {
      queue := queue + [task];
      wake := 0;
      if idleThreads > 0 {
        wakeEpoch := wakeEpoch + 1;
        wake := 1;
      }
    }

    /** Appends a batch and wakes as many threads as there are tasks and idlers. */
    method PushBatch(tasks: seq<Handle>) returns (wake: nat)
      modifies this
      ensures queue == old(queue) + tasks && idleThreads == old(idleThreads) && stopFlag == old(stopFlag)
      ensures old(idleThreads) >= 0 ==>
                wake <= |tasks| && wake <= old(idleThreads) && (wake == |tasks| || wake == old(idleThreads))
      ensures wakeEpoch == old(wakeEpoch) + if wake > 0 then 1 else 0
      ensures (Now(), wake) == PushBack(old(Now()), tasks)
    {
      if |tasks| == 0 {
        assert queue + tasks == queue;
        return 0;
      }
      for i := 0 to |tasks|
        invariant queue == old(queue) + tasks[..i]
        invariant idleThreads == old(idleThreads) && wakeEpoch == old(wakeEpoch) && stopFlag == old(stopFlag)
      {
        queue := queue + [tasks[i]];
      }
      assert tasks[..|tasks|] == tasks;
      wake := if idleThreads <= 0 then 0 else if |tasks| < idleThreads then |tasks| else idleThreads;
      if wake > 0 {
        wakeEpoch := wakeEpoch + 1;
      }
    }

    method TryPop() returns (task: Handle)
      modifies this
      ensures idleThreads == old(idleThreads) && stopFlag == old(stopFlag) && wakeEpoch == old(wakeEpoch)
      ensures if old(queue) == [] then task == NULL && queue == [] else old(queue) == [task] + queue
      ensures (Now(), task) == PopFront(old(Now()))
    {
      if queue == [] {
        return NULL;
      }
      task := queue[0];
      queue := queue[1..];
    }

    method NotifyOneIdle() returns (wake: nat)
      modifies this
      ensures queue == old(queue) && idleThreads == old(idleThreads) && stopFlag == old(stopFlag)
      ensures wake == (if old(idleThreads) > 0 then 1 else 0) && wakeEpoch == old(wakeEpoch) + wake
      ensures (Now(), wake) == Bump(old(Now()))
    {
      wake := 0;
      if idleThreads > 0 {
        wakeEpoch := wakeEpoch + 1;
        wake := 1;
      }
    }

    method PreparePark() returns (epoch: nat)
      modifies this
      ensures Now() == old(Now()).(idle := old(idleThreads) + 1) && epoch == wakeEpoch
    {
      idleThreads := idleThreads + 1;
      epoch := wakeEpoch;
    }

    method CancelPark()
      modifies this
      ensures Now() == old(Now()).(idle := old(idleThreads) - 1)
    {
      idleThreads := idleThreads - 1;
    }

    /** One evaluation of the wait condition under the mutex: leave, or stay in the wait set. */
    method ParkCheck(observed: nat) returns (leave: bool)
      modifies this
      ensures leave <==> old(stopFlag) || old(wakeEpoch) != observed
      ensures Now() == if leave then old(Now()).(idle := old(idleThreads) - 1) else old(Now())
    {
      leave := stopFlag || wakeEpoch != observed;
      if leave {
        idleThreads := idleThreads - 1;
      }
    }

    method Stop() returns (notifyAll: bool)
      modifies this
      ensures notifyAll == !old(stopFlag)
      ensures Now() == if old(stopFlag) then old(Now())
                       else old(Now()).(stopped := true, epoch := old(wakeEpoch) + 1)
    {
      if stopFlag {
        return false;
      }
      stopFlag := true;
      wakeEpoch := wakeEpoch + 1;
      notifyAll := true;
    }
  }
}
