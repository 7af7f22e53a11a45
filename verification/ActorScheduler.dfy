/** The scheduler's own code: `Enqueue`, and the search `try_get_task` with its tick counter
    and its rotating steal loop, run without interference on the contents of the deques. */
module ActorScheduler {
  import opened Handles
  import opened G = GlobalQueue
  import opened Rotation
  import opened Ticks

  class ActorScheduler {
    const threads: nat
    const capacity: nat
    var globalQueue: GlobalQueue
    var locals: seq<seq<Handle>>
    var ticks: seq<nat>

    ghost predicate Valid()
      reads this, globalQueue
    {
      && threads > 0 && |locals| == threads && |ticks| == threads
      && (forall v :: 0 <= v < threads ==> |locals[v]| <= capacity && NULL !in locals[v])
      && NULL !in globalQueue.queue
    }

    constructor (threads: nat, capacity: nat)
      requires threads > 0
      ensures Valid() && NoWork() && fresh(globalQueue)
    {
      this.threads, this.capacity := threads, capacity;
      globalQueue := new GlobalQueue();
      locals, ticks := seq(threads, _ => []), seq(threads, _ => 0);
    }

    /** Submits a task: to the worker's own deque, or to the global queue when called from
        outside (`self >= threads`) or when the deque is full. */
    method Enqueue(self: nat, task: Handle) returns (wake: nat)
      requires Valid() && task != NULL
      modifies this`locals, globalQueue
      ensures Valid()
      ensures if self < threads && |old(locals)[self]| < capacity
              then && locals == old(locals)[self := old(locals)[self] + [task]]
                   && (globalQueue.Now(), wake) == Reported(old(globalQueue.Now()), |locals[self]|)
              else locals == old(locals) && (globalQueue.Now(), wake) == PushBack(old(globalQueue.Now()), [task])
    {
      wake := 0;
      if self < threads && |locals[self]| < capacity {
        locals := locals[self := locals[self] + [task]];
        if |locals[self]| > 1 {
          wake := globalQueue.NotifyOneIdle();
        }
        return;
      }
      wake := globalQueue.Push(task);
    }

    ghost predicate NoWork()
      requires |locals| == threads
      reads this, globalQueue
    {
      globalQueue.queue == [] && forall v :: 0 <= v < threads ==> locals[v] == []
    }

    /** The steal loop: one turn per worker, starting anywhere.  It takes the oldest task of the
        first worker in its order that has one. */
    method StealLoop(self: nat, start: nat) returns (task: Handle, wake: nat)
      requires Valid() && self < threads && start < threads && locals[self] == []
      modifies this`locals, globalQueue
      ensures Valid() && globalQueue.queue == old(globalQueue.queue)
      ensures if task == NULL
              then && locals == old(locals) && (globalQueue.Now(), wake) == (old(globalQueue.Now()), 0)
                   && forall v :: 0 <= v < threads ==> locals[v] == []
              else exists i: nat, v: nat ::
                     && FirstVictim(old(locals), self, start, i, v) && task == old(locals)[v][0]
                     && locals == old(locals)[v := old(locals)[v][1..]]
                     && (globalQueue.Now(), wake) == Reported(old(globalQueue.Now()), |locals[v]|)
    {
      task, wake := NULL, 0;
      var target := start;
      var i := 0;
      while i != threads
        invariant 0 <= i <= threads && (i < threads ==> target == Target(threads, start, i)) && task == NULL
        invariant forall j :: 0 <= j < i ==> locals[Target(threads, start, j)] == []
        invariant locals == old(locals) && globalQueue.Now() == old(globalQueue.Now())
        modifies {}
      {
        if target != self && locals[target] != [] {
          break;
        }
        NextTarget(threads, start, i);
        target := (target + 1) % threads;
        i := i + 1;
      }
      if i != threads {
        assert FirstVictim(old(locals), self, start, i, target);
        task := locals[target][0];
        locals := locals[target := locals[target][1..]];
        if |locals[target]| > 1 {
          wake := globalQueue.NotifyOneIdle();
        }
      } else {
        forall v | 0 <= v < threads ensures locals[v] == [] {
          TurnOfTarget(threads, start, Turn(threads, start, v), v);
          assert locals[Target(threads, start, Turn(threads, start, v))] == [];
        }
      }
    }

    /** One search by worker `self` that starts stealing at `start`.  It returns nothing exactly
        when there is no work; otherwise it removes exactly the returned task from the first
        place, in its order of preference, that has one. */
    method TryGetTask(self: nat, start: nat) returns (task: Handle, wake: nat)
      requires Valid() && self < threads && start < threads
      modifies this`locals, this`ticks, globalQueue
      ensures Valid() && ticks == old(ticks)[self := NextTick(old(ticks)[self])]
      ensures task == NULL <==> old(NoWork())
      ensures var g, ls := old(globalQueue.queue), old(locals);
              if g != [] && (GlobalFirst(old(ticks)[self]) || ls[self] == [])
              then && task == g[0] && globalQueue.Now() == old(globalQueue.Now()).(queue := g[1..])
                   && wake == 0 && locals == ls
              else if ls[self] != []
              then && task == ls[self][|ls[self]| - 1] && locals == ls[self := ls[self][..|ls[self]| - 1]]
                   && (globalQueue.Now(), wake) == (old(globalQueue.Now()), 0)
              else if task == NULL
              then locals == ls && (globalQueue.Now(), wake) == (old(globalQueue.Now()), 0)
              else exists i: nat, v: nat ::
                     && FirstVictim(ls, self, start, i, v) && task == ls[v][0] && locals == ls[v := ls[v][1..]]
                     && (globalQueue.Now(), wake) == Reported(old(globalQueue.Now()), |locals[v]|)
    {
      wake := 0;
      ticks := ticks[self := NextTick(ticks[self])];
      if ticks[self] % PERIOD == 0 {
        task := globalQueue.TryPop();
        if task != NULL {
          return;
        }
      }
      if locals[self] != [] {
        task := locals[self][|locals[self]| - 1];
        locals := locals[self := locals[self][..|locals[self]| - 1]];
        return;
      }
      task := globalQueue.TryPop();
      if task != NULL {
        return;
      }
      task, wake := StealLoop(self, start);
    }
  }

  /** A deque with more than one task left is reported to one idle worker. */
  function Reported(g: View, size: nat): (View, nat) {
    if size > 1 then Bump(g) else (g, 0)
  }

  /** `v` is the first worker with work in the order of the steal loop, at turn `i`. */
  ghost predicate FirstVictim(locals: seq<seq<Handle>>, self: nat, start: nat, i: nat, v: nat) {
    && i < |locals| && v == Target(|locals|, start, i) && v != self && locals[v] != []
    && forall j :: 0 <= j < i ==> locals[Target(|locals|, start, j)] == []
  }
}
