/** How long a task can wait in the global queue of the scheduler when one worker's ticks follow
    its counter; the other workers may do anything. */
module Fairness {
  import opened Handles
  import opened Scheduler
  import opened Ticks

  /** What a step removes from the global queue. */
  function Removed(s: State, l: Label): seq<Handle> {
    if l.Work? && l.w < |s.pcs| && (s.pcs[l.w].TickPop? || s.pcs[l.w].GlobalPop?) && s.g.queue != [] then [s.g.queue[0]]
    else []
  }

  /** What a run from `s` removes, in order. */
  function Gone(s: State, ls: seq<Label>): seq<Handle>
    requires Shaped(s)
  {
    if ls == [] then [] else Gone(s, ls[..|ls| - 1]) + Removed(Exec(s, ls[..|ls| - 1]), ls[|ls| - 1])
  }

  /** Worker `w` begins a search, which counts its tick. */
  predicate BeginsSearch(s: State, l: Label, w: nat) {
    l.Work? && l.w == w && w < |s.pcs| && s.pcs[w].Begin? && (s.pcs[w].c.Idle? || s.running)
  }

  /** Worker `w` makes the first look at the global queue of a search. */
  predicate LooksFirst(s: State, l: Label, w: nat) {
    l.Work? && l.w == w && w < |s.pcs| && s.pcs[w].TickPop?
  }

  function Searches(s: State, ls: seq<Label>, w: nat): nat
    requires Shaped(s)
  {
    if ls == [] then 0
    else Searches(s, ls[..|ls| - 1], w) + if BeginsSearch(Exec(s, ls[..|ls| - 1]), ls[|ls| - 1], w) then 1 else 0
  }

  function Looks(s: State, ls: seq<Label>, w: nat): nat
    requires Shaped(s)
  {
    if ls == [] then 0
    else Looks(s, ls[..|ls| - 1], w) + if LooksFirst(Exec(s, ls[..|ls| - 1]), ls[|ls| - 1], w) then 1 else 0
  }

  /** From `s` on, with `tick` in its counter, worker `w` looks at the global queue first
      exactly when its counter says so. */
  predicate FollowsTicks(s: State, ls: seq<Label>, w: nat, tick: nat)
    requires Shaped(s)
  {
    if ls == [] then true
    else
      var ls0, l := ls[..|ls| - 1], ls[|ls| - 1];
      && FollowsTicks(s, ls0, w, tick)
      && (BeginsSearch(Exec(s, ls0), l, w) ==> l.tick == GlobalFirst(TickAfter(tick, Searches(s, ls0, w))))
  }

  /** What one step of a worker does to the program counters and to the global queue. */
  predicate Moves(s: State, s': State, l: Label) {
    && l.Work? && l.w < |s.pcs| == |s'.pcs|
    && s'.pcs == s.pcs[l.w := s'.pcs[l.w]]
    && (s'.pcs[l.w].TickPop? <==> BeginsSearch(s, l, l.w) && l.tick)
    && s.g.queue <= Removed(s, l) + s'.g.queue
  }

  lemma DequeSteps(s: State, w: nat, tick: bool, start: nat, act: Act)
    requires Shaped(s) && w < s.n && (s.pcs[w].LocalPop? || s.pcs[w].LocalPush? || s.pcs[w].Stealing?)
    ensures Moves(s, WorkStep(s, w, tick, start, act), Work(w, tick, start, act))
  {
    match s.pcs[w]
    case LocalPop(c) => assert !LocalPopStep(s, w, c).pcs[w].TickPop?;
    case LocalPush(h) => assert !LocalPushStep(s, w, h).pcs[w].TickPop?;
    case Stealing(c, first, i) => assert !StealStep(s, w, c, first, i).pcs[w].TickPop?;
  }

  lemma PopMoves(s: State, w: nat, tick: bool, start: nat, act: Act)
    requires Shaped(s) && w < s.n && (s.pcs[w].TickPop? || s.pcs[w].GlobalPop?)
    ensures Moves(s, WorkStep(s, w, tick, start, act), Work(w, tick, start, act))
  {
    assert s.g.queue != [] ==> [s.g.queue[0]] + s.g.queue[1..] == s.g.queue;
  }

  lemma TaskMoves(s: State, w: nat, tick: bool, start: nat, act: Act)
    requires Shaped(s) && w < s.n && s.pcs[w].Running?
    ensures Moves(s, WorkStep(s, w, tick, start, act), Work(w, tick, start, act))
  {
    var s' := TaskStep(s, w, act);
    assert !s'.pcs[w].TickPop? && s.g.queue <= s'.g.queue;
    assert [] + s'.g.queue == s'.g.queue;
  }

  lemma PushMoves(s: State, w: nat, tick: bool, start: nat, act: Act)
    requires Shaped(s) && w < s.n && (s.pcs[w].GlobalPush? || s.pcs[w].VictimNotify? || s.pcs[w].OwnNotify?)
    ensures Moves(s, WorkStep(s, w, tick, start, act), Work(w, tick, start, act))
  {
    var s' := WorkStep(s, w, tick, start, act);
    assert [] + s'.g.queue == s'.g.queue;
  }

  lemma LoopMoves(s: State, w: nat, tick: bool, start: nat, act: Act)
    requires Shaped(s) && w < s.n && (s.pcs[w].Begin? || s.pcs[w].Got? || s.pcs[w].Prepare? || s.pcs[w].Park?)
    ensures Moves(s, WorkStep(s, w, tick, start, act), Work(w, tick, start, act))
  {
    assert [] + s.g.queue == s.g.queue;
  }

  lemma CheckMoves(s: State, w: nat, tick: bool, start: nat, act: Act)
    requires Shaped(s) && w < s.n
    requires var pc := s.pcs[w];
             pc.VictimTop? || pc.VictimBottom? || pc.OwnTop? || pc.OwnBottom? || pc.Waiting? || pc.Exited?
    ensures Moves(s, WorkStep(s, w, tick, start, act), Work(w, tick, start, act))
  {
    assert [] + s.g.queue == s.g.queue;
  }

  lemma WorkMoves(s: State, w: nat, tick: bool, start: nat, act: Act)
    requires Shaped(s) && w < s.n
    ensures Moves(s, WorkStep(s, w, tick, start, act), Work(w, tick, start, act))
  {
    var pc := s.pcs[w];
    if pc.LocalPop? || pc.LocalPush? || pc.Stealing? {
      DequeSteps(s, w, tick, start, act);
    } else if pc.TickPop? || pc.GlobalPop? {
      PopMoves(s, w, tick, start, act);
    } else if pc.Running? {
      TaskMoves(s, w, tick, start, act);
    } else if pc.GlobalPush? || pc.VictimNotify? || pc.OwnNotify? {
      PushMoves(s, w, tick, start, act);
    } else if pc.Begin? || pc.Got? || pc.Prepare? || pc.Park? {
      LoopMoves(s, w, tick, start, act);
    } else {
      CheckMoves(s, w, tick, start, act);
    }
  }

  lemma QueueMoves(s: State, l: Label)
    requires Shaped(s)
    ensures s.g.queue <= Removed(s, l) + Step(s, l).g.queue
  {
    if l.Work? && l.w < s.n {
      WorkMoves(s, l.w, l.tick, l.start, l.act);
    }
  }

  lemma PrefixGrows(q: seq<Handle>, gone: seq<Handle>, before: seq<Handle>, removed: seq<Handle>, after: seq<Handle>)
    requires q <= gone + before && before <= removed + after
    ensures q <= gone + removed + after
  {
    assert gone + removed + after == gone + (removed + after);
  }

  /** First in, first out: the tasks in the global queue leave in their order, whatever the
      workers and the submitters do. */
  lemma {:induction false} Fifo(s: State, ls: seq<Label>)
    requires Shaped(s)
    ensures s.g.queue <= Gone(s, ls) + Exec(s, ls).g.queue
  {
    if ls != [] {
      var ls0, l := ls[..|ls| - 1], ls[|ls| - 1];
      Fifo(s, ls0);
      var s0 := Exec(s, ls0);
      QueueMoves(s0, l);
      PrefixGrows(s.g.queue, Gone(s, ls0), s0.g.queue, Removed(s0, l), Step(s0, l).g.queue);
    }
  }

  function Pending(s: State, w: nat): nat {
    if w < |s.pcs| && s.pcs[w].TickPop? then 1 else 0
  }

  /** A step leaves a first look pending exactly if a search has just begun with its tick, or
      one was pending and another thread moved. */
  lemma PendingStep(s: State, l: Label, w: nat)
    requires Shaped(s) && w < s.n
    ensures Pending(Step(s, l), w)
         == if BeginsSearch(s, l, w) then (if l.tick then 1 else 0) else if LooksFirst(s, l, w) then 0 else Pending(s, w)
  {
    if l.Work? && l.w < s.n {
      WorkMoves(s, l.w, l.tick, l.start, l.act);
    }
  }

  /** Every search that the tick sends to the global queue first gets there. */
  lemma {:induction false} TicksAreKept(s: State, ls: seq<Label>, w: nat, tick: nat)
    requires Shaped(s) && w < s.n && FollowsTicks(s, ls, w, tick)
    ensures Looks(s, ls, w) + Pending(Exec(s, ls), w) == Forced(tick, Searches(s, ls, w)) + Pending(s, w)
  {
    if ls != [] {
      var ls0, l := ls[..|ls| - 1], ls[|ls| - 1];
      TicksAreKept(s, ls0, w, tick);
      var s0 := Exec(s, ls0);
      PendingStep(s0, l, w);
      CountsStep(s, ls, w, tick);
      assert Exec(s, ls) == Step(s0, l);
    }
  }

  /** What the last step of a run adds to its searches, forced searches and first looks. */
  lemma CountsStep(s: State, ls: seq<Label>, w: nat, tick: nat)
    requires Shaped(s) && w < s.n && ls != [] && FollowsTicks(s, ls, w, tick)
    ensures var ls0, l := ls[..|ls| - 1], ls[|ls| - 1];
            var s0 := Exec(s, ls0);
            && FollowsTicks(s, ls0, w, tick)
            && Looks(s, ls, w) == Looks(s, ls0, w) + (if LooksFirst(s0, l, w) then 1 else 0)
            && Forced(tick, Searches(s, ls, w))
               == Forced(tick, Searches(s, ls0, w)) + if BeginsSearch(s0, l, w) && l.tick then 1 else 0
  {
  }

  /** Each first look removes a task while those of the beginning last. */
  lemma {:induction false} LooksTake(s: State, ls: seq<Label>, w: nat)
    requires Shaped(s)
    ensures |Gone(s, ls)| >= |s.g.queue| || |Gone(s, ls)| >= Looks(s, ls, w)
  {
    if ls != [] {
      LooksTake(s, ls[..|ls| - 1], w);
      Fifo(s, ls[..|ls| - 1]);
    }
  }

  /** Bounded waiting: from any state and whatever the others do, a task with `k` tasks ahead of
      it in the global queue has been removed once one worker has begun 61 * (k + 1) searches
      and is not about to look there, however busy its own deque is. */
  lemma BoundedWaiting(s: State, ls: seq<Label>, w: nat, tick: nat, k: nat)
    requires Shaped(s) && w < s.n && FollowsTicks(s, ls, w, tick) && k < |s.g.queue|
    requires Searches(s, ls, w) >= 61 * (k + 1) && !Exec(s, ls).pcs[w].TickPop?
    ensures k < |Gone(s, ls)| && Gone(s, ls)[k] == s.g.queue[k]
  {
    ManyLooks(s, ls, w, tick, k + 1);
    LooksTake(s, ls, w);
    Fifo(s, ls);
  }

  lemma ManyLooks(s: State, ls: seq<Label>, w: nat, tick: nat, periods: nat)
    requires Shaped(s) && w < s.n && FollowsTicks(s, ls, w, tick)
    requires Searches(s, ls, w) >= 61 * periods && !Exec(s, ls).pcs[w].TickPop?
    ensures Looks(s, ls, w) >= periods
  {
    TicksAreKept(s, ls, w, tick);
    ForcedAtLeast(tick, periods);
    ForcedGrows(tick, 61 * periods, Searches(s, ls, w));
  }
}
