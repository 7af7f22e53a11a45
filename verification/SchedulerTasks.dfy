/** Every task submitted to the scheduler is started exactly once or is still somewhere in it:
    in the global queue, in a deque, or in the hands of a worker. */
module SchedulerTasks {
  import opened Handles
  import opened Words
  import opened G = GlobalQueue
  import opened Rotation
  import opened Scheduler

  /** What a worker carries at `pc`, or `NULL`. */
  function Carried(pc: Pc): Handle {
    match pc
    case VictimTop(_, _, h) => h
    case VictimBottom(_, _, h, _) => h
    case VictimNotify(_, _, h) => h
    case Got(_, h) => h
    case LocalPush(h) => h
    case GlobalPush(h) => h
    case _ => NULL
  }

  function Is(x: Handle, h: Handle): nat {
    if x == h then 1 else 0
  }

  function Sum(ns: seq<nat>): nat {
    if ns == [] then 0 else Sum(ns[..|ns| - 1]) + ns[|ns| - 1]
  }

  lemma {:induction false} SumUpdate(ns: seq<nat>, i: nat, n: nat)
    requires i < |ns|
    ensures Sum(ns[i := n]) == Sum(ns) - ns[i] + n
    decreases |ns|
  {
    var k := |ns| - 1;
    if i < k {
      SumUpdate(ns[..k], i, n);
      assert ns[i := n][..k] == ns[..k][i := n];
    } else {
      assert ns[i := n][..k] == ns[..k];
    }
  }

  lemma {:induction false} SumOfZeros(ns: seq<nat>)
    requires forall i :: 0 <= i < |ns| ==> ns[i] == 0
    ensures Sum(ns) == 0
  {
    if ns != [] {
      SumOfZeros(ns[..|ns| - 1]);
    }
  }

  function Hands(pcs: seq<Pc>, h: Handle): (ns: seq<nat>)
    ensures |ns| == |pcs|
  {
    seq(|pcs|, x requires 0 <= x < |pcs| => Is(Carried(pcs[x]), h))
  }

  ghost predicate AllInv(ds: seq<D.State>) {
    forall v :: 0 <= v < |ds| ==> D.Inv(ds[v])
  }

  ghost function Times(d: D.State, h: Handle): nat
    requires D.Inv(d)
  {
    multiset(D.Contents(d))[h]
  }

  ghost function Stored(ds: seq<D.State>, h: Handle): (ns: seq<nat>)
    requires AllInv(ds)
    ensures |ns| == |ds|
  {
    seq(|ds|, v requires 0 <= v < |ds| => Times(ds[v], h))
  }

  /** Where task `h` still is, counted. */
  ghost function Held(s: State, h: Handle): nat
    requires AllInv(s.deques)
  {
    multiset(s.g.queue)[h] + Sum(Stored(s.deques, h)) + Sum(Hands(s.pcs, h))
  }

  lemma HandsUpdate(pcs: seq<Pc>, w: nat, pc: Pc, h: Handle)
    requires w < |pcs|
    ensures Sum(Hands(pcs[w := pc], h)) == Sum(Hands(pcs, h)) - Is(Carried(pcs[w]), h) + Is(Carried(pc), h)
  {
    SumUpdate(Hands(pcs, h), w, Is(Carried(pc), h));
    assert Hands(pcs[w := pc], h) == Hands(pcs, h)[w := Is(Carried(pc), h)];
  }

  lemma StoredUpdate(ds: seq<D.State>, v: nat, d: D.State, h: Handle)
    requires v < |ds| && AllInv(ds) && D.Inv(d)
    ensures AllInv(ds[v := d])
    ensures Sum(Stored(ds[v := d], h)) == Sum(Stored(ds, h)) - Times(ds[v], h) + Times(d, h)
  {
    SumUpdate(Stored(ds, h), v, Times(d, h));
    assert Stored(ds[v := d], h) == Stored(ds, h)[v := Times(d, h)];
  }

  /** Tasks that enter with a step: submitted by the running task or from outside. */
  function Entering(s: State, l: Label, h: Handle): nat
    requires Shaped(s)
  {
    match l
    case Work(w, _, _, act) =>
      if w < s.n && s.pcs[w].Running? then
        (match act
         case Submit(x) => if x != NULL then Is(x, h) else 0
         case SubmitBatch(hs) => if NoNulls(hs) then multiset(hs)[h] else 0
         case Finish => 0)
      else 0
    case Inject(hs) => if NoNulls(hs) then multiset(hs)[h] else 0
    case _ => 0
  }

  /** Tasks that a worker starts to run with a step. */
  function Starting(s: State, l: Label, h: Handle): nat
    requires Shaped(s)
  {
    if l.Work? && l.w < s.n && s.pcs[l.w].Got? then Is(s.pcs[l.w].h, h) else 0
  }

  // ------------------------------------------------------------------ one step

  /** What an answer does to the count of `h` in the deque. */
  function Change(e: D.Event, h: Handle): int {
    (D.In(e)[h] as int) - D.Out(e)[h]
  }

  lemma ContentsChange(d: D.State, l: D.Label, h: Handle)
    requires DequeInv(d) && h != NULL
    ensures var (d', e) := D.Step(Exact, d, l);
            D.Inv(d') && Times(d', h) == Times(d, h) + Change(e, h)
  {
    D.StepRefines(d, l);
    D.ApplyConserves(d.n, D.Contents(d), D.Step(Exact, d, l).1, h);
  }

  /** A step of worker `w` inside deque `v`. */
  lemma InDequeConserves(s: State, w: nat, v: nat, l: D.Label, pc: Pc, h: Handle)
    requires Shaped(s) && AllInv(s.deques) && w < s.n && v < s.n && DequeInv(s.deques[v]) && h != NULL
    requires Is(Carried(pc), h) == Is(Carried(s.pcs[w]), h) - Change(D.Step(Exact, s.deques[v], l).1, h)
    ensures var s' := InDeque(s, w, v, D.Step(Exact, s.deques[v], l).0, pc);
            AllInv(s'.deques) && Held(s', h) == Held(s, h)
  {
    ContentsChange(s.deques[v], l, h);
    StoredUpdate(s.deques, v, D.Step(Exact, s.deques[v], l).0, h);
    HandsUpdate(s.pcs, w, pc, h);
  }

  lemma LocalPopConserves(s: State, w: nat, h: Handle)
    requires Inv(s) && AllInv(s.deques) && w < s.n && h != NULL && s.pcs[w].LocalPop?
    ensures var s' := LocalPopStep(s, w, s.pcs[w].c);
            AllInv(s'.deques) && Held(s', h) == Held(s, h)
  {
    var d, pc := s.deques[w], s.pcs[w];
    assert OwnInv(s, w) && DequeOk(s, w);
    var l := if d.owner.Ready? then D.Pop else D.Own;
    OwnerAt(d, l);
    InDequeConserves(s, w, w, l, AfterPop(pc.c, D.Step(Exact, d, l).1), h);
  }

  lemma LocalPushConserves(s: State, w: nat, h: Handle)
    requires Inv(s) && AllInv(s.deques) && w < s.n && h != NULL && s.pcs[w].LocalPush?
    ensures var s' := LocalPushStep(s, w, s.pcs[w].h);
            AllInv(s'.deques) && Held(s', h) == Held(s, h)
  {
    var d, pc := s.deques[w], s.pcs[w];
    assert OwnInv(s, w) && DequeOk(s, w);
    var l := if d.owner.Ready? then D.Push(pc.h) else D.Own;
    OwnerAt(d, l);
    var e := D.Step(Exact, d, l).1;
    assert e.PushDone? ==> e.h == pc.h;
    InDequeConserves(s, w, w, l, AfterPush(pc.h, e), h);
  }

  lemma StealConserves(s: State, w: nat, h: Handle)
    requires Inv(s) && AllInv(s.deques) && w < s.n && h != NULL && s.pcs[w].Stealing? && s.pcs[w].i < s.n
    requires Target(s.n, s.pcs[w].start, s.pcs[w].i) != w
    ensures var s' := StealStep(s, w, s.pcs[w].c, s.pcs[w].start, s.pcs[w].i);
            AllInv(s'.deques) && Held(s', h) == Held(s, h)
  {
    var pc := s.pcs[w];
    var v := Target(s.n, pc.start, pc.i);
    var d := s.deques[v];
    assert DequeOk(s, v);
    var l := if d.Thief(w).Away? then D.Steal(w) else D.Go(w);
    ThiefAt(d, w);
    InDequeConserves(s, w, v, l, AfterSteal(pc.c, pc.start, pc.i, v, D.Step(Exact, d, l).1), h);
  }

  /** Moving one worker, and the global queue with it. */
  lemma MoveTally(s: State, s': State, w: nat, pc: Pc, h: Handle)
    requires w < |s.pcs| && AllInv(s.deques) && s'.deques == s.deques && s'.pcs == s.pcs[w := pc]
    ensures Held(s', h) - multiset(s'.g.queue)[h] - Is(Carried(pc), h)
         == Held(s, h) - multiset(s.g.queue)[h] - Is(Carried(s.pcs[w]), h)
  {
    HandsUpdate(s.pcs, w, pc, h);
  }

  /** The other steps move one worker and perhaps tasks of the global queue. */
  lemma GlobalPopConserves(s: State, w: nat, tick: bool, start: nat, act: Act, h: Handle)
    requires Shaped(s) && AllInv(s.deques) && NoNulls(s.g.queue) && w < s.n && h != NULL
    requires s.pcs[w].TickPop? || s.pcs[w].GlobalPop?
    ensures var s' := WorkStep(s, w, tick, start, act);
            s'.deques == s.deques && Held(s', h) == Held(s, h)
  {
    var s' := WorkStep(s, w, tick, start, act);
    MoveTally(s, s', w, s'.pcs[w], h);
    PopCounts(s.g, h);
  }

  lemma GlobalPushConserves(s: State, w: nat, tick: bool, start: nat, act: Act, h: Handle)
    requires Shaped(s) && AllInv(s.deques) && w < s.n && h != NULL && s.pcs[w].GlobalPush?
    ensures var s' := WorkStep(s, w, tick, start, act);
            s'.deques == s.deques && Held(s', h) == Held(s, h)
  {
    MoveTally(s, WorkStep(s, w, tick, start, act), w, Running, h);
    assert multiset([s.pcs[w].h])[h] == Is(s.pcs[w].h, h);
  }

  lemma BatchConserves(s: State, hs: seq<Handle>, h: Handle)
    requires AllInv(s.deques)
    ensures Held(Signalled(s, PushBack(s.g, hs)), h) == Held(s, h) + multiset(hs)[h]
  {
    assert multiset(s.g.queue + hs)[h] == multiset(s.g.queue)[h] + multiset(hs)[h];
  }

  lemma TaskConserves(s: State, w: nat, act: Act, h: Handle)
    requires Shaped(s) && AllInv(s.deques) && w < s.n && h != NULL && s.pcs[w].Running?
    ensures var s' := TaskStep(s, w, act);
            s'.deques == s.deques && Held(s', h) == Held(s, h) + Entering(s, Work(w, false, 0, act), h)
  {
    if act.SubmitBatch? {
      BatchConserves(s, act.hs, h);
    } else {
      var s' := TaskStep(s, w, act);
      MoveTally(s, s', w, s'.pcs[w], h);
    }
  }

  lemma StartConserves(s: State, w: nat, tick: bool, start: nat, act: Act, h: Handle)
    requires Shaped(s) && AllInv(s.deques) && w < s.n && h != NULL && s.pcs[w].Got?
    ensures var s' := WorkStep(s, w, tick, start, act);
            s'.deques == s.deques && Held(s', h) + Is(s.pcs[w].h, h) == Held(s, h)
  {
    MoveTally(s, WorkStep(s, w, tick, start, act), w, Running, h);
  }

  /** Steps that carry on with the same task, or with none. */
  predicate CarriesOn(s: State, s': State, w: nat)
    requires w < |s.pcs|
  {
    && s'.deques == s.deques && s'.g.queue == s.g.queue && |s'.pcs| == |s.pcs|
    && s'.pcs == s.pcs[w := s'.pcs[w]] && Carried(s'.pcs[w]) == Carried(s.pcs[w])
  }

  lemma CheckStep(s: State, w: nat, tick: bool, start: nat, act: Act)
    requires Shaped(s) && w < s.n
    requires var pc := s.pcs[w];
             pc.VictimTop? || pc.VictimBottom? || pc.VictimNotify? || pc.OwnTop? || pc.OwnBottom? || pc.OwnNotify?
    ensures CarriesOn(s, WorkStep(s, w, tick, start, act), w)
  {
  }

  lemma LoopStep(s: State, w: nat, tick: bool, start: nat, act: Act)
    requires Shaped(s) && w < s.n
    requires var pc := s.pcs[w];
             pc.Begin? || pc.Prepare? || pc.Park? || pc.Waiting? || pc.Exited? || pc.Stealing?
    requires s.pcs[w].Stealing? ==> s.pcs[w].i >= s.n || Target(s.n, s.pcs[w].start, s.pcs[w].i) == w
    ensures CarriesOn(s, WorkStep(s, w, tick, start, act), w)
  {
  }

  lemma PopCounts(g: View, h: Handle)
    requires NoNulls(g.queue) && h != NULL
    ensures multiset(PopFront(g).0.queue)[h] == multiset(g.queue)[h] - Is(PopFront(g).1, h)
  {
    if g.queue != [] {
      D.LastOut(g.queue);
    }
  }

  lemma WokenCarry(pcs: seq<Pc>, k: nat, h: Handle)
    requires h != NULL
    ensures Hands(FirstWoken(pcs, k), h) == Hands(pcs, h)
  {
  }

  /** What a step of a worker has to keep. */
  ghost predicate Conserved(s: State, s': State, l: Label, h: Handle)
    requires Shaped(s) && AllInv(s.deques)
  {
    AllInv(s'.deques) && Held(s', h) + Starting(s, l, h) == Held(s, h) + Entering(s, l, h)
  }

  lemma InsideConserved(s: State, w: nat, tick: bool, start: nat, act: Act, h: Handle)
    requires Inv(s) && AllInv(s.deques) && h != NULL && w < s.n && (s.pcs[w].LocalPop? || s.pcs[w].LocalPush?)
    ensures Conserved(s, WorkStep(s, w, tick, start, act), Work(w, tick, start, act), h)
  {
    var s' := WorkStep(s, w, tick, start, act);
    if s.pcs[w].LocalPop? {
      assert s' == LocalPopStep(s, w, s.pcs[w].c);
      LocalPopConserves(s, w, h);
    } else {
      assert s' == LocalPushStep(s, w, s.pcs[w].h);
      LocalPushConserves(s, w, h);
    }
    assert Starting(s, Work(w, tick, start, act), h) == 0 == Entering(s, Work(w, tick, start, act), h);
  }

  lemma ElsewhereConserved(s: State, w: nat, tick: bool, start: nat, act: Act, h: Handle)
    requires Inv(s) && AllInv(s.deques) && h != NULL && w < s.n
    requires var pc := s.pcs[w]; !pc.LocalPop? && !pc.LocalPush? && !pc.Running? && !pc.Got?
    ensures Conserved(s, WorkStep(s, w, tick, start, act), Work(w, tick, start, act), h)
  {
    var s', pc := WorkStep(s, w, tick, start, act), s.pcs[w];
    if pc.Stealing? && pc.i < s.n && Target(s.n, pc.start, pc.i) != w {
      assert s' == StealStep(s, w, pc.c, pc.start, pc.i);
      StealConserves(s, w, h);
    } else if pc.TickPop? || pc.GlobalPop? {
      GlobalPopConserves(s, w, tick, start, act, h);
    } else if pc.GlobalPush? {
      GlobalPushConserves(s, w, tick, start, act, h);
    } else {
      CarriesOnElsewhere(s, w, tick, start, act);
      CarryingConserves(s, s', w, h);
    }
    assert Starting(s, Work(w, tick, start, act), h) == 0 == Entering(s, Work(w, tick, start, act), h);
  }

  lemma WorkConserves(s: State, w: nat, tick: bool, start: nat, act: Act, h: Handle)
    requires Inv(s) && AllInv(s.deques) && h != NULL && w < s.n
    ensures Conserved(s, WorkStep(s, w, tick, start, act), Work(w, tick, start, act), h)
  {
    if s.pcs[w].LocalPop? || s.pcs[w].LocalPush? {
      InsideConserved(s, w, tick, start, act, h);
    } else if s.pcs[w].Running? {
      TaskConserves(s, w, act, h);
    } else if s.pcs[w].Got? {
      StartConserves(s, w, tick, start, act, h);
    } else {
      ElsewhereConserved(s, w, tick, start, act, h);
    }
  }

  lemma CarriesOnElsewhere(s: State, w: nat, tick: bool, start: nat, act: Act)
    requires Shaped(s) && w < s.n
    requires var pc := s.pcs[w];
             && !pc.LocalPop? && !pc.LocalPush? && !pc.TickPop? && !pc.GlobalPop? && !pc.GlobalPush?
             && !pc.Running? && !pc.Got? && (pc.Stealing? ==> pc.i >= s.n || Target(s.n, pc.start, pc.i) == w)
    ensures CarriesOn(s, WorkStep(s, w, tick, start, act), w)
  {
    var pc := s.pcs[w];
    if pc.Begin? || pc.Prepare? || pc.Park? || pc.Waiting? || pc.Exited? || pc.Stealing? {
      LoopStep(s, w, tick, start, act);
    } else {
      CheckStep(s, w, tick, start, act);
    }
  }

  lemma CarryingConserves(s: State, s': State, w: nat, h: Handle)
    requires w < |s.pcs| && AllInv(s.deques) && CarriesOn(s, s', w)
    ensures AllInv(s'.deques) && Held(s', h) == Held(s, h)
  {
    MoveTally(s, s', w, s'.pcs[w], h);
  }

  lemma WakeConserves(s: State, w: nat, h: Handle)
    requires Shaped(s) && AllInv(s.deques) && h != NULL && w < s.n
    ensures Held(At(s, w, Woken(s.pcs[w])), h) == Held(s, h)
  {
    MoveTally(s, At(s, w, Woken(s.pcs[w])), w, Woken(s.pcs[w]), h);
  }

  /** Only the places that the count depends on matter. */
  lemma SamePlaces(s: State, s': State, h: Handle)
    requires AllInv(s.deques) && s'.deques == s.deques && s'.pcs == s.pcs
    ensures Held(s', h) - multiset(s'.g.queue)[h] == Held(s, h) - multiset(s.g.queue)[h]
  {
  }

  lemma OutsideConserves(s: State, l: Label, h: Handle)
    requires Shaped(s) && AllInv(s.deques) && h != NULL && !l.Work?
    ensures AllInv(Step(s, l).deques) && Held(Step(s, l), h) == Held(s, h) + Entering(s, l, h)
  {
    var s' := Step(s, l);
    if l.Deliver? && s.signals > 0 && l.w < s.n && s.pcs[l.w].Waiting? {
      WakeConserves(s, l.w, h);
      SamePlaces(At(s, l.w, Woken(s.pcs[l.w])), s', h);
    } else if l.Spurious? && l.w < s.n {
      WakeConserves(s, l.w, h);
    } else if l.DeliverAll? && s.broadcast {
      WokenCarry(s.pcs, s.n, h);
    } else {
      SamePlaces(s, s', h);
    }
  }

  /** One step: what is held afterwards, plus what it started, is what was held plus what it
      let in. */
  lemma StepConserves(s: State, l: Label, h: Handle)
    requires Inv(s) && AllInv(s.deques) && h != NULL
    ensures AllInv(Step(s, l).deques)
    ensures Held(Step(s, l), h) + Starting(s, l, h) == Held(s, h) + Entering(s, l, h)
  {
    if l.Work? {
      if l.w < s.n {
        WorkConserves(s, l.w, l.tick, l.start, l.act, h);
      }
    } else {
      OutsideConserves(s, l, h);
    }
  }

  // ------------------------------------------------------------------ whole runs

  function Submitted(n: nat, capacity: nat, ls: seq<Label>, h: Handle): nat
    requires n > 0 && capacity > 0
  {
    if ls == [] then 0
    else
      var ls0 := ls[..|ls| - 1];
      Submitted(n, capacity, ls0, h) + Entering(Exec(Init(n, capacity), ls0), ls[|ls| - 1], h)
  }

  function Started(n: nat, capacity: nat, ls: seq<Label>, h: Handle): nat
    requires n > 0 && capacity > 0
  {
    if ls == [] then 0
    else
      var ls0 := ls[..|ls| - 1];
      Started(n, capacity, ls0, h) + Starting(Exec(Init(n, capacity), ls0), ls[|ls| - 1], h)
  }

  lemma NothingHeld(s: State, h: Handle)
    requires h != NULL && |s.pcs| == |s.deques| && AllInv(s.deques) && s.g.queue == []
    requires forall x :: 0 <= x < |s.pcs| ==> Carried(s.pcs[x]) == NULL
    requires forall x :: 0 <= x < |s.deques| ==> D.Contents(s.deques[x]) == []
    ensures Held(s, h) == 0
  {
    SumOfZeros(Hands(s.pcs, h));
    SumOfZeros(Stored(s.deques, h));
  }

  /** Task conservation: over every run of any number of workers, each handle has been
      submitted as often as it has been started plus as often as it is still held. */
  lemma {:induction false} EveryTaskOnce(n: nat, capacity: nat, ls: seq<Label>, h: Handle)
    requires n > 0 && capacity > 0 && h != NULL
    ensures var s := Exec(Init(n, capacity), ls);
            AllInv(s.deques) && Submitted(n, capacity, ls, h) == Started(n, capacity, ls, h) + Held(s, h)
  {
    if ls == [] {
      D.InitInv(capacity);
      NothingHeld(Init(n, capacity), h);
    } else {
      EveryTaskOnce(n, capacity, ls[..|ls| - 1], h);
      ExecKeepsInv(n, capacity, ls[..|ls| - 1]);
      StepConserves(Exec(Init(n, capacity), ls[..|ls| - 1]), ls[|ls| - 1], h);
    }
  }

  /** With no signal on its way and everybody asleep, every task submitted has been started. */
  lemma AsleepMeansAllStarted(n: nat, capacity: nat, ls: seq<Label>, h: Handle)
    requires n > 0 && capacity > 0 && h != NULL
    requires var s := Exec(Init(n, capacity), ls);
             (forall x :: 0 <= x < n ==> s.pcs[x].Waiting?) && s.signals == 0 && !s.broadcast
    ensures Submitted(n, capacity, ls, h) == Started(n, capacity, ls, h)
  {
    var s := Exec(Init(n, capacity), ls);
    EveryTaskOnce(n, capacity, ls, h);
    Quiescent(n, capacity, ls);
    NothingHeld(s, h);
  }
}
