/** How workers fall asleep, are woken and leave: what the wait condition decides over every run,
    and runs in which everybody sleeps, one is woken for a task, and all exit. */
module SchedulerSleep {
  import opened Handles
  import opened G = GlobalQueue
  import opened Rotation
  import opened Scheduler
  import opened SchedulerRuns

  // ------------------------------------------------------------------ over every run

  /** The steps that signal: work is added, or a backlog is reported, while somebody is idle; or
      the queue is stopped. */
  predicate Signals(s: State, l: Label) {
    match l
    case Inject(hs) => NoNulls(hs) && hs != [] && s.g.idle > 0
    case StopQueue => !s.g.stopped
    case Work(w, _, _, act) =>
      && w < |s.pcs| && s.g.idle > 0
      && (match s.pcs[w]
          case VictimNotify(_, _, _) => true
          case OwnNotify => true
          case GlobalPush(_) => true
          case Running => act.SubmitBatch? && NoNulls(act.hs) && act.hs != []
          case _ => false)
    case _ => false
  }

  function SignalsIn(n: nat, capacity: nat, ls: seq<Label>): nat
    requires n > 0 && capacity > 0
  {
    if ls == [] then 0
    else
      var ls0 := ls[..|ls| - 1];
      SignalsIn(n, capacity, ls0) + if Signals(Exec(Init(n, capacity), ls0), ls[|ls| - 1]) then 1 else 0
  }

  lemma OtherStepKeepsEpoch(s: State, w: nat, tick: bool, start: nat, act: Act)
    requires Shaped(s) && w < s.n
    requires var pc := s.pcs[w]; !pc.VictimNotify? && !pc.OwnNotify? && !pc.GlobalPush? && !pc.Running?
    ensures WorkStep(s, w, tick, start, act).g.epoch == s.g.epoch
  {
  }

  lemma EpochStep(s: State, l: Label)
    requires Shaped(s)
    ensures Step(s, l).g.epoch == s.g.epoch + if Signals(s, l) then 1 else 0
  {
    if l.Work? && l.w < s.n {
      var pc := s.pcs[l.w];
      if !pc.VictimNotify? && !pc.OwnNotify? && !pc.GlobalPush? && !pc.Running? {
        OtherStepKeepsEpoch(s, l.w, l.tick, l.start, l.act);
      }
    }
  }

  /** The epoch counts the signals, over every run. */
  lemma {:induction false} EpochCountsSignals(n: nat, capacity: nat, ls: seq<Label>)
    requires n > 0 && capacity > 0
    ensures Exec(Init(n, capacity), ls).g.epoch == SignalsIn(n, capacity, ls)
  {
    if ls != [] {
      var ls0 := ls[..|ls| - 1];
      EpochCountsSignals(n, capacity, ls0);
      EpochStep(Exec(Init(n, capacity), ls0), ls[|ls| - 1]);
    }
  }

  /** How many waiters a step calls: one per task added, but no more than are idle. */
  function Calls(s: State, l: Label): nat {
    if !Signals(s, l) then 0
    else
      match l
      case Inject(hs) => if |hs| <= s.g.idle then |hs| else s.g.idle
      case Work(w, _, _, SubmitBatch(hs)) =>
        if s.pcs[w].Running? then if |hs| <= s.g.idle then |hs| else s.g.idle else 1
      case Work(_, _, _, _) => 1
      case _ => 0
  }

  /** A call takes effect: it wakes a worker in the wait set, or is lost as there is none. */
  predicate Answers(s: State, l: Label) {
    && l.Deliver? && s.signals > 0 && |s.pcs| == s.n
    && ((l.w < s.n && s.pcs[l.w].Waiting?) || forall x :: 0 <= x < s.n ==> !s.pcs[x].Waiting?)
  }

  function CallsIn(n: nat, capacity: nat, ls: seq<Label>): nat
    requires n > 0 && capacity > 0
  {
    if ls == [] then 0
    else CallsIn(n, capacity, ls[..|ls| - 1]) + Calls(Exec(Init(n, capacity), ls[..|ls| - 1]), ls[|ls| - 1])
  }

  function AnswersIn(n: nat, capacity: nat, ls: seq<Label>): nat
    requires n > 0 && capacity > 0
  {
    if ls == [] then 0
    else
      var ls0 := ls[..|ls| - 1];
      AnswersIn(n, capacity, ls0) + if Answers(Exec(Init(n, capacity), ls0), ls[|ls| - 1]) then 1 else 0
  }

  lemma OtherStepCallsNobody(s: State, w: nat, tick: bool, start: nat, act: Act)
    requires Shaped(s) && w < s.n
    requires var pc := s.pcs[w]; !pc.VictimNotify? && !pc.OwnNotify? && !pc.GlobalPush? && !pc.Running?
    ensures WorkStep(s, w, tick, start, act).signals == s.signals
  {
  }

  lemma CallsStep(s: State, l: Label)
    requires Shaped(s)
    ensures Step(s, l).signals == s.signals + Calls(s, l) - if Answers(s, l) then 1 else 0
  {
    if l.Work? && l.w < s.n {
      var pc := s.pcs[l.w];
      if !pc.VictimNotify? && !pc.OwnNotify? && !pc.GlobalPush? && !pc.Running? {
        OtherStepCallsNobody(s, l.w, l.tick, l.start, l.act);
      }
    }
  }

  /** No call is lost, over every run: what adding work and backlogs have called for has been
      answered or is still to come. */
  lemma {:induction false} CallsAddUp(n: nat, capacity: nat, ls: seq<Label>)
    requires n > 0 && capacity > 0
    ensures CallsIn(n, capacity, ls) == AnswersIn(n, capacity, ls) + Exec(Init(n, capacity), ls).signals
  {
    if ls != [] {
      var ls0 := ls[..|ls| - 1];
      CallsAddUp(n, capacity, ls0);
      CallsStep(Exec(Init(n, capacity), ls0), ls[|ls| - 1]);
    }
  }

  /** The wait condition, over every run: a worker that evaluates it with epoch `e` leaves if and
      only if the queue is stopped or the number of signals so far is not `e`; otherwise it is in
      the wait set, still counted as idle. */
  lemma ParkIsExact(n: nat, capacity: nat, ls: seq<Label>, l: Label)
    requires n > 0 && capacity > 0 && l.Work? && l.w < n && Exec(Init(n, capacity), ls).pcs[l.w].Park?
    ensures var s := Exec(Init(n, capacity), ls);
            var s', e := Step(s, l), s.pcs[l.w].e;
            if s.g.stopped || SignalsIn(n, capacity, ls) != e
            then s'.pcs[l.w] == Begin(Active) && s'.g == s.g.(idle := s.g.idle - 1)
            else s'.pcs[l.w] == Waiting(e) && s'.g == s.g
  {
    EpochCountsSignals(n, capacity, ls);
    ParkStep(Exec(Init(n, capacity), ls), l.w, l.tick, l.start, l.act);
  }

  lemma ParkStep(s: State, w: nat, tick: bool, start: nat, act: Act)
    requires Shaped(s) && w < s.n && s.pcs[w].Park?
    ensures var s', e := WorkStep(s, w, tick, start, act), s.pcs[w].e;
            if s.g.stopped || s.g.epoch != e
            then s' == At(s.(g := s.g.(idle := s.g.idle - 1)), w, Begin(Active))
            else s' == At(s, w, Waiting(e))
  {
  }

  /** Only a stop makes workers exit, and it leaves nobody behind, over every run: the flags are
      set exactly by their calls, nobody has exited while the scheduler runs, a worker that comes
      to look for work exits exactly if it does not, and once the queue is stopped and the
      broadcast delivered nobody is in the wait set. */
  lemma StopIsExact(n: nat, capacity: nat, ls: seq<Label>, w: nat)
    requires n > 0 && capacity > 0 && w < n
    ensures var s := Exec(Init(n, capacity), ls);
            && (s.running <==> StopRunning !in ls) && (s.g.stopped <==> StopQueue in ls)
            && (s.pcs[w].Exited? ==> !s.running)
            && (s.g.stopped && !s.broadcast ==> !s.pcs[w].Waiting?)
            && (s.pcs[w] == Begin(Active) ==>
                  forall tick, start, act :: Step(s, Work(w, tick, start, act)).pcs[w].Exited? <==> !s.running)
  {
    ExecKeepsInv(n, capacity, ls);
    FlagsFollow(n, capacity, ls, w);
  }

  /** A step of worker `w` that leaves the flags alone, and after which it has exited only if it
      had before or found the scheduler stopped. */
  predicate KeepsFlags(s: State, s': State, w: nat) {
    && s'.running == s.running && s'.g.stopped == s.g.stopped && w < |s.pcs|
    && |s'.pcs| == |s.pcs| && s'.pcs == s.pcs[w := s'.pcs[w]]
    && (s'.pcs[w].Exited? ==> s.pcs[w].Exited? || (s.pcs[w] == Begin(Active) && !s.running))
  }

  lemma InsideKeepsFlags(s: State, w: nat, tick: bool, start: nat, act: Act)
    requires Shaped(s) && w < s.n && (s.pcs[w].LocalPop? || s.pcs[w].LocalPush? || s.pcs[w].Stealing?)
    ensures KeepsFlags(s, WorkStep(s, w, tick, start, act), w)
  {
    match s.pcs[w]
    case LocalPop(c) => assert !LocalPopStep(s, w, c).pcs[w].Exited?;
    case LocalPush(h) => assert !LocalPushStep(s, w, h).pcs[w].Exited?;
    case Stealing(c, first, i) => assert !StealStep(s, w, c, first, i).pcs[w].Exited?;
  }

  lemma TaskKeepsFlags(s: State, w: nat, tick: bool, start: nat, act: Act)
    requires Shaped(s) && w < s.n && s.pcs[w].Running?
    ensures KeepsFlags(s, WorkStep(s, w, tick, start, act), w)
  {
    assert !TaskStep(s, w, act).pcs[w].Exited?;
  }

  lemma LoopKeepsFlags(s: State, w: nat, tick: bool, start: nat, act: Act)
    requires Shaped(s) && w < s.n
    requires var pc := s.pcs[w];
             pc.Begin? || pc.TickPop? || pc.GlobalPop? || pc.Got? || pc.Prepare? || pc.Park? || pc.Waiting? || pc.Exited?
    ensures KeepsFlags(s, WorkStep(s, w, tick, start, act), w)
  {
  }

  lemma SignalKeepsFlags(s: State, w: nat, tick: bool, start: nat, act: Act)
    requires Shaped(s) && w < s.n
    requires var pc := s.pcs[w];
             pc.VictimTop? || pc.VictimBottom? || pc.VictimNotify? || pc.OwnTop? || pc.OwnBottom? || pc.OwnNotify? || pc.GlobalPush?
    ensures KeepsFlags(s, WorkStep(s, w, tick, start, act), w)
  {
  }

  lemma WorkKeepsFlags(s: State, w: nat, tick: bool, start: nat, act: Act)
    requires Shaped(s) && w < s.n
    ensures KeepsFlags(s, WorkStep(s, w, tick, start, act), w)
  {
    var pc := s.pcs[w];
    if pc.LocalPop? || pc.LocalPush? || pc.Stealing? {
      InsideKeepsFlags(s, w, tick, start, act);
    } else if pc.Running? {
      TaskKeepsFlags(s, w, tick, start, act);
    } else if pc.Begin? || pc.TickPop? || pc.GlobalPop? || pc.Got? || pc.Prepare? || pc.Park? || pc.Waiting? || pc.Exited? {
      LoopKeepsFlags(s, w, tick, start, act);
    } else {
      SignalKeepsFlags(s, w, tick, start, act);
    }
  }

  lemma FlagsStep(s: State, l: Label, w: nat)
    requires Shaped(s) && w < s.n
    ensures var s' := Step(s, l);
            && s'.running == (s.running && l != StopRunning) && s'.g.stopped == (s.g.stopped || l == StopQueue)
            && (s'.pcs[w].Exited? ==> s.pcs[w].Exited? || !s.running)
  {
    if l.Work? && l.w < s.n {
      WorkKeepsFlags(s, l.w, l.tick, l.start, l.act);
    }
  }

  lemma {:induction false} FlagsFollow(n: nat, capacity: nat, ls: seq<Label>, w: nat)
    requires n > 0 && capacity > 0 && w < n
    ensures var s := Exec(Init(n, capacity), ls);
            && (s.running <==> StopRunning !in ls) && (s.g.stopped <==> StopQueue in ls)
            && (s.pcs[w].Exited? ==> !s.running)
  {
    if ls != [] {
      var ls0, l := ls[..|ls| - 1], ls[|ls| - 1];
      FlagsFollow(n, capacity, ls0, w);
      FlagsStep(Exec(Init(n, capacity), ls0), l, w);
      assert ls == ls0 + [l];
    }
  }

  // ------------------------------------------------------------------ runs

  /** Nobody is inside the deque and it holds nothing. */
  predicate EmptyDeque(d: D.State, n: nat) {
    d.owner.Ready? && d.bottom == d.top && forall x: nat :: x < n ==> d.Thief(x).Away?
  }

  /** There is no work, and nobody is inside a deque. */
  predicate NoWork(s: State) {
    Shaped(s) && s.running && s.g.queue == [] && forall v :: 0 <= v < s.n ==> EmptyDeque(s.deques[v], s.n)
  }

  /** Only worker `w` has moved. */
  predicate MovedTo(s: State, s': State, w: nat, pc: Pc, g: View) {
    Shaped(s) && w < s.n && NoWork(s') && s' == s.(deques := s'.deques, pcs := s.pcs[w := pc], g := g)
  }

  lemma StillEmpty(d: D.State, n: nat, w: nat)
    requires EmptyDeque(d, n)
    ensures EmptyDeque(d.(thieves := d.thieves[w := D.Away]), n)
  {
    var d' := d.(thieves := d.thieves[w := D.Away]);
    forall x: nat | x < n ensures d'.Thief(x).Away? {
      assert d.Thief(x).Away?;
    }
  }

  /** One turn of the steal loop, at nobody with work. */
  lemma TurnInVain(r: State -> bool, s: State, w: nat) returns (s': State)
    requires Closed(r) && r(s) && NoWork(s) && w < s.n && s.pcs[w].Stealing? && s.pcs[w].i < s.n
    ensures r(s') && MovedTo(s, s', w, NextTurn(s.pcs[w]), s.g)
  {
    var v := Target(s.n, s.pcs[w].start, s.pcs[w].i);
    if v == w {
      s' := At(s, w, NextTurn(s.pcs[w]));
      Go(r, s, w, false, 0, Finish, s');
    } else {
      assert EmptyDeque(s.deques[v], s.n);
      s' := StealNone(r, s, w, v);
      StillEmpty(s.deques[v], s.n, w);
    }
  }

  /** The rest of a search that finds nothing. */
  lemma {:induction false} RoundInVain(r: State -> bool, s: State, w: nat) returns (s': State)
    requires Closed(r) && r(s) && NoWork(s) && w < s.n && s.pcs[w].Stealing? && s.pcs[w].i <= s.n
    ensures r(s') && MovedTo(s, s', w, if s.pcs[w].c.Active? then Prepare else Park(s.pcs[w].c.e), s.g)
    decreases s.n - s.pcs[w].i
  {
    if s.pcs[w].i < s.n {
      var s1 := TurnInVain(r, s, w);
      s' := RoundInVain(r, s1, w);
      assert s'.pcs == s.pcs[w := s'.pcs[w]];
    } else {
      s' := At(s, w, if s.pcs[w].c.Active? then Prepare else Park(s.pcs[w].c.e));
      Go(r, s, w, false, 0, Finish, s');
    }
  }

  lemma LookInVain(r: State -> bool, s: State, w: nat, c: Ctx) returns (s': State)
    requires Closed(r) && r(s) && NoWork(s) && Stands(s, w, Begin(c))
    ensures r(s') && MovedTo(s, s', w, if c.Active? then Prepare else Park(c.e), s.g)
  {
    assert EmptyDeque(s.deques[w], s.n);
    var s1 := Search(r, s, w, c, 0);
    s' := RoundInVain(r, s1, w);
    assert s'.pcs == s.pcs[w := s'.pcs[w]];
  }

  /** A worker that finds nothing twice is in the wait set. */
  lemma FallAsleep(r: State -> bool, s: State, w: nat) returns (s': State)
    requires Closed(r) && r(s) && NoWork(s) && Stands(s, w, Begin(Active)) && !s.g.stopped
    ensures r(s') && MovedTo(s, s', w, Waiting(s.g.epoch), s.g.(idle := s.g.idle + 1))
  {
    var e, g := s.g.epoch, s.g.(idle := s.g.idle + 1);
    var s1 := LookInVain(r, s, w, Active);
    var s2 := At(Global(s1, g), w, Begin(Idle(e)));
    Go(r, s1, w, false, 0, Finish, s2);
    var s3 := LookInVain(r, s2, w, Idle(e));
    s' := At(s3, w, Waiting(e));
    ParkStep(s3, w, false, 0, Finish);
    Go(r, s3, w, false, 0, Finish, s');
    assert s'.pcs == s.pcs[w := Waiting(e)];
  }

  /** Everybody is in the wait set, and no signal is on its way. */
  predicate AllAsleep(s: State) {
    && NoWork(s) && s.signals == 0 && !s.broadcast && !s.g.stopped && s.g.idle == s.n
    && forall x :: 0 <= x < s.n ==> s.pcs[x].Waiting? && s.pcs[x].e <= s.g.epoch
  }

  lemma {:induction false} SomeAsleep(r: State -> bool, n: nat, capacity: nat, k: nat) returns (s: State)
    requires n > 0 && capacity > 0 && k <= n && Closed(r) && r(Init(n, capacity))
    ensures r(s) && NoWork(s) && s.n == n && s.g == View([], 0, k, false) && s.signals == 0 && !s.broadcast
    ensures forall x :: 0 <= x < n ==> s.pcs[x] == if x < k then Waiting(0) else Begin(Active)
    decreases k
  {
    if k == 0 {
      s := Init(n, capacity);
    } else {
      var s0 := SomeAsleep(r, n, capacity, k - 1);
      s := FallAsleep(r, s0, k - 1);
    }
  }

  /** A task submitted from outside wakes a sleeper, which runs it and falls asleep again. */
  lemma WakeForTask(r: State -> bool, s: State, h: Handle, w: nat) returns (got: State, s': State)
    requires Closed(r) && r(s) && AllAsleep(s) && w < s.n && h != NULL
    ensures r(got) && Stands(got, w, Got(Active, h))
    ensures r(s') && AllAsleep(s') && s'.n == s.n && s'.g.epoch == s.g.epoch + 1
  {
    var e, epoch := s.pcs[w].e, s.g.epoch + 1;
    var s1 := s.(g := s.g.(queue := [h], epoch := epoch), signals := 1);
    assert [] + [h] == [h];
    assert Step(s, Inject([h])) == s1;
    var s2 := At(s1, w, Park(e)).(signals := 0);
    assert Step(s1, Deliver(w)) == s2;
    var s3 := At(s2.(g := s1.g.(idle := s.g.idle - 1)), w, Begin(Active));
    ParkStep(s2, w, false, 0, Finish);
    Go(r, s2, w, false, 0, Finish, s3);
    assert EmptyDeque(s.deques[w], s.n);
    got := TakeNext(r, s3, w, h);
    var s4 := At(got, w, Running);
    Go(r, got, w, false, 0, Finish, s4);
    var s5 := At(s4, w, Begin(Active));
    Go(r, s4, w, false, 0, Finish, s5);
    s' := FallAsleep(r, s5, w);
    forall x | 0 <= x < s.n ensures s'.pcs[x].Waiting? && s'.pcs[x].e <= s'.g.epoch {
      assert x != w ==> s'.pcs[x] == s.pcs[x];
    }
  }

  lemma TakeNext(r: State -> bool, s: State, w: nat, h: Handle) returns (s': State)
    requires Closed(r) && r(s) && Stands(s, w, Begin(Active)) && OwnEmpty(s, w) && s.running && s.g.queue == [h] && h != NULL
    ensures r(s') && s' == At(s.(g := s.g.(queue := [])), w, Got(Active, h))
  {
    var s1 := At(s, w, LocalPop(Active));
    Go(r, s, w, false, 0, Finish, s1);
    var s2 := PopNone(r, s1, w, Active);
    s' := At(s.(g := s.g.(queue := [])), w, Got(Active, h));
    assert s' == At(Global(s2, s.g.(queue := [])), w, Got(Active, h));
    Go(r, s2, w, false, 0, Finish, s');
  }

  /** After a stop every sleeper exits. */
  lemma {:induction false} SomeExited(r: State -> bool, s: State, k: nat) returns (s': State)
    requires Closed(r) && r(s) && AllAsleep(s) && k <= s.n
    ensures r(s') && Shaped(s') && s'.n == s.n && s'.g.idle == s.n - k && s'.g.stopped && !s'.running && !s'.broadcast
    ensures forall x :: 0 <= x < s.n ==> if x < k then s'.pcs[x].Exited? else s'.pcs[x].Park?
    decreases k
  {
    if k == 0 {
      var s1 := s.(running := false);
      assert Step(s, StopRunning) == s1;
      var s2 := s1.(g := s.g.(stopped := true, epoch := s.g.epoch + 1), broadcast := true);
      assert Step(s1, StopQueue) == s2;
      s' := s2.(pcs := FirstWoken(s2.pcs, s.n), broadcast := false);
      assert Step(s2, DeliverAll) == s';
    } else {
      var s0 := SomeExited(r, s, k - 1);
      var w := k - 1;
      var s1 := At(s0.(g := s0.g.(idle := s0.g.idle - 1)), w, Begin(Active));
      ParkStep(s0, w, false, 0, Finish);
      Go(r, s0, w, false, 0, Finish, s1);
      s' := At(s1, w, Exited);
      Go(r, s1, w, false, 0, Finish, s');
    }
  }

  lemma RunTo(n: nat, capacity: nat, s: State) returns (ls: seq<Label>)
    requires n > 0 && capacity > 0 && exists ls :: Exec(Init(n, capacity), ls) == s
    ensures Exec(Init(n, capacity), ls) == s
  {
    ls :| Exec(Init(n, capacity), ls) == s;
  }

  /** For any number of workers there is a run in which everybody comes to sleep, with no signal
      on its way. */
  lemma AllSleep(n: nat, capacity: nat) returns (ls: seq<Label>)
    requires n > 0 && capacity > 0
    ensures AllAsleep(Exec(Init(n, capacity), ls))
  {
    RunsAreClosed(n, capacity);
    var s := SomeAsleep(s => exists ls :: Exec(Init(n, capacity), ls) == s, n, capacity, n);
    ls := RunTo(n, capacity, s);
  }

  /** One in which they do, and any one of them is then woken for a task. */
  lemma OneIsWoken(n: nat, capacity: nat, h: Handle, w: nat) returns (ls: seq<Label>)
    requires n > 0 && capacity > 0 && w < n && h != NULL
    ensures Stands(Exec(Init(n, capacity), ls), w, Got(Active, h))
  {
    RunsAreClosed(n, capacity);
    var r := s => exists ls :: Exec(Init(n, capacity), ls) == s;
    var s := SomeAsleep(r, n, capacity, n);
    var got, _ := WakeForTask(r, s, h, w);
    ls := RunTo(n, capacity, got);
  }

  /** One in which all sleep again after that. */
  lemma AllSleepAgain(n: nat, capacity: nat, h: Handle, w: nat) returns (ls: seq<Label>)
    requires n > 0 && capacity > 0 && w < n && h != NULL
    ensures AllAsleep(Exec(Init(n, capacity), ls)) && SignalsIn(n, capacity, ls) > 0
  {
    RunsAreClosed(n, capacity);
    var r := s => exists ls :: Exec(Init(n, capacity), ls) == s;
    var s := SomeAsleep(r, n, capacity, n);
    var _, again := WakeForTask(r, s, h, w);
    ls := RunTo(n, capacity, again);
    EpochCountsSignals(n, capacity, ls);
  }

  /** And one in which the scheduler is stopped while all sleep, and all exit. */
  lemma AllExit(n: nat, capacity: nat) returns (ls: seq<Label>)
    requires n > 0 && capacity > 0
    ensures var s := Exec(Init(n, capacity), ls); s.g.idle == 0 && forall x :: 0 <= x < n ==> s.pcs[x].Exited?
  {
    RunsAreClosed(n, capacity);
    var r := s => exists ls :: Exec(Init(n, capacity), ls) == s;
    var s := SomeAsleep(r, n, capacity, n);
    var s' := SomeExited(r, s, n);
    ls := RunTo(n, capacity, s');
  }
}
