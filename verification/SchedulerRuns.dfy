/** A run of three workers that shows why the work-conserving sleep speaks of a task being
    popped: a worker sleeps rightly while another holds two tasks and nobody is to signal. */
module SchedulerRuns {
  import opened Handles
  import opened G = GlobalQueue
  import opened Rotation
  import opened Scheduler

  /** `r` holds of what its states lead to. */
  ghost predicate Closed(r: State -> bool) {
    forall s, l {:trigger Step(s, l)} :: r(s) && Shaped(s) ==> r(Step(s, l))
  }

  lemma RunsAreClosed(n: nat, capacity: nat)
    requires n > 0 && capacity > 0
    ensures var r := s => exists ls :: Exec(Init(n, capacity), ls) == s;
            Closed(r) && r(Init(n, capacity))
  {
    var i := Init(n, capacity);
    assert Exec(i, []) == i;
    forall s, l | (exists ls :: Exec(i, ls) == s) && Shaped(s) ensures exists ls :: Exec(i, ls) == Step(s, l) {
      var ls :| Exec(i, ls) == s;
      assert (ls + [l])[..|ls|] == ls;
      assert Exec(i, ls + [l]) == Step(s, l);
    }
  }

  // ------------------------------------------------------------------ accesses

  predicate Works(s: State, w: nat, tick: bool, start: nat, act: Act, s': State) {
    Shaped(s) && w < s.n && WorkStep(s, w, tick, start, act) == s'
  }

  /** Worker `w` stands at `pc`. */
  predicate Stands(s: State, w: nat, pc: Pc) {
    Shaped(s) && w < s.n && s.pcs[w] == pc
  }

  /** Nothing is going on in its own deque; which is empty, or has room. */
  predicate OwnRests(s: State, w: nat) {
    Shaped(s) && w < s.n && s.deques[w].owner.Ready?
  }

  predicate OwnEmpty(s: State, w: nat) {
    OwnRests(s, w) && s.deques[w].bottom == s.deques[w].top
  }

  predicate OwnRoom(s: State, w: nat) {
    OwnRests(s, w) && s.deques[w].bottom - s.deques[w].top < s.deques[w].n
  }

  lemma Go(r: State -> bool, s: State, w: nat, tick: bool, start: nat, act: Act, s': State)
    requires Closed(r) && r(s) && Works(s, w, tick, start, act, s')
    ensures r(s') && Shaped(s')
  {
    assert Step(s, Work(w, tick, start, act)) == s';
  }

  /** Worker `w` goes on inside deque `v`, which it has changed to `d`. */
  lemma Access(r: State -> bool, s: State, w: nat, v: nat, d: D.State, pc: Pc, d': D.State, pc': Pc)
    requires Closed(r) && Shaped(s) && D.Shaped(d) && w < s.n && v < s.n
    requires var s1 := InDeque(s, w, v, d, pc);
             r(s1) && Shaped(s1) && WorkStep(s1, w, false, 0, Finish) == InDeque(s1, w, v, d', pc')
    ensures var s2 := InDeque(s, w, v, d', pc'); r(s2) && Shaped(s2)
  {
    var s1, s2 := InDeque(s, w, v, d, pc), InDeque(s, w, v, d', pc');
    assert InDeque(s1, w, v, d', pc') == s2;
    Go(r, s1, w, false, 0, Finish, s2);
  }

  // ------------------------------------------------------------------ operations nobody interrupts

  /** The first two accesses of a pop, which lower `bottom_`. */
  lemma BeginPop(r: State -> bool, s: State, w: nat, c: Ctx) returns (s': State)
    requires Closed(r) && r(s) && Stands(s, w, LocalPop(c)) && OwnRests(s, w)
    ensures r(s') && Shaped(s')
    ensures var d := s.deques[w];
            s' == InDeque(s, w, w, d.(bottom := d.bottom - 1, owner := D.PopTop(d.bottom - 1)), LocalPop(c))
  {
    var d, bt, pc := s.deques[w], s.deques[w].bottom - 1, LocalPop(c);
    assert InDeque(s, w, w, d, pc) == s;
    Access(r, s, w, w, d, pc, d.(owner := D.PopBottom(bt)), pc);
    Access(r, s, w, w, d.(owner := D.PopBottom(bt)), pc, d.(bottom := bt, owner := D.PopTop(bt)), pc);
    s' := InDeque(s, w, w, d.(bottom := bt, owner := D.PopTop(bt)), pc);
  }

  /** A pop from the worker's own empty deque. */
  lemma PopNone(r: State -> bool, s: State, w: nat, c: Ctx) returns (s': State)
    requires Closed(r) && r(s) && Stands(s, w, LocalPop(c)) && OwnEmpty(s, w)
    ensures r(s') && s' == At(s, w, GlobalPop(c))
  {
    var d, bt, pc := s.deques[w], s.deques[w].bottom - 1, LocalPop(c);
    s' := BeginPop(r, s, w, c);
    var d3 := d.(bottom := bt, owner := D.PopRestore(bt, NULL, false));
    Access(r, s, w, w, d.(bottom := bt, owner := D.PopTop(bt)), pc, d3, pc);
    Access(r, s, w, w, d3, pc, d, GlobalPop(c));
    s' := InDeque(s, w, w, d, GlobalPop(c));
    assert s'.deques == s.deques;
  }

  /** A push into the worker's own deque. */
  lemma PushOne(r: State -> bool, s: State, w: nat, h: Handle) returns (s': State)
    requires Closed(r) && r(s) && Stands(s, w, LocalPush(h)) && OwnRoom(s, w)
    ensures r(s')
    ensures var d := s.deques[w];
            s' == InDeque(s, w, w, d.(slots := d.slots[d.bottom % d.n := h], bottom := d.bottom + 1), OwnTop)
  {
    var d, bt, pc := s.deques[w], s.deques[w].bottom, LocalPush(h);
    assert InDeque(s, w, w, d, pc) == s;
    Access(r, s, w, w, d, pc, d.(owner := D.PushTop(h, bt)), pc);
    Access(r, s, w, w, d.(owner := D.PushTop(h, bt)), pc, d.(owner := D.PushSlot(h, bt)), pc);
    s' := EndPush(r, s, w, h);
  }

  ghost predicate PushBegun(r: State -> bool, s: State, w: nat, h: Handle) {
    && Stands(s, w, LocalPush(h)) && OwnRoom(s, w)
    && var d := s.deques[w];
       r(InDeque(s, w, w, d.(owner := D.PushSlot(h, d.bottom)), LocalPush(h)))
  }

  lemma EndPush(r: State -> bool, s: State, w: nat, h: Handle) returns (s': State)
    requires Closed(r) && PushBegun(r, s, w, h)
    ensures r(s')
    ensures var d := s.deques[w];
            s' == InDeque(s, w, w, d.(slots := d.slots[d.bottom % d.n := h], bottom := d.bottom + 1), OwnTop)
  {
    var d, bt, pc := s.deques[w], s.deques[w].bottom, LocalPush(h);
    var full := d.(slots := d.slots[bt % d.n := h]);
    Access(r, s, w, w, d.(owner := D.PushSlot(h, bt)), pc, full.(owner := D.PushBottom(h, bt)), pc);
    Access(r, s, w, w, full.(owner := D.PushBottom(h, bt)), pc, full.(bottom := bt + 1), OwnTop);
    s' := InDeque(s, w, w, full.(bottom := bt + 1), OwnTop);
  }

  /** What runs on `w` submits a task, with nobody idle to be told. */
  lemma SubmitOne(r: State -> bool, s: State, w: nat, h: Handle) returns (s': State)
    requires Closed(r) && r(s) && Stands(s, w, Running) && OwnRoom(s, w) && h != NULL && s.g.idle == 0
    ensures r(s')
    ensures var d := s.deques[w];
            s' == InDeque(s, w, w, d.(slots := d.slots[d.bottom % d.n := h], bottom := d.bottom + 1), Running)
  {
    var s1 := At(s, w, LocalPush(h));
    Go(r, s, w, false, 0, Submit(h), s1);
    var s2 := PushOne(r, s1, w, h);
    SizeCheck(r, s2, w);
    s' := At(s2, w, Running);
    assert s'.pcs == s.pcs[w := Running] && s'.deques == s2.deques;
  }

  lemma SizeCheck(r: State -> bool, s: State, w: nat)
    requires Closed(r) && r(s) && Stands(s, w, OwnTop) && s.g.idle == 0
    ensures r(At(s, w, Running))
  {
    var d := s.deques[w];
    var s1 := At(s, w, OwnBottom(d.top));
    Go(r, s, w, false, 0, Finish, s1);
    assert At(s1, w, Running) == At(s, w, Running);
    if d.bottom - d.top > 1 {
      var s2 := At(s, w, OwnNotify);
      assert At(s1, w, OwnNotify) == s2;
      Go(r, s1, w, false, 0, Finish, s2);
      assert At(s2, w, Running) == At(s, w, Running);
      Go(r, s2, w, false, 0, Finish, At(s, w, Running));
    } else {
      Go(r, s1, w, false, 0, Finish, At(s, w, Running));
    }
  }

  /** A search that finds the own deque and the global queue empty and begins to steal. */
  lemma Search(r: State -> bool, s: State, w: nat, c: Ctx, start: nat) returns (s': State)
    requires Closed(r) && r(s) && Stands(s, w, Begin(c)) && OwnEmpty(s, w)
    requires s.running && start < s.n && s.g.queue == []
    ensures r(s') && s' == At(s, w, Stealing(c, start, 0))
  {
    var s1 := At(s, w, LocalPop(c));
    Go(r, s, w, false, 0, Finish, s1);
    var s2 := PopNone(r, s1, w, c);
    s' := At(s, w, Stealing(c, start, 0));
    assert s' == At(s2, w, Stealing(c, start, 0));
    Go(r, s2, w, false, start, Finish, s');
  }

  /** Worker `w` is at turn `i` of its steal loop, at worker `v`. */
  predicate AtVictim(s: State, w: nat, v: nat) {
    && Shaped(s) && w < s.n && v < s.n && v != w && s.pcs[w].Stealing? && s.pcs[w].i < s.n
    && v == Target(s.n, s.pcs[w].start, s.pcs[w].i)
  }

  function NextTurn(pc: Pc): Pc {
    if pc.Stealing? then Stealing(pc.c, pc.start, pc.i + 1) else pc
  }

  /** It has not begun to steal there, and sees the deque empty, or not. */
  predicate SeesEmpty(s: State, w: nat, v: nat) {
    AtVictim(s, w, v) && s.deques[v].Thief(w).Away? && s.deques[v].bottom <= s.deques[v].top
  }

  predicate SeesTask(s: State, w: nat, v: nat) {
    AtVictim(s, w, v) && s.deques[v].Thief(w).Away? && s.deques[v].top < s.deques[v].bottom
  }

  predicate AboutToSteal(s: State, w: nat, v: nat) {
    AtVictim(s, w, v) && s.deques[v].Thief(w).StealCas?
  }

  /** A steal from an empty deque. */
  lemma StealNone(r: State -> bool, s: State, w: nat, v: nat) returns (s': State)
    requires Closed(r) && r(s) && SeesEmpty(s, w, v)
    ensures r(s')
    ensures var d := s.deques[v]; s' == InDeque(s, w, v, d.(thieves := d.thieves[w := D.Away]), NextTurn(s.pcs[w]))
  {
    var d, pc := s.deques[v], s.pcs[w];
    assert InDeque(s, w, v, d, pc) == s;
    var d1 := d.(thieves := d.thieves[w := D.StealBottom(d.top)]);
    Access(r, s, w, v, d, pc, d1, pc);
    var d2 := d.(thieves := d.thieves[w := D.Away]);
    assert d1.thieves[w := D.Away] == d2.thieves;
    Access(r, s, w, v, d1, pc, d2, NextTurn(pc));
    s' := InDeque(s, w, v, d2, NextTurn(pc));
  }

  /** A steal up to its compare-and-swap. */
  lemma StealToCas(r: State -> bool, s: State, w: nat, v: nat) returns (s': State)
    requires Closed(r) && r(s) && SeesTask(s, w, v)
    ensures r(s')
    ensures var d := s.deques[v];
            s' == InDeque(s, w, v, d.(thieves := d.thieves[w := D.StealCas(d.top, d.slots[d.top % d.n])]), s.pcs[w])
  {
    var d, pc := s.deques[v], s.pcs[w];
    assert InDeque(s, w, v, d, pc) == s;
    var d1 := d.(thieves := d.thieves[w := D.StealBottom(d.top)]);
    Access(r, s, w, v, d, pc, d1, pc);
    var d2 := d.(thieves := d.thieves[w := D.StealSlot(d.top)]);
    assert d1.thieves[w := D.StealSlot(d.top)] == d2.thieves;
    Access(r, s, w, v, d1, pc, d2, pc);
    var d3 := d.(thieves := d.thieves[w := D.StealCas(d.top, d.slots[d.top % d.n])]);
    assert d2.thieves[w := D.StealCas(d.top, d.slots[d.top % d.n])] == d3.thieves;
    Access(r, s, w, v, d2, pc, d3, pc);
    s' := InDeque(s, w, v, d3, pc);
  }

  /** The compare-and-swap of a steal, won or lost. */
  lemma StealCas(r: State -> bool, s: State, w: nat, v: nat) returns (s': State)
    requires Closed(r) && r(s) && AboutToSteal(s, w, v)
    ensures r(s')
    ensures var d := s.deques[v];
            var th := d.Thief(w);
            var away := d.(thieves := d.thieves[w := D.Away]);
            s' == if d.top == th.tp then InDeque(s, w, v, away.(top := th.tp + 1), VictimTop(s.pcs[w].c, v, th.h))
                  else InDeque(s, w, v, away, NextTurn(s.pcs[w]))
  {
    s' := WorkStep(s, w, false, 0, Finish);
    Go(r, s, w, false, 0, Finish, s');
  }

  // ------------------------------------------------------------------ the run

  /** Three workers between operations; worker 1 holds `held` tasks, the others none. */
  predicate Calm(s: State, capacity: nat, pcs: seq<Pc>, idle: int, held: nat) {
    && Shaped(s) && s.n == 3 && s.pcs == pcs && s.g == View([], 0, idle, false)
    && s.running && s.signals == 0 && !s.broadcast
    && (forall v :: 0 <= v < 3 ==> Rests(s.deques[v], capacity, if v == 1 then held else 0))
  }

  predicate Rests(d: D.State, capacity: nat, held: nat) {
    && d.n == capacity && d.owner.Ready? && d.top == 0 && d.bottom == held
    && forall x: nat :: x < 3 ==> d.Thief(x).Away?
  }

  lemma StillRests(d: D.State, capacity: nat, held: nat, w: nat)
    requires Rests(d, capacity, held)
    ensures Rests(d.(thieves := d.thieves[w := D.Away]), capacity, held)
  {
    var d' := d.(thieves := d.thieves[w := D.Away]);
    forall x: nat | x < 3 ensures d'.Thief(x).Away? {
      assert d.Thief(x).Away?;
    }
  }

  /** Worker 0 looks everywhere in vain and is about to register as idle. */
  lemma SearchInVain(r: State -> bool, s: State, capacity: nat) returns (s': State)
    requires Closed(r) && r(s) && Calm(s, capacity, [Begin(Active), Begin(Active), Begin(Active)], 0, 0)
    ensures r(s') && Calm(s', capacity, [Prepare, Begin(Active), Begin(Active)], 0, 0)
  {
    assert Rests(s.deques[0], capacity, 0) && Rests(s.deques[1], capacity, 0) && Rests(s.deques[2], capacity, 0);
    var s1 := Search(r, s, 0, Active, 1);
    StillRests(s.deques[1], capacity, 0, 0);
    var s2 := StealNone(r, s1, 0, 1);
    StillRests(s.deques[2], capacity, 0, 0);
    var s3 := StealNone(r, s2, 0, 2);
    s' := EndRound(r, s3, 0);
    assert s'.deques[0] == s.deques[0];
    assert s'.pcs == [Prepare, Begin(Active), Begin(Active)];
  }

  predicate LastTurn(s: State, w: nat) {
    && Shaped(s) && w < s.n && s.pcs[w].Stealing? && s.pcs[w].i == s.n - 1
    && Target(s.n, s.pcs[w].start, s.pcs[w].i) == w
  }

  /** The loop passes over the worker itself and ends. */
  lemma EndRound(r: State -> bool, s: State, w: nat) returns (s': State)
    requires Closed(r) && r(s) && LastTurn(s, w)
    ensures r(s') && s' == At(s, w, if s.pcs[w].c.Active? then Prepare else Park(s.pcs[w].c.e))
  {
    var s1 := At(s, w, NextTurn(s.pcs[w]));
    Go(r, s, w, false, 0, Finish, s1);
    s' := At(s, w, if s.pcs[w].c.Active? then Prepare else Park(s.pcs[w].c.e));
    assert s' == At(s1, w, s'.pcs[w]);
    Go(r, s1, w, false, 0, Finish, s');
  }

  /** Worker 1 takes a task from the global queue. */
  lemma TakeGlobal(r: State -> bool, s: State, capacity: nat) returns (s': State)
    requires Closed(r) && r(s) && Calm(s, capacity, [Prepare, Begin(Active), Begin(Active)], 0, 0)
    ensures r(s') && Calm(s', capacity, [Prepare, Running, Begin(Active)], 0, 0)
  {
    var s1 := s.(g := View([5], 0, 0, false));
    assert Step(s, Inject([5])) == s1;
    var s2 := At(s1, 1, TickPop(Active));
    Go(r, s1, 1, true, 0, Finish, s2);
    var s3 := At(s2.(g := View([], 0, 0, false)), 1, Got(Active, 5));
    Go(r, s2, 1, false, 0, Finish, s3);
    s' := At(s3, 1, Running);
    Go(r, s3, 1, false, 0, Finish, s');
    assert s'.pcs == [Prepare, Running, Begin(Active)];
  }

  /** It submits one more task. */
  lemma Grow(r: State -> bool, s: State, capacity: nat, held: nat, h: Handle) returns (s': State)
    requires Closed(r) && r(s) && Calm(s, capacity, [Prepare, Running, Begin(Active)], 0, held) && held < capacity && h != NULL
    ensures r(s') && Calm(s', capacity, [Prepare, Running, Begin(Active)], 0, held + 1)
  {
    assert Rests(s.deques[1], capacity, held);
    s' := SubmitOne(r, s, 1, h);
    assert s'.pcs == s.pcs;
    assert forall x: nat :: s'.deques[1].Thief(x) == s.deques[1].Thief(x);
  }

  /** Worker 0 registers as idle, searches again and is about to take the oldest task. */
  lemma IdleReaches(r: State -> bool, s: State, capacity: nat) returns (s': State)
    requires Closed(r) && r(s) && Calm(s, capacity, [Prepare, Running, Begin(Active)], 0, 3)
    ensures r(s') && Shaped(s') && s'.pcs == [Stealing(Idle(0), 1, 0), Running, Begin(Active)] && s'.n == 3
    ensures s'.g == View([], 0, 1, false) && s'.running && s'.signals == 0 && !s'.broadcast
    ensures s'.deques[0] == s.deques[0] && s'.deques[2] == s.deques[2]
    ensures var d, d' := s.deques[1], s'.deques[1];
            d' == d.(thieves := d.thieves[0 := D.StealCas(0, d.slots[0 % d.n])])
  {
    assert Rests(s.deques[0], capacity, 0) && Rests(s.deques[1], capacity, 3);
    var s1 := At(s.(g := View([], 0, 1, false)), 0, Begin(Idle(0)));
    Go(r, s, 0, false, 0, Finish, s1);
    var s2 := Search(r, s1, 0, Idle(0), 1);
    s' := StealToCas(r, s2, 0, 1);
    assert s'.pcs == [Stealing(Idle(0), 1, 0), Running, Begin(Active)];
  }

  predicate SameSignals(s: State, s': State) {
    s'.g == s.g && s'.signals == s.signals && s'.broadcast == s.broadcast
  }

  predicate Racing(s: State) {
    && Shaped(s) && s.n == 3 && s.pcs == [Stealing(Idle(0), 1, 0), Running, Begin(Active)]
    && s.g == View([], 0, 1, false) && s.running && OwnEmpty(s, 2)
    && s.deques[1].top == 0 && s.deques[1].bottom == 3 && s.deques[1].Thief(2).Away?
  }

  /** Worker 2 takes it first. */
  lemma OvertakenBy(r: State -> bool, s: State) returns (s': State)
    requires Closed(r) && r(s) && Racing(s)
    ensures r(s') && Shaped(s') && s'.n == 3 && s'.running && SameSignals(s, s')
    ensures s'.pcs == [Stealing(Idle(0), 1, 0), Running, VictimTop(Active, 1, s.deques[1].slots[0 % s.deques[1].n])]
    ensures s'.deques[0] == s.deques[0] && s'.deques[2] == s.deques[2]
    ensures s'.deques[1] == s.deques[1].(top := 1, thieves := s.deques[1].thieves[2 := D.Away])
  {
    var s1 := Search(r, s, 2, Active, 1);
    var s2 := StealToCas(r, s1, 2, 1);
    s' := StealCas(r, s2, 2, 1);
    assert s2.deques[1].thieves[2 := D.Away] == s.deques[1].thieves[2 := D.Away];
    assert s'.pcs[0] == s.pcs[0] && s'.pcs[1] == s.pcs[1];
  }

  predicate Overtaken(s: State, pc: Pc) {
    && Shaped(s) && s.n == 3 && s.pcs == [Stealing(Idle(0), 1, 0), Running, pc]
    && s.deques[1].top == 1 && s.deques[1].Thief(0).StealCas? && s.deques[1].Thief(0).tp == 0
    && s.deques[2].Thief(0).Away? && s.deques[2].bottom == s.deques[2].top
  }

  /** Worker 0's steal aborts, and it finds nothing else before it is about to wait. */
  lemma AbortAndPark(r: State -> bool, s: State, pc: Pc) returns (s': State)
    requires Closed(r) && r(s) && Overtaken(s, pc)
    ensures r(s') && Shaped(s') && s'.n == 3 && s'.pcs == [Park(0), Running, pc] && s'.running == s.running
    ensures SameSignals(s, s')
    ensures s'.deques[1] == s.deques[1].(thieves := s.deques[1].thieves[0 := D.Away])
  {
    var s1 := StealCas(r, s, 0, 1);
    var s2 := StealNone(r, s1, 0, 2);
    s' := EndRound(r, s2, 0);
  }

  predicate BeforeCheck(s: State, h: Handle) {
    && Shaped(s) && s.n == 3 && s.running && s.pcs == [Park(0), Running, VictimTop(Active, 1, h)]
    && s.deques[1].top == 1 && s.deques[1].bottom == 3 && s.deques[1].owner.Ready?
  }

  /** Worker 2 loads `top_` of its victim, whose owner then begins to pop, and sees a size of
      one: it does not signal. */
  lemma GiveUpSignal(r: State -> bool, s: State, h: Handle) returns (s': State)
    requires Closed(r) && r(s) && BeforeCheck(s, h)
    ensures r(s') && Shaped(s') && s'.n == 3 && s'.pcs == [Park(0), LocalPop(Active), Got(Active, h)]
    ensures SameSignals(s, s')
    ensures s'.deques[1] == s.deques[1].(bottom := 2, owner := D.PopTop(2))
  {
    var s1 := At(s, 2, VictimBottom(Active, 1, h, 1));
    Go(r, s, 2, false, 0, Finish, s1);
    var s2 := At(s1, 1, Begin(Active));
    Go(r, s1, 1, false, 0, Finish, s2);
    var s3 := At(s2, 1, LocalPop(Active));
    Go(r, s2, 1, false, 0, Finish, s3);
    var s4 := BeginPop(r, s3, 1, Active);
    s' := At(s4, 2, Got(Active, h));
    Go(r, s4, 2, false, 0, Finish, s');
    assert s'.pcs == [Park(0), LocalPop(Active), Got(Active, h)];
  }

  /** The whole run. */
  lemma TwoTasksTrack(r: State -> bool, capacity: nat) returns (s: State)
    requires capacity >= 3 && Closed(r) && r(Init(3, capacity))
    ensures r(s) && Shaped(s) && s.n == 3 && s.g == View([], 0, 1, false) && s.signals == 0 && !s.broadcast
    ensures exists h :: s.pcs == [Park(0), LocalPop(Active), Got(Active, h)]
    ensures s.deques[1].top == 1 && s.deques[1].bottom == 2 && s.deques[1].owner == D.PopTop(2)
  {
    s := Init(3, capacity);
    assert s.pcs == [Begin(Active), Begin(Active), Begin(Active)];
    s := SearchInVain(r, s, capacity);
    s := TakeGlobal(r, s, capacity);
    s := Grow(r, s, capacity, 0, 11);
    s := Grow(r, s, capacity, 1, 12);
    s := Grow(r, s, capacity, 2, 13);
    assert Rests(s.deques[1], capacity, 3) && Rests(s.deques[2], capacity, 0);
    assert s.deques[1].Thief(2).Away? && s.deques[2].Thief(0).Away?;
    s := IdleReaches(r, s, capacity);
    s := OvertakenBy(r, s);
    s := AbortAndPark(r, s, s.pcs[2]);
    s := GiveUpSignal(r, s, s.pcs[2].h);
  }

  /** The second task is needed: with three workers and any capacity from three on, a run ends
      with worker 0 about to wait with the current epoch, worker 1 holding two tasks, one of
      which it is popping, and nobody who will signal that. */
  lemma TwoTasksWhilePopping(capacity: nat) returns (ls: seq<Label>)
    requires capacity >= 3
    ensures var s := Exec(Init(3, capacity), ls);
            && s.pcs[0] == Park(s.g.epoch) && s.signals == 0 && !s.broadcast
            && D.Inv(s.deques[1]) && |D.Contents(s.deques[1])| == 2 && D.Popping(s.deques[1].owner)
            && forall y :: 0 <= y < 3 ==> !WillSignal(s.pcs[y], y, 1)
  {
    RunsAreClosed(3, capacity);
    var s := TwoTasksTrack(s => exists ls :: Exec(Init(3, capacity), ls) == s, capacity);
    ls :| Exec(Init(3, capacity), ls) == s;
    ExecKeepsInv(3, capacity, ls);
    TwoHeld(s);
  }

  lemma TwoHeld(s: State)
    requires Inv(s) && s.n == 3 && s.deques[1].top == 1 && s.deques[1].bottom == 2 && s.deques[1].owner == D.PopTop(2)
    ensures D.Inv(s.deques[1]) && |D.Contents(s.deques[1])| == 2
  {
    assert DequeOk(s, 1);
  }
}
