/** Strict linearizability of the deque.

    A thief may be told "empty" while one task is left, because the owner has already lowered
    `bottom_` to pop it.  Such answers, and whatever silent or failing accesses follow, are
    placed after the operation that takes that task.  That operation was in flight when the
    answer was given, so no operation is placed before one that had returned when it began. */
module StrictDeque {
  import opened Handles
  import opened Words
  import opened Deque
  import opened DequeRuns

  /** The strict sequential deque: a steal finds nothing only if there is nothing. */
  predicate StrictlyPermits(n: nat, q: seq<Handle>, e: Event) {
    Permits(n, q, e) && (e.StealEmpty? ==> q == [])
  }

  predicate StrictAt(n: nat, es: seq<Event>, i: nat)
    requires i < |es|
  {
    StrictlyPermits(n, Replay(es[..i]), es[i])
  }

  ghost predicate StrictRun(n: nat, es: seq<Event>) {
    forall i :: 0 <= i < |es| ==> StrictAt(n, es, i)
  }

  predicate Takes(e: Event) {
    e.Stolen? || e.PopDone?
  }

  predicate Quiet(e: Event) {
    e.Tau? || e.StealEmpty? || e.StealAbort?
  }

  predicate AllQuiet(es: seq<Event>) {
    forall i :: 0 <= i < |es| ==> Quiet(es[i])
  }

  /** The answers placed so far and those that wait for the last task to be taken, each with
      the number of the step that gave it. */
  datatype Order = Order(placed: seq<Event>, early: seq<Event>, placedAt: seq<nat>, earlyAt: seq<nat>)

  const NO_ORDER: Order := Order([], [], [], [])

  function Place(o: Order, e: Event): Order {
    var i := |o.placed| + |o.early|;
    if o.early == [] then
      if e.StealEmpty? && Replay(o.placed) != [] then Order(o.placed, [e], o.placedAt, [i])
      else Order(o.placed + [e], [], o.placedAt + [i], [])
    else if Takes(e) then Order(o.placed + [e] + o.early, [], o.placedAt + [i] + o.earlyAt, [])
    else Order(o.placed, o.early + [e], o.placedAt, o.earlyAt + [i])
  }

  function Reordered(es: seq<Event>): Order {
    if es == [] then NO_ORDER else Place(Reordered(es[..|es| - 1]), es[|es| - 1])
  }

  /** The placed answers, the pop in flight if somebody waits for it, and those who wait. */
  function Completed(o: Order): seq<Event> {
    o.placed + (if o.early != [] && Replay(o.placed) != [] then [PopDone(Replay(o.placed)[0])] else []) + o.early
  }

  lemma StrictSnoc(n: nat, es: seq<Event>, e: Event)
    requires StrictRun(n, es) && StrictlyPermits(n, Replay(es), e)
    ensures StrictRun(n, es + [e]) && Replay(es + [e]) == Apply(Replay(es), e)
  {
    var es' := es + [e];
    assert es'[..|es|] == es;
    forall i | 0 <= i < |es'| ensures StrictAt(n, es', i) {
      if i < |es| {
        assert StrictAt(n, es, i) && es'[..i] == es[..i] && es'[i] == es[i];
      }
    }
  }

  /** With nothing left, silent and failing answers may follow in any number. */
  lemma {:induction false} QuietTail(n: nat, es: seq<Event>, quiet: seq<Event>)
    requires StrictRun(n, es) && Replay(es) == [] && AllQuiet(quiet)
    ensures StrictRun(n, es + quiet) && Replay(es + quiet) == []
    decreases |quiet|
  {
    if quiet == [] {
      assert es + quiet == es;
    } else {
      var init, last := quiet[..|quiet| - 1], quiet[|quiet| - 1];
      QuietTail(n, es, init);
      StrictSnoc(n, es + init, last);
      assert es + quiet == es + init + [last];
    }
  }

  /** While answers wait, one task is left and the owner is popping it. */
  ghost predicate Ordered(s: State, o: Order)
  {
    && Inv(s) && StrictRun(s.n, o.placed) && Contents(s) == Replay(o.placed) && AllQuiet(o.early)
    && (o.early != [] ==> |Contents(s)| == 1 && Popping(s.owner))
  }

  /** A popping owner goes on popping until its pop returns. */
  lemma PopsOn(s: State, l: Label)
    requires Inv(s) && Popping(s.owner)
    ensures var (s', e) := Step(Exact, s, l);
            if e.PopDone? then s'.owner.Ready?
            else Popping(s'.owner) && s'.bottom == s.bottom && !e.PushDone?
  {
  }

  lemma PlaceOrdered(s: State, o: Order, l: Label)
    requires Ordered(s, o)
    ensures var (s', e) := Step(Exact, s, l);
            Ordered(s', Place(o, e))
  {
    StepRefines(s, l);
    var (s', e) := Step(Exact, s, l);
    if o.early == [] {
      if e.StealEmpty? && Replay(o.placed) != [] {
        assert Place(o, e).early == [e];
        PopsOn(s, l);
      } else {
        StrictSnoc(s.n, o.placed, e);
      }
    } else {
      PopsOn(s, l);
      if Takes(e) {
        StrictSnoc(s.n, o.placed, e);
        QuietTail(s.n, o.placed + [e], o.early);
      }
    }
  }

  lemma {:induction false} RunOrdered(n: nat, ls: seq<Label>)
    requires n > 0
    ensures var (s, es) := Exec(Exact, Init(n), ls);
            Ordered(s, Reordered(es))
  {
    if ls == [] {
      InitInv(n);
    } else {
      var ls0, l := ls[..|ls| - 1], ls[|ls| - 1];
      RunOrdered(n, ls0);
      var (s0, es0) := Exec(Exact, Init(n), ls0);
      PlaceOrdered(s0, Reordered(es0), l);
      var es := Exec(Exact, Init(n), ls).1;
      assert es[..|es| - 1] == es0;
    }
  }

  lemma PlaceAdds(o: Order, e: Event)
    ensures var o' := Place(o, e);
            multiset(o'.placed) + multiset(o'.early) == multiset(o.placed) + multiset(o.early) + multiset{e}
  {
  }

  /** Placing loses and invents nothing. */
  lemma {:induction false} SameAnswers(es: seq<Event>)
    ensures var o := Reordered(es); multiset(o.placed) + multiset(o.early) == multiset(es)
  {
    if es != [] {
      var es0, e := es[..|es| - 1], es[|es| - 1];
      SameAnswers(es0);
      var o := Reordered(es0);
      PlaceAdds(o, e);
      assert Reordered(es) == Place(o, e);
      assert multiset(es) == multiset(es0) + multiset{e} by {
        assert es == es0 + [e];
      }
    }
  }

  /** The answers of `es`, reordered and with at most the pop in flight completed, are a run of
      the strict sequential deque. */
  ghost predicate StrictlyOrdered(n: nat, es: seq<Event>) {
    var o := Reordered(es);
    && multiset(o.placed) + multiset(o.early) == multiset(es)
    && StrictRun(n, Completed(o))
    && (o.early != [] ==> |Replay(o.placed)| == 1 && AllQuiet(o.early))
  }

  /** Strict linearizability over every run. */
  lemma StrictlyLinearizable(n: nat, ls: seq<Label>)
    requires n > 0
    ensures var (s, es) := Exec(Exact, Init(n), ls);
            && StrictlyOrdered(n, es)
            && Inv(s) && Contents(s) == Replay(Reordered(es).placed)
            && (Reordered(es).early != [] ==> Popping(s.owner))
  {
    RunOrdered(n, ls);
    var (s, es) := Exec(Exact, Init(n), ls);
    SameAnswers(es);
    var o := Reordered(es);
    if o.early == [] {
      assert Completed(o) == o.placed;
    } else {
      var done := PopDone(Replay(o.placed)[0]);
      StrictSnoc(n, o.placed, done);
      QuietTail(n, o.placed + [done], o.early);
    }
  }

  // ------------------------------------------------------------------ who takes the last task

  function StateAt(n: nat, ls: seq<Label>, k: nat): (s: State)
    requires n > 0 && k <= |ls|
    ensures Shaped(s) && s.n == n
  {
    Exec(Exact, Init(n), ls[..k]).0
  }

  lemma {:induction false} ExecPrefix(n: nat, ls: seq<Label>, k: nat)
    requires n > 0 && k <= |ls|
    ensures var es := Exec(Exact, Init(n), ls).1;
            |es| == |ls| && Exec(Exact, Init(n), ls[..k]).1 == es[..k]
    ensures k < |ls| ==> Step(Exact, StateAt(n, ls, k), ls[k]) == (StateAt(n, ls, k + 1), Exec(Exact, Init(n), ls).1[k])
    decreases |ls|
  {
    var es := Exec(Exact, Init(n), ls).1;
    if k == |ls| {
      assert ls[..k] == ls;
      if ls != [] {
        ExecPrefix(n, ls[..|ls| - 1], |ls| - 1);
      }
      assert es[..k] == es;
    } else {
      var ls0 := ls[..|ls| - 1];
      ExecPrefix(n, ls0, k);
      assert ls0[..k] == ls[..k];
      assert es[..|es| - 1] == Exec(Exact, Init(n), ls0).1;
      assert ls[..k + 1][..k] == ls[..k];
      if k + 1 <= |ls0| {
        assert ls0[..k + 1] == ls[..k + 1];
      } else {
        assert ls[..k + 1] == ls;
      }
    }
  }

  /** Thief `t` is past its look at `bottom_` and would win with the current `top_`. */
  predicate CanWin(s: State, t: Tid) {
    (s.Thief(t).StealSlot? || s.Thief(t).StealCas?) && s.Thief(t).tp == s.top
  }

  /** Once the owner has lowered `bottom_` to the last task, nobody joins those who can win. */
  lemma NobodyJoins(s: State, l: Label, t: Tid)
    requires Lowered(s) && !Takes(Step(Exact, s, l).1)
    ensures var s' := Step(Exact, s, l).0;
            Lowered(s') && (CanWin(s', t) ==> CanWin(s, t))
  {
    StepKeepsInv(s, l);
    PopsOn(s, l);
    assert t in s.thieves ==> ThiefInv(s, s.thieves[t]);
    if l.Go? {
      assert l.t in s.thieves ==> ThiefInv(s, s.thieves[l.t]);
    }
  }

  /** `ss` are the states that the steps `ls` with answers `es` lead through. */
  ghost predicate Trace(ss: seq<State>, ls: seq<Label>, es: seq<Event>) {
    && |ss| == |ls| + 1 && |es| == |ls|
    && forall k :: 0 <= k < |ls| ==> Leads(ss, ls, es, k)
  }

  predicate Leads(ss: seq<State>, ls: seq<Label>, es: seq<Event>, k: nat)
    requires |ss| == |ls| + 1 && |es| == |ls| && k < |ls|
  {
    Shaped(ss[k]) && Step(Exact, ss[k], ls[k]) == (ss[k + 1], es[k])
  }

  /** The owner has lowered `bottom_` to its last task. */
  ghost predicate Lowered(s: State) {
    Inv(s) && Popping(s.owner) && s.bottom <= s.top
  }

  /** From a state in which the last task is being popped, as long as nobody takes it. */
  lemma {:induction false} StillInFlight(ss: seq<State>, ls: seq<Label>, es: seq<Event>, i: nat, j: nat, t: Tid)
    requires Trace(ss, ls, es) && i <= j <= |ls| && Lowered(ss[i])
    requires forall k :: i <= k < j ==> !Takes(es[k])
    ensures forall k :: i <= k <= j ==> Lowered(ss[k])
    ensures CanWin(ss[j], t) ==> forall k :: i <= k <= j ==> CanWin(ss[k], t)
    ensures Replay(es[..j]) == Replay(es[..i])
    decreases j
  {
    if i < j {
      StillInFlight(ss, ls, es, i, j - 1, t);
      OneMoreStep(ss, ls, es, j - 1, t);
      assert es[..j][..j - 1] == es[..j - 1];
    }
  }

  lemma OneMoreStep(ss: seq<State>, ls: seq<Label>, es: seq<Event>, k: nat, t: Tid)
    requires Trace(ss, ls, es) && k < |ls| && Lowered(ss[k]) && !Takes(es[k])
    ensures Lowered(ss[k + 1]) && (CanWin(ss[k + 1], t) ==> CanWin(ss[k], t)) && !es[k].PushDone?
  {
    assert Leads(ss, ls, es, k);
    NobodyJoins(ss[k], ls[k], t);
    PopsOn(ss[k], ls[k]);
  }

  lemma EarlyMeansLowered(s: State, l: Label)
    requires Inv(s) && Step(Exact, s, l).1.StealEmpty? && Contents(s) != []
    ensures Lowered(s)
  {
    StepRefines(s, l);
    assert l.t in s.thieves ==> ThiefInv(s, s.thieves[l.t]);
  }

  /** The last task does not get lost, and the order is one that real time allows: if step `i`
      answers "empty" with a task left, the next operation that takes anything takes that task,
      and it has been in flight at every moment since step `i`: the pop, or a steal that had
      already seen it. */
  lemma TakerWasInFlight(n: nat, ls: seq<Label>, i: nat, j: nat)
    requires n > 0 && i < j < |ls|
    requires |Exec(Exact, Init(n), ls).1| == |ls|
    requires var es := Exec(Exact, Init(n), ls).1;
             && es[i].StealEmpty? && Replay(es[..i]) != [] && Takes(es[j])
             && forall k :: i <= k < j ==> !Takes(es[k])
    ensures var es := Exec(Exact, Init(n), ls).1;
            && |Replay(es[..i])| == 1 && es[j].h == Replay(es[..i])[0]
            && (forall k :: i <= k <= j ==> Popping(StateAt(n, ls, k).owner))
            && (es[j].Stolen? ==> forall k :: i <= k <= j ==> CanWin(StateAt(n, ls, k), es[j].t))
  {
    var es := Exec(Exact, Init(n), ls).1;
    var ss := seq(|ls| + 1, k requires 0 <= k <= |ls| => StateAt(n, ls, k));
    forall k | 0 <= k < |ls| ensures Leads(ss, ls, es, k) {
      ExecPrefix(n, ls, k);
    }
    EarlyAt(n, ls, i);
    var t := if es[j].Stolen? then es[j].t else 0;
    StillInFlight(ss, ls, es, i, j, t);
    HeldAt(n, ls, j);
    TakerTakes(StateAt(n, ls, j), ls[j]);
    forall k | i <= k <= j ensures Popping(StateAt(n, ls, k).owner) && (es[j].Stolen? ==> CanWin(StateAt(n, ls, k), t)) {
      assert Lowered(ss[k]) && (es[j].Stolen? ==> CanWin(ss[k], t));
    }
  }

  lemma HeldAt(n: nat, ls: seq<Label>, k: nat)
    requires n > 0 && k < |ls|
    ensures var es := Exec(Exact, Init(n), ls).1;
            && |es| == |ls| && Inv(StateAt(n, ls, k)) && Contents(StateAt(n, ls, k)) == Replay(es[..k])
            && Step(Exact, StateAt(n, ls, k), ls[k]).1 == es[k]
  {
    Linearizable(n, ls[..k]);
    ExecPrefix(n, ls, k);
  }

  lemma EarlyAt(n: nat, ls: seq<Label>, i: nat)
    requires n > 0 && i < |ls| && |Exec(Exact, Init(n), ls).1| == |ls|
    requires var es := Exec(Exact, Init(n), ls).1; es[i].StealEmpty? && Replay(es[..i]) != []
    ensures var s := StateAt(n, ls, i);
            && Lowered(s)
            && |Replay(Exec(Exact, Init(n), ls).1[..i])| == 1
  {
    HeldAt(n, ls, i);
    StepRefines(StateAt(n, ls, i), ls[i]);
    EarlyMeansLowered(StateAt(n, ls, i), ls[i]);
  }

  lemma TakerTakes(s: State, l: Label)
    requires Inv(s) && |Contents(s)| == 1 && Takes(Step(Exact, s, l).1)
    ensures var e := Step(Exact, s, l).1;
            e.h == Contents(s)[0] && (e.Stolen? ==> CanWin(s, e.t))
  {
    StepRefines(s, l);
  }

  // ------------------------------------------------------------------ real time

  /** The operation that gives the answer `e` is in flight. */
  predicate InFlight(s: State, e: Event) {
    match e
    case Tau => true
    case PushDone(_, _) => !s.owner.Ready?
    case PopDone(_) => !s.owner.Ready?
    case Stolen(t, _) => !s.Thief(t).Away?
    case StealEmpty(t) => !s.Thief(t).Away?
    case StealAbort(t) => !s.Thief(t).Away?
  }

  /** The operation that answers at step `y` was in flight from before step `x` on. */
  ghost predicate BegunBefore(n: nat, ls: seq<Label>, x: nat, y: nat) {
    && n > 0 && x < y < |ls| && |Exec(Exact, Init(n), ls).1| == |ls|
    && forall k :: x <= k <= y ==> InFlight(StateAt(n, ls, k), Exec(Exact, Init(n), ls).1[y])
  }

  /** The steps in the order in which their answers are placed. */
  function Steps(o: Order): seq<nat> {
    o.placedAt + o.earlyAt
  }

  /** `o` holds the first `m` answers of `es` with their steps. */
  ghost predicate Numbered(o: Order, es: seq<Event>, m: nat) {
    && |o.placedAt| == |o.placed| && |o.earlyAt| == |o.early| && |o.placed| + |o.early| == m <= |es|
    && (forall a :: 0 <= a < |o.placed| ==> o.placedAt[a] < m && o.placed[a] == es[o.placedAt[a]])
    && (forall a :: 0 <= a < |o.early| ==> o.earlyAt[a] < m && o.early[a] == es[o.earlyAt[a]])
  }

  /** Whoever is placed before an earlier step had begun before it. */
  ghost predicate Timed(steps: seq<nat>, begun: (nat, nat) -> bool) {
    forall a, b :: 0 <= a < b < |steps| && steps[b] < steps[a] ==> begun(steps[b], steps[a])
  }

  /** While answers wait, the first of them was given with a task left, in `rs`, and nothing has
      been taken since. */
  ghost predicate Waiting(o: Order, es: seq<Event>, rs: seq<seq<Handle>>, m: nat) {
    o.earlyAt != [] ==>
      var i := o.earlyAt[0];
      && i < m <= |es| && i < |rs| && es[i].StealEmpty? && rs[i] != []
      && (forall a :: 0 <= a < |o.earlyAt| ==> i <= o.earlyAt[a])
      && (forall k :: i <= k < m ==> !Takes(es[k]))
  }

  /** A last step put before those of `waiting`, or behind all if there are none. */
  lemma InsertTimed(steps: seq<nat>, waiting: seq<nat>, m: nat, begun: (nat, nat) -> bool)
    requires Timed(steps + waiting, begun) && forall a :: 0 <= a < |waiting| ==> begun(waiting[a], m)
    requires forall a :: 0 <= a < |steps + waiting| ==> (steps + waiting)[a] < m
    ensures Timed(steps + [m] + waiting, begun)
  {
    var before, after, p := steps + waiting, steps + [m] + waiting, |steps|;
    forall a, b | 0 <= a < b < |after| && after[b] < after[a] ensures begun(after[b], after[a]) {
      var a0, b0 := if a < p then a else a - 1, if b < p then b else b - 1;
      if a == p {
        assert after[b] == waiting[b - p - 1];
      } else if b != p {
        assert after[a] == before[a0] && after[b] == before[b0];
      }
    }
  }

  lemma PlaceNumbered(o: Order, es: seq<Event>, m: nat)
    requires m < |es| && Numbered(o, es, m)
    ensures Numbered(Place(o, es[m]), es, m + 1)
  {
  }

  lemma PlaceTimed(o: Order, es: seq<Event>, m: nat, begun: (nat, nat) -> bool)
    requires m < |es| && Numbered(o, es, m) && Timed(Steps(o), begun)
    requires o.early != [] && Takes(es[m]) ==> forall a :: 0 <= a < |o.earlyAt| ==> begun(o.earlyAt[a], m)
    ensures Timed(Steps(Place(o, es[m])), begun)
  {
    var after := Steps(Place(o, es[m]));
    if o.early != [] && Takes(es[m]) {
      InsertTimed(o.placedAt, o.earlyAt, m, begun);
      assert after == o.placedAt + [m] + o.earlyAt;
    } else {
      var none: seq<nat> := [];
      assert Steps(o) + none == Steps(o);
      InsertTimed(Steps(o), none, m, begun);
      assert after == Steps(o) + [m] + none;
    }
  }

  lemma PlaceWaits(o: Order, es: seq<Event>, rs: seq<seq<Handle>>, m: nat)
    requires m < |es| && m < |rs| && Numbered(o, es, m) && Waiting(o, es, rs, m) && Replay(o.placed) == rs[m]
    ensures Waiting(Place(o, es[m]), es, rs, m + 1)
  {
  }

  /** What the run owes to the order: whoever takes after an early answer had begun before it. */
  ghost predicate Overtakes(es: seq<Event>, rs: seq<seq<Handle>>, begun: (nat, nat) -> bool) {
    forall i: nat, x: nat, y: nat | i <= x < y < |es| && i < |rs| && TakenNext(es, rs, i, y) :: begun(x, y)
  }

  ghost predicate TakenNext(es: seq<Event>, rs: seq<seq<Handle>>, i: nat, y: nat)
    requires i < y < |es| && i < |rs|
  {
    es[i].StealEmpty? && rs[i] != [] && Takes(es[y]) && forall k :: i <= k < y ==> !Takes(es[k])
  }

  ghost predicate Placed(os: seq<Order>, es: seq<Event>, rs: seq<seq<Handle>>, k: nat)
    requires k < |es| && |os| == |rs| == |es| + 1
  {
    os[k + 1] == Place(os[k], es[k]) && Replay(os[k].placed) == rs[k]
  }

  lemma EarlyBegun(o: Order, es: seq<Event>, rs: seq<seq<Handle>>, begun: (nat, nat) -> bool, m: nat)
    requires m < |es| && Overtakes(es, rs, begun) && Numbered(o, es, m) && Waiting(o, es, rs, m)
    requires o.early != [] && Takes(es[m])
    ensures forall a :: 0 <= a < |o.earlyAt| ==> begun(o.earlyAt[a], m)
  {
    assert TakenNext(es, rs, o.earlyAt[0], m);
  }

  lemma {:induction false} AllTimed(os: seq<Order>, es: seq<Event>, rs: seq<seq<Handle>>, begun: (nat, nat) -> bool, m: nat)
    requires |os| == |rs| == |es| + 1 && os[0] == NO_ORDER && m <= |es| && Overtakes(es, rs, begun)
    requires forall k :: 0 <= k < |es| ==> Placed(os, es, rs, k)
    ensures Numbered(os[m], es, m) && Timed(Steps(os[m]), begun) && Waiting(os[m], es, rs, m)
  {
    if m > 0 {
      AllTimed(os, es, rs, begun, m - 1);
      var o := os[m - 1];
      assert Placed(os, es, rs, m - 1);
      if o.early != [] && Takes(es[m - 1]) {
        EarlyBegun(o, es, rs, begun, m - 1);
      }
      PlaceNumbered(o, es, m - 1);
      PlaceTimed(o, es, m - 1, begun);
      PlaceWaits(o, es, rs, m - 1);
    }
  }

  lemma PlacedAt(n: nat, ls: seq<Label>, k: nat)
    requires n > 0 && k < |ls|
    ensures var es := Exec(Exact, Init(n), ls).1;
            && |es| == |ls| && Reordered(es[..k + 1]) == Place(Reordered(es[..k]), es[k])
            && Replay(Reordered(es[..k]).placed) == Replay(es[..k])
  {
    var es := Exec(Exact, Init(n), ls).1;
    ExecPrefix(n, ls, k);
    RunOrdered(n, ls[..k]);
    Linearizable(n, ls[..k]);
    assert es[..k + 1][..k] == es[..k];
  }

  lemma OvertakenBegun(n: nat, ls: seq<Label>, i: nat, x: nat, y: nat)
    requires n > 0 && i <= x < y < |ls| && |Exec(Exact, Init(n), ls).1| == |ls|
    requires var es := Exec(Exact, Init(n), ls).1;
             es[i].StealEmpty? && Replay(es[..i]) != [] && Takes(es[y]) && forall k :: i <= k < y ==> !Takes(es[k])
    ensures BegunBefore(n, ls, x, y)
  {
    TakerWasInFlight(n, ls, i, y);
  }

  /** The orders and the contents after each of the answers. */
  function Orders(es: seq<Event>): (os: seq<Order>)
    ensures |os| == |es| + 1
  {
    seq(|es| + 1, m requires 0 <= m <= |es| => Reordered(es[..m]))
  }

  function Replays(es: seq<Event>): (rs: seq<seq<Handle>>)
    ensures |rs| == |es| + 1
  {
    seq(|es| + 1, m requires 0 <= m <= |es| => Replay(es[..m]))
  }

  lemma AllPlaced(n: nat, ls: seq<Label>)
    requires n > 0
    ensures var es := Exec(Exact, Init(n), ls).1;
            forall k :: 0 <= k < |es| ==> Placed(Orders(es), es, Replays(es), k)
  {
    var es := Exec(Exact, Init(n), ls).1;
    ExecPrefix(n, ls, |ls|);
    forall k | 0 <= k < |es| ensures Placed(Orders(es), es, Replays(es), k) {
      PlacedAt(n, ls, k);
    }
  }

  lemma AllOvertake(n: nat, ls: seq<Label>, begun: (nat, nat) -> bool)
    requires n > 0 && forall x, y :: BegunBefore(n, ls, x, y) ==> begun(x, y)
    ensures var es := Exec(Exact, Init(n), ls).1; Overtakes(es, Replays(es), begun)
  {
    var es := Exec(Exact, Init(n), ls).1;
    ExecPrefix(n, ls, |ls|);
    var rs := Replays(es);
    forall i: nat, x: nat, y: nat | i <= x < y < |es| && i < |rs| && TakenNext(es, rs, i, y) ensures begun(x, y) {
      OvertakenBegun(n, ls, i, x, y);
    }
  }

  lemma RunTimed(n: nat, ls: seq<Label>, begun: (nat, nat) -> bool)
    requires n > 0 && forall x, y :: BegunBefore(n, ls, x, y) ==> begun(x, y)
    ensures var es := Exec(Exact, Init(n), ls).1;
            Numbered(Reordered(es), es, |es|) && Timed(Steps(Reordered(es)), begun)
  {
    var es := Exec(Exact, Init(n), ls).1;
    AllPlaced(n, ls);
    AllOvertake(n, ls, begun);
    AllTimed(Orders(es), es, Replays(es), begun, |es|);
    assert es[..|es|] == es;
  }

  /** Real time: an operation that has returned before another one begins stays before it.
      Over every run the order holds the answers of all steps; and whatever answers at step `y`
      and is placed before the answer of an earlier step `x` had begun before step `x`. */
  lemma RealTimeRespected(n: nat, ls: seq<Label>, a: nat, b: nat)
    requires n > 0
    ensures var es := Exec(Exact, Init(n), ls).1;
            var steps := Steps(Reordered(es));
            && Numbered(Reordered(es), es, |es|)
            && (a < b < |steps| && steps[b] < steps[a] ==> BegunBefore(n, ls, steps[b], steps[a]))
  {
    RunTimed(n, ls, (x: nat, y: nat) => BegunBefore(n, ls, x, y));
  }

  /** Such answers exist: the owner has begun to pop its only task. */
  lemma MissTrack(r: Track -> bool) returns (k: Track)
    requires Closed(Exact, 2, r)
    ensures r(k) && k.last == StealEmpty(1) && Inv(k.s) && Contents(k.s) == [7]
  {
    k := PushAlone(Exact, 2, r, Start(2), 7);
    k := BeginPop(Exact, 2, r, k);
    var s := k.s;
    k := Silent(Exact, 2, r, k, Steal(1), s.(thieves := s.thieves[1 := StealBottom(0)]));
    k := Answers(Exact, 2, r, k, Go(1), k.s.(thieves := k.s.thieves[1 := Away]), StealEmpty(1));
  }

  lemma EmptyStealCanMissATask() returns (ls: seq<Label>)
    ensures var (s, es) := Exec(Exact, Init(2), ls);
            Inv(s) && Contents(s) == [7] && |es| > 0 && es[|es| - 1] == StealEmpty(1)
  {
    RunsAreClosed(Exact, 2);
    var k := MissTrack(k => exists ls :: Tracked(Exact, 2, ls) == k);
    ls := RunOf(Exact, 2, k);
  }
}
