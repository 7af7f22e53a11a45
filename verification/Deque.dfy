/** The bounded work-stealing deque as a protocol.

    One owner pushes and pops at the bottom, any number of thieves steal at the top.
    Every step is one atomic access of `top_`, `bottom_` or a slot, and steps of all
    threads interleave arbitrarily under sequential consistency. */
module Deque {
  import opened Handles
  import opened Words

  type Tid = nat

  /** Program counter and locals of the owner.  Each constructor names the access that
      comes next.  `won` records whether the compare-and-swap succeeded. */
  datatype Owner =
    | Ready
    | PushTop(h: Handle, bt: int)
    | PushSlot(h: Handle, bt: int)
    | PushBottom(h: Handle, bt: int)
    | PopBottom(bt: int)
    | PopTop(bt: int)
    | PopSlot(bt: int, tp: int)
    | PopCas(bt: int, tp: int, h: Handle)
    | PopRestore(bt: int, h: Handle, won: bool)

  /** Program counter and locals of one thief. */
  datatype Thief =
    | Away
    | StealBottom(tp: int)
    | StealSlot(tp: int)
    | StealCas(tp: int, h: Handle)

  datatype State = State(
    n: nat,
    top: int,
    bottom: int,
    slots: seq<Handle>,
    owner: Owner,
    thieves: map<Tid, Thief>)
  {
    function Thief(t: Tid): Thief {
      if t in thieves then thieves[t] else Away
    }
  }

  /** What a step lets the caller of an operation see. */
  datatype Event =
    | Tau
    | PushDone(h: Handle, ok: bool)
    | PopDone(h: Handle)
    | Stolen(t: Tid, h: Handle)
    | StealEmpty(t: Tid)
    | StealAbort(t: Tid)

  /** Which thread moves, and how an idle one begins. */
  datatype Label =
    | Push(h: Handle)
    | Pop
    | Own
    | Steal(t: Tid)
    | Go(t: Tid)

  function Init(n: nat): State {
    State(n, 0, 0, seq(n, _ => NULL), Ready, map[])
  }

  predicate Shaped(s: State) {
    s.n > 0 && |s.slots| == s.n
  }

  /** The next access of the owner. */
  function OwnerStep(a: Arith, s: State): (r: (State, Event))
    requires Shaped(s)
    ensures Shaped(r.0) && r.0.n == s.n
  {
    match s.owner
    case Ready => (s, Tau)
    case PushTop(h, bt) =>
      if a.Norm(bt - s.top) >= s.n then (s.(owner := Ready), PushDone(h, false))
      else (s.(owner := PushSlot(h, bt)), Tau)
    case PushSlot(h, bt) =>
      (s.(slots := s.slots[a.Index(bt, s.n) := h], owner := PushBottom(h, bt)), Tau)
    case PushBottom(h, bt) =>
      (s.(bottom := a.Norm(bt + 1), owner := Ready), PushDone(h, true))
    case PopBottom(bt) =>
      (s.(bottom := bt, owner := PopTop(bt)), Tau)
    case PopTop(bt) =>
      if a.Signed(s.top) <= a.Signed(bt) then (s.(owner := PopSlot(bt, s.top)), Tau)
      else (s.(owner := PopRestore(bt, NULL, false)), Tau)
    case PopSlot(bt, tp) =>
      var h := s.slots[a.Index(bt, s.n)];
      if tp == bt then (s.(owner := PopCas(bt, tp, h)), Tau)
      else (s.(owner := Ready), PopDone(h))
    case PopCas(bt, tp, h) =>
      if s.top == tp then (s.(top := a.Norm(tp + 1), owner := PopRestore(bt, h, true)), Tau)
      else (s.(owner := PopRestore(bt, NULL, false)), Tau)
    case PopRestore(bt, h, won) =>
      (s.(bottom := a.Norm(bt + 1), owner := Ready), PopDone(h))
  }

  /** The next access of thief `t`, which is inside a `steal`. */
  function ThiefStep(a: Arith, s: State, t: Tid): (r: (State, Event))
    requires Shaped(s)
    ensures Shaped(r.0) && r.0.n == s.n
  {
    match s.Thief(t)
    case Away => (s, Tau)
    case StealBottom(tp) =>
      if a.Signed(tp) < a.Signed(s.bottom) then (s.(thieves := s.thieves[t := StealSlot(tp)]), Tau)
      else (s.(thieves := s.thieves[t := Away]), StealEmpty(t))
    case StealSlot(tp) =>
      (s.(thieves := s.thieves[t := StealCas(tp, s.slots[a.Index(tp, s.n)])]), Tau)
    case StealCas(tp, h) =>
      var s' := s.(thieves := s.thieves[t := Away]);
      if s.top == tp then (s'.(top := a.Norm(tp + 1)), Stolen(t, h))
      else (s', StealAbort(t))
  }

  /** One atomic access.  A label that does not fit the thread's state does nothing. */
  function Step(a: Arith, s: State, l: Label): (r: (State, Event))
    requires Shaped(s)
    ensures Shaped(r.0) && r.0.n == s.n
  {
    match l
    case Push(h) => if s.owner.Ready? then (s.(owner := PushTop(h, s.bottom)), Tau) else (s, Tau)
    case Pop => if s.owner.Ready? then (s.(owner := PopBottom(a.Norm(s.bottom - 1))), Tau) else (s, Tau)
    case Own => OwnerStep(a, s)
    case Steal(t) => if s.Thief(t).Away? then (s.(thieves := s.thieves[t := StealBottom(s.top)]), Tau) else (s, Tau)
    case Go(t) => ThiefStep(a, s, t)
  }

  function Exec(a: Arith, s: State, ls: seq<Label>): (r: (State, seq<Event>))
    requires Shaped(s)
    ensures Shaped(r.0) && r.0.n == s.n
  {
    if ls == [] then (s, [])
    else
      var (s1, es) := Exec(a, s, ls[..|ls| - 1]);
      var (s2, e) := Step(a, s1, ls[|ls| - 1]);
      (s2, es + [e])
  }

  lemma ExecSnoc(a: Arith, s: State, ls: seq<Label>, l: Label)
    requires Shaped(s)
    ensures var (s1, es) := Exec(a, s, ls);
            Exec(a, s, ls + [l]) == (Step(a, s1, l).0, es + [Step(a, s1, l).1])
  {
    assert (ls + [l])[..|ls|] == ls;
  }

  // ------------------------------------------------------------------ invariant

  /** One past the last position a thief may still win. */
  function End(s: State): int {
    match s.owner
    case PopTop(_) => s.bottom + 1
    case PopSlot(bt, tp) => if tp < bt then s.bottom else s.bottom + 1
    case PopCas(_, _, _) => s.bottom + 1
    case PopRestore(_, _, _) => s.bottom + 1
    case _ => s.bottom
  }

  predicate OwnerInv(s: State)
    requires Shaped(s)
  {
    match s.owner
    case Ready => true
    case PushTop(h, bt) => bt == s.bottom
    case PushSlot(h, bt) => bt == s.bottom && bt - s.top < s.n
    case PushBottom(h, bt) => bt == s.bottom && bt - s.top < s.n && s.slots[bt % s.n] == h
    case PopBottom(bt) => bt == s.bottom - 1
    case PopTop(bt) => bt == s.bottom
    case PopSlot(bt, tp) => bt == s.bottom && 0 <= tp <= bt < tp + s.n && tp <= s.top
    case PopCas(bt, tp, h) => 0 <= bt == s.bottom == tp <= s.top && (s.top == bt ==> h == s.slots[bt % s.n])
    case PopRestore(bt, h, won) => bt == s.bottom && s.top == bt + 1 && (!won ==> h == NULL)
  }

  predicate ThiefInv(s: State, th: Thief)
    requires Shaped(s)
  {
    match th
    case Away => true
    case StealBottom(tp) => 0 <= tp <= s.top
    case StealSlot(tp) => 0 <= tp <= s.top && (tp == s.top ==> tp < End(s))
    case StealCas(tp, h) =>
      0 <= tp <= s.top && (tp == s.top ==> tp < End(s) && h == s.slots[tp % s.n])
  }

  ghost predicate Inv(s: State) {
    && Shaped(s)
    && 0 <= s.top <= End(s) <= s.top + s.n
    && OwnerInv(s)
    && forall t :: t in s.thieves ==> ThiefInv(s, s.thieves[t])
  }

  lemma InitInv(n: nat)
    requires n > 0
    ensures Inv(Init(n))
  {
  }

  /** The owner's steps keep the thieves' part: a slot is written only past the live range. */
  lemma OwnerKeepsThief(s: State, t: Tid)
    requires Inv(s) && t in s.thieves
    ensures ThiefInv(OwnerStep(Exact, s).0, s.thieves[t])
  {
    assert ThiefInv(s, s.thieves[t]);
    if s.owner.PushSlot? && s.top < s.owner.bt {
      ModDistinct(s.top, s.owner.bt, s.n);
    }
  }

  lemma OwnerKeepsInv(s: State)
    requires Inv(s)
    ensures Inv(OwnerStep(Exact, s).0)
  {
    forall t | t in s.thieves ensures ThiefInv(OwnerStep(Exact, s).0, s.thieves[t]) {
      OwnerKeepsThief(s, t);
    }
  }

  lemma ThiefKeepsInv(s: State, t: Tid)
    requires Inv(s)
    ensures Inv(ThiefStep(Exact, s, t).0)
  {
    var s' := ThiefStep(Exact, s, t).0;
    assert t in s.thieves ==> ThiefInv(s, s.thieves[t]);
    forall u | u in s'.thieves ensures ThiefInv(s', s'.thieves[u]) {
      assert u in s.thieves ==> ThiefInv(s, s.thieves[u]);
    }
  }

  lemma StepKeepsInv(s: State, l: Label)
    requires Inv(s)
    ensures Inv(Step(Exact, s, l).0)
  {
    match l
    case Own => OwnerKeepsInv(s);
    case Go(t) => ThiefKeepsInv(s, t);
    case _ =>
      var s' := Step(Exact, s, l).0;
      forall u | u in s'.thieves ensures ThiefInv(s', s'.thieves[u]) {
        assert u in s.thieves ==> ThiefInv(s, s.thieves[u]);
      }
  }

  lemma {:induction false} ExecKeepsInv(n: nat, ls: seq<Label>)
    requires n > 0
    ensures Inv(Exec(Exact, Init(n), ls).0)
  {
    if ls == [] {
      InitInv(n);
    } else {
      ExecKeepsInv(n, ls[..|ls| - 1]);
      StepKeepsInv(Exec(Exact, Init(n), ls[..|ls| - 1]).0, ls[|ls| - 1]);
    }
  }

  // ------------------------------------------------------------------ linearization

  /** The tasks a thief may still win, oldest first. */
  function Live(s: State): (q: seq<Handle>)
    requires Shaped(s) && 0 <= s.top <= End(s)
    ensures |q| == End(s) - s.top
  {
    seq(End(s) - s.top, i requires 0 <= i => s.slots[(s.top + i) % s.n])
  }

  /** A handle the owner has secured but not returned yet. */
  function Hand(s: State): seq<Handle>
    requires Shaped(s)
  {
    match s.owner
    case PopSlot(bt, tp) => if tp < bt then [s.slots[bt % s.n]] else []
    case PopRestore(bt, h, won) => if won then [h] else []
    case _ => []
  }

  ghost function Contents(s: State): seq<Handle>
    requires Inv(s)
  {
    Live(s) + Hand(s)
  }

  predicate Pushing(o: Owner) {
    o.PushTop? || o.PushSlot? || o.PushBottom?
  }

  predicate Popping(o: Owner) {
    o.PopTop? || o.PopSlot? || o.PopCas? || o.PopRestore?
  }

  /** The sequential deque: what a returning operation does to it. */
  function Apply(q: seq<Handle>, e: Event): seq<Handle> {
    match e
    case PushDone(h, ok) => if ok then q + [h] else q
    case PopDone(h) => if q == [] then [] else q[..|q| - 1]
    case Stolen(t, h) => if q == [] then [] else q[1..]
    case _ => q
  }

  /** The sequential deque: which answers it permits on contents `q` of capacity `n`. */
  predicate Permits(n: nat, q: seq<Handle>, e: Event) {
    match e
    case PushDone(h, ok) => ok <==> |q| < n
    case PopDone(h) => h == if q == [] then NULL else q[|q| - 1]
    case Stolen(t, h) => q != [] && h == q[0]
    case StealEmpty(t) => |q| <= 1
    case _ => true
  }

  /** Writing the slot just past the live range leaves the live range alone. */
  lemma FreeSlotWrite(s: State)
    requires Inv(s) && s.owner.PushSlot?
    ensures var s' := OwnerStep(Exact, s).0;
            && Inv(s') && Live(s') == Live(s)
            && s'.slots[s.bottom % s.n] == s.owner.h
  {
    OwnerKeepsInv(s);
    var s' := OwnerStep(Exact, s).0;
    forall i | 0 <= i < |Live(s)| ensures Live(s')[i] == Live(s)[i] {
      ModDistinct(s.top + i, s.owner.bt, s.n);
    }
  }

  /** Moving the end of the live range by one adds or drops its last task. */
  lemma LiveGrows(s: State, s': State)
    requires Inv(s) && Inv(s') && s'.n == s.n && s'.slots == s.slots && s'.top == s.top
    requires End(s') == End(s) + 1
    ensures Live(s') == Live(s) + [s.slots[End(s) % s.n]]
  {
  }

  lemma PushRefines(s: State)
    requires Inv(s) && Pushing(s.owner)
    ensures var (s', e) := OwnerStep(Exact, s);
            && Inv(s') && Permits(s.n, Contents(s), e)
            && Contents(s') == Apply(Contents(s), e)
  {
    OwnerKeepsInv(s);
    var (s', e) := OwnerStep(Exact, s);
    if s.owner.PushSlot? {
      FreeSlotWrite(s);
    } else if s.owner.PushBottom? {
      LiveGrows(s, s');
    } else {
      assert Live(s') == Live(s);
    }
  }

  lemma PopRefines(s: State)
    requires Inv(s) && !Pushing(s.owner)
    ensures var (s', e) := OwnerStep(Exact, s);
            && Inv(s') && Permits(s.n, Contents(s), e)
            && Contents(s') == Apply(Contents(s), e)
  {
    OwnerKeepsInv(s);
    var (s', e) := OwnerStep(Exact, s);
    if s.owner.PopTop? && s.top < s.bottom {
      LiveGrows(s', s);
    } else if s.owner.PopCas? && s.top == s.owner.tp {
      assert Live(s) == [s.owner.h] && Live(s') == [];
    } else {
      assert Live(s') == Live(s);
    }
  }

  /** A won compare-and-swap takes the oldest live task. */
  lemma StealTakesOldest(s: State, t: Tid)
    requires Inv(s) && s.Thief(t).StealCas? && s.Thief(t).tp == s.top
    ensures var (s', e) := ThiefStep(Exact, s, t);
            && e == Stolen(t, s.Thief(t).h) && End(s') == End(s)
            && s'.top <= End(s') && Live(s) == [e.h] + Live(s') && Hand(s') == Hand(s)
  {
    assert ThiefInv(s, s.thieves[t]);
  }

  /** The owner has lowered `bottom_` to its last task, or has won that and not returned yet. */
  predicate PoppingLast(s: State) {
    Popping(s.owner) && (s.bottom == s.top || (s.owner.PopRestore? && s.owner.won))
  }

  /** An empty answer: a task is left exactly while the owner is popping the last one. */
  lemma EmptyRefines(s: State, t: Tid)
    requires Inv(s) && s.Thief(t).StealBottom? && s.Thief(t).tp >= s.bottom
    ensures |Contents(s)| == if PoppingLast(s) then 1 else 0
  {
    assert ThiefInv(s, s.thieves[t]);
  }

  lemma ThiefRefines(s: State, t: Tid)
    requires Inv(s)
    ensures var (s', e) := ThiefStep(Exact, s, t);
            && Inv(s') && Permits(s.n, Contents(s), e)
            && Contents(s') == Apply(Contents(s), e)
            && (e.StealEmpty? ==> |Contents(s)| == if PoppingLast(s) then 1 else 0)
  {
    ThiefKeepsInv(s, t);
    var (s', e) := ThiefStep(Exact, s, t);
    if e.Stolen? {
      StealTakesOldest(s, t);
      assert ([e.h] + Live(s') + Hand(s'))[1..] == Live(s') + Hand(s');
    } else {
      assert Live(s') == Live(s);
      if e.StealEmpty? {
        EmptyRefines(s, t);
      }
    }
  }

  /** Every step is either silent or exactly one operation of the sequential deque. */
  lemma StepRefines(s: State, l: Label)
    requires Inv(s)
    ensures var (s', e) := Step(Exact, s, l);
            && Inv(s') && Permits(s.n, Contents(s), e)
            && Contents(s') == Apply(Contents(s), e)
            && (e.StealEmpty? ==> |Contents(s)| == if PoppingLast(s) then 1 else 0)
  {
    StepKeepsInv(s, l);
    match l
    case Own =>
      if Pushing(s.owner) {
        PushRefines(s);
      } else {
        PopRefines(s);
      }
    case Go(t) => ThiefRefines(s, t);
    case _ =>
      assert Live(Step(Exact, s, l).0) == Live(s);
  }

  function Replay(es: seq<Event>): seq<Handle> {
    if es == [] then [] else Apply(Replay(es[..|es| - 1]), es[|es| - 1])
  }

  /** Each answer is permitted by what the answers before it leave. */
  ghost predicate PermittedRun(n: nat, es: seq<Event>) {
    forall i :: 0 <= i < |es| ==> PermittedAt(n, es, i)
  }

  predicate PermittedAt(n: nat, es: seq<Event>, i: nat)
    requires i < |es|
  {
    Permits(n, Replay(es[..i]), es[i])
  }

  /** Every run, replayed in the order in which operations take effect, is a run of the
      sequential deque: each answer is permitted by the contents at that moment, and the
      tasks held at the end are the replayed contents. */
  lemma {:induction false} Linearizable(n: nat, ls: seq<Label>)
    requires n > 0
    ensures var (s, es) := Exec(Exact, Init(n), ls);
            && Inv(s) && Contents(s) == Replay(es) && |es| == |ls|
            && PermittedRun(n, es)
  {
    if ls == [] {
      InitInv(n);
    } else {
      var ls0 := ls[..|ls| - 1];
      var (s0, es0) := Exec(Exact, Init(n), ls0);
      Linearizable(n, ls0);
      StepRefines(s0, ls[|ls| - 1]);
      PermittedSnoc(n, es0, Step(Exact, s0, ls[|ls| - 1]).1);
    }
  }

  lemma PermittedSnoc(n: nat, es: seq<Event>, e: Event)
    requires PermittedRun(n, es) && Permits(n, Replay(es), e)
    ensures PermittedRun(n, es + [e]) && Replay(es + [e]) == Apply(Replay(es), e)
  {
    var es' := es + [e];
    assert es'[..|es|] == es;
    forall i | 0 <= i < |es'| ensures PermittedAt(n, es', i) {
      if i < |es| {
        assert PermittedAt(n, es, i) && es'[..i] == es[..i] && es'[i] == es[i];
      }
    }
  }

  /** The handle taken in by a successful `push`, or handed out by a successful `pop` or
      `steal`. */
  function In(e: Event): multiset<Handle> {
    if e.PushDone? && e.ok then multiset{e.h} else multiset{}
  }

  function Out(e: Event): multiset<Handle> {
    if e.Stolen? || (e.PopDone? && e.h != NULL) then multiset{e.h} else multiset{}
  }

  function Pushed(es: seq<Event>): multiset<Handle> {
    if es == [] then multiset{} else Pushed(es[..|es| - 1]) + In(es[|es| - 1])
  }

  function Returned(es: seq<Event>): multiset<Handle> {
    if es == [] then multiset{} else Returned(es[..|es| - 1]) + Out(es[|es| - 1])
  }

  lemma LastOut(q: seq<Handle>)
    requires q != []
    ensures multiset(q) == multiset(q[..|q| - 1]) + multiset{q[|q| - 1]}
    ensures multiset(q) == multiset(q[1..]) + multiset{q[0]}
  {
    assert q == q[..|q| - 1] + [q[|q| - 1]];
    assert q == [q[0]] + q[1..];
  }

  lemma {:induction false} ReplayConserves(n: nat, es: seq<Event>, h: Handle)
    requires h != NULL && PermittedRun(n, es)
    ensures Pushed(es)[h] == Returned(es)[h] + multiset(Replay(es))[h]
  {
    if es != [] {
      var es0, e := es[..|es| - 1], es[|es| - 1];
      forall i | 0 <= i < |es0| ensures PermittedAt(n, es0, i) {
        assert PermittedAt(n, es, i) && es0[..i] == es[..i];
      }
      ReplayConserves(n, es0, h);
      assert PermittedAt(n, es, |es0|);
      ApplyConserves(n, Replay(es0), e, h);
    }
  }

  lemma ApplyConserves(n: nat, q: seq<Handle>, e: Event, h: Handle)
    requires h != NULL && Permits(n, q, e)
    ensures multiset(q)[h] + In(e)[h] == multiset(Apply(q, e))[h] + Out(e)[h]
  {
    if q != [] {
      LastOut(q);
    }
  }

  /** Exactly once: at any moment of any run each non-null handle has been pushed as often
      as it has been returned plus as often as it is still held. */
  lemma ExactlyOnce(n: nat, ls: seq<Label>, h: Handle)
    requires n > 0 && h != NULL
    ensures var (s, es) := Exec(Exact, Init(n), ls);
            && Inv(s)
            && Pushed(es)[h] == Returned(es)[h] + multiset(Contents(s))[h]
  {
    Linearizable(n, ls);
    ReplayConserves(n, Exec(Exact, Init(n), ls).1, h);
  }

  /** An empty answer of `steal`, over every run: nothing is there, unless the owner is popping
      the last task; then exactly that one is. */
  lemma EmptyStealIsHonest(n: nat, ls: seq<Label>, l: Label)
    requires n > 0
    ensures var s := Exec(Exact, Init(n), ls).0;
            && Inv(s)
            && (Step(Exact, s, l).1.StealEmpty? ==>
                  && (Contents(s) != [] <==> PoppingLast(s))
                  && |Contents(s)| <= 1)
  {
    ExecKeepsInv(n, ls);
    StepRefines(Exec(Exact, Init(n), ls).0, l);
  }
}
