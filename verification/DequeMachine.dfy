/** The deque on 64-bit words refines the deque on integers. */
module DequeMachine {
  import opened Handles
  import opened Words
  import opened Deque
  import opened StrictDeque

  function WordOwner(o: Owner): Owner {
    match o
    case Ready => o
    case PushTop(h, bt) => PushTop(h, W(bt))
    case PushSlot(h, bt) => PushSlot(h, W(bt))
    case PushBottom(h, bt) => PushBottom(h, W(bt))
    case PopBottom(bt) => PopBottom(W(bt))
    case PopTop(bt) => PopTop(W(bt))
    case PopSlot(bt, tp) => PopSlot(W(bt), W(tp))
    case PopCas(bt, tp, h) => PopCas(W(bt), W(tp), h)
    case PopRestore(bt, h, won) => PopRestore(W(bt), h, won)
  }

  function WordThief(th: Thief): Thief {
    match th
    case Away => th
    case StealBottom(tp) => StealBottom(W(tp))
    case StealSlot(tp) => StealSlot(W(tp))
    case StealCas(tp, h) => StealCas(W(tp), h)
  }

  function WordThieves(ts: map<Tid, Thief>): map<Tid, Thief> {
    map t | t in ts :: WordThief(ts[t])
  }

  /** The memory image of an integer state: every counter wrapped to 64 bits. */
  function Image(s: State): State {
    State(s.n, W(s.top), W(s.bottom), s.slots, WordOwner(s.owner), WordThieves(s.thieves))
  }

  /** Pointwise update commutes with the image. */
  lemma WordThievesUpdate(ts: map<Tid, Thief>, t: Tid, th: Thief)
    ensures WordThieves(ts[t := th]) == WordThieves(ts)[t := WordThief(th)]
  {
  }

  /** Where words decide as the integers do.  `pop`: no odd multiple of 2^63 lies between
      `top_` and the lowered `bottom_`. */
  predicate PopAgrees(top: int, bottom: int) {
    if top <= bottom then (top + TWO63) / TWO64 == (bottom + TWO63) / TWO64 else (top + TWO63) % TWO64 != 0
  }

  /** `steal`, its look at `bottom_`: the same for the `top_` that it has loaded, unless that is
      so old that the comparison comes out right again. */
  predicate LookAgrees(tp: int, bottom: int) {
    PopAgrees(tp, bottom) || (tp < bottom && (tp + TWO63) % TWO64 < (bottom + TWO63) % TWO64)
  }

  /** Its compare-and-swap: `top_` has not come round to the same word. */
  predicate CasAgrees(tp: int, top: int) {
    top == tp || (top - tp) % TWO64 != 0
  }

  predicate Agrees(s: State, l: Label) {
    match l
    case Own => s.owner.PopTop? ==> PopAgrees(s.top, s.bottom)
    case Go(t) => ThiefAgrees(s, s.Thief(t))
    case _ => true
  }

  predicate ThiefAgrees(s: State, th: Thief) {
    match th
    case StealBottom(tp) => LookAgrees(tp, s.bottom)
    case StealCas(tp, _) => CasAgrees(tp, s.top)
    case _ => true
  }

  lemma PushSimulated(s: State, k: nat)
    requires Inv(s) && s.n == Pow2(k) && s.n < TWO63 && Pushing(s.owner)
    ensures var (s', e) := OwnerStep(Exact, s);
            OwnerStep(Word, Image(s)) == (Image(s'), e)
  {
    WrapOne(s.bottom);
    WrapDifference(s.bottom, s.top);
    Small(s.bottom - s.top);
    WordIndex(s.bottom, s.n, k);
  }

  /** Storing after each addition or after the last one is the same. */
  lemma WrapOne(a: int)
    ensures W(W(a) + 1) == W(a + 1) && W(W(a) - 1) == W(a - 1)
  {
  }

  lemma WrapDifference(a: int, b: int)
    ensures W(W(a) - W(b)) == W(a - b)
  {
  }

  lemma SameWord(a: int, b: int)
    ensures W(a) == W(b) <==> (a - b) % TWO64 == 0
    ensures a <= b < a + TWO64 ==> (W(a) == W(b) <==> a == b)
  {
    if a < b < a + TWO64 {
      ModDistinct(a, b, TWO64);
    }
  }

  /** `pop` follows the integers, unless it stands at its comparison; then exactly where that
      agrees. */
  lemma PopSimulated(s: State, k: nat)
    requires Inv(s) && s.n == Pow2(k) && s.n < TWO63 && !Pushing(s.owner)
    ensures var (s', e) := OwnerStep(Exact, s);
            OwnerStep(Word, Image(s)) == (Image(s'), e) <==> Agrees(s, Own)
  {
    match s.owner
    case PopTop(bt) => CompareSimulated(s);
    case PopSlot(bt, tp) => LoadSimulated(s, k);
    case PopCas(bt, tp, h) =>
      SameWord(tp, s.top);
      WrapOne(tp);
    case PopRestore(bt, h, won) => WrapOne(bt);
    case _ =>
  }

  lemma CompareSimulated(s: State)
    requires Inv(s) && s.n < TWO63 && s.owner.PopTop?
    ensures var (s', e) := OwnerStep(Exact, s);
            OwnerStep(Word, Image(s)) == (Image(s'), e) <==> PopAgrees(s.top, s.bottom)
  {
    PopBranchExact(s);
  }

  lemma LoadSimulated(s: State, k: nat)
    requires Inv(s) && s.n == Pow2(k) && s.n < TWO63 && s.owner.PopSlot?
    ensures var (s', e) := OwnerStep(Exact, s);
            OwnerStep(Word, Image(s)) == (Image(s'), e)
  {
    SameWord(s.owner.tp, s.owner.bt);
    WordIndex(s.owner.bt, s.n, k);
  }

  lemma ThiefSimulated(s: State, k: nat, t: Tid)
    requires Inv(s) && s.n == Pow2(k) && s.n < TWO63
    ensures var (s', e) := ThiefStep(Exact, s, t);
            ThiefStep(Word, Image(s), t) == (Image(s'), e) <==> Agrees(s, Go(t))
  {
    var s' := ThiefStep(Exact, s, t).0;
    assert Image(s).Thief(t) == WordThief(s.Thief(t));
    if t in s.thieves && !s.thieves[t].Away? {
      var tp := s.thieves[t].tp;
      assert ThiefInv(s, s.thieves[t]);
      WordThievesUpdate(s.thieves, t, s'.thieves[t]);
      WordIndex(tp, s.n, k);
      SameWord(s.top, tp);
      WrapOne(tp);
      if s.thieves[t].StealBottom? {
        StealBranchExact(s, t);
      }
    }
  }

  /** Each machine step takes the same branch, gives the same answer and leaves the image of the
      integer state exactly where its comparison agrees, for counters of any size: also when
      `pop` lowers `bottom_` from zero to all ones, and when the counters wrap. */
  lemma StepSimulated(s: State, k: nat, l: Label)
    requires Inv(s) && s.n == Pow2(k) && s.n < TWO63
    ensures var (s', e) := Step(Exact, s, l);
            Step(Word, Image(s), l) == (Image(s'), e) <==> Agrees(s, l)
  {
    match l
    case Own =>
      if Pushing(s.owner) {
        PushSimulated(s, k);
      } else {
        PopSimulated(s, k);
      }
    case Go(t) => ThiefSimulated(s, k, t);
    case Steal(t) =>
      assert Image(s).Thief(t) == WordThief(s.Thief(t));
      WordThievesUpdate(s.thieves, t, StealBottom(s.top));
    case _ => WrapOne(s.bottom);
  }

  /** Every comparison of the run agrees. */
  predicate AgreeingRun(n: nat, ls: seq<Label>)
    requires n > 0
  {
    if ls == [] then true
    else
      AgreeingRun(n, ls[..|ls| - 1]) && Agrees(Exec(Exact, Init(n), ls[..|ls| - 1]).0, ls[|ls| - 1])
  }

  /** The machine has been in step with the integers all the time. */
  ghost predicate InStep(n: nat, ls: seq<Label>)
    requires n > 0
  {
    forall i :: 0 <= i <= |ls| ==> Follows(n, ls[..i])
  }

  ghost predicate Follows(n: nat, ls: seq<Label>)
    requires n > 0
  {
    var (s, es) := Exec(Exact, Init(n), ls);
    Exec(Word, Init(n), ls) == (Image(s), es)
  }

  /** A run on words is in step with the integers, in all states and answers, exactly if all its
      comparisons agree. */
  lemma {:induction false} RunSimulated(n: nat, k: nat, ls: seq<Label>)
    requires n == Pow2(k) && n < TWO63
    ensures InStep(n, ls) <==> AgreeingRun(n, ls)
  {
    if ls == [] {
      assert Image(Init(n)) == Init(n);
      assert ls[..0] == ls;
    } else {
      var ls0, l := ls[..|ls| - 1], ls[|ls| - 1];
      RunSimulated(n, k, ls0);
      InStepSnoc(n, ls);
      ExecKeepsInv(n, ls0);
      if Follows(n, ls0) {
        FollowsOn(n, k, ls0, l);
        assert ls == ls0 + [l];
      }
    }
  }

  lemma InStepSnoc(n: nat, ls: seq<Label>)
    requires n > 0 && ls != []
    ensures InStep(n, ls) <==> InStep(n, ls[..|ls| - 1]) && Follows(n, ls)
    ensures InStep(n, ls[..|ls| - 1]) ==> Follows(n, ls[..|ls| - 1])
  {
    var ls0 := ls[..|ls| - 1];
    assert ls[..|ls|] == ls && ls0[..|ls0|] == ls0;
    forall i | 0 <= i <= |ls0| ensures ls0[..i] == ls[..i] {
    }
  }

  lemma FollowsOn(n: nat, k: nat, ls: seq<Label>, l: Label)
    requires n == Pow2(k) && n < TWO63 && Follows(n, ls)
    ensures Follows(n, ls + [l]) <==> Agrees(Exec(Exact, Init(n), ls).0, l)
  {
    ExecKeepsInv(n, ls);
    ExecSnoc(Exact, Init(n), ls, l);
    ExecSnoc(Word, Init(n), ls, l);
    var (s, es) := Exec(Exact, Init(n), ls);
    StepSimulated(s, k, l);
    var e, e' := Step(Exact, s, l).1, Step(Word, Image(s), l).1;
    assert es + [e] == es + [e'] ==> (es + [e])[|es|] == (es + [e'])[|es|];
  }

  lemma {:induction false} BottomBelowSteps(n: nat, ls: seq<Label>)
    requires n > 0
    ensures Exec(Exact, Init(n), ls).0.bottom <= |ls|
  {
    if ls != [] {
      var ls0 := ls[..|ls| - 1];
      BottomBelowSteps(n, ls0);
      ExecKeepsInv(n, ls0);
    }
  }

  /** Short runs agree: fewer than 2^63 - 1 accesses by any number of threads. */
  lemma {:induction false} ShortRunsAgree(n: nat, ls: seq<Label>)
    requires 0 < n < TWO63 && |ls| < TWO63 - 1
    ensures AgreeingRun(n, ls)
  {
    if ls != [] {
      var ls0, l := ls[..|ls| - 1], ls[|ls| - 1];
      ShortRunsAgree(n, ls0);
      ExecKeepsInv(n, ls0);
      BottomBelowSteps(n, ls0);
      SmallAgrees(Exec(Exact, Init(n), ls0).0, l);
    }
  }

  lemma SmallAgrees(s: State, l: Label)
    requires Inv(s) && s.bottom < TWO63 - 1
    ensures Agrees(s, l)
  {
    if l.Go? && l.t in s.thieves {
      assert ThiefInv(s, s.thieves[l.t]);
    }
  }

  /** As long as all comparisons agree, the machine's own answers are, reordered as real time
      allows, answers of the strict sequential deque, and its memory is the image of a deque
      that holds exactly what was pushed and not returned. */
  lemma MachineLinearizable(n: nat, k: nat, ls: seq<Label>)
    requires n == Pow2(k) && n < TWO63 && AgreeingRun(n, ls)
    ensures var (s, es) := Exec(Exact, Init(n), ls);
            && Exec(Word, Init(n), ls) == (Image(s), es) && Inv(s)
            && |es| == |ls| && PermittedRun(n, es)
            && StrictlyOrdered(n, es)
            && forall h :: h != NULL ==> Pushed(es)[h] == Returned(es)[h] + multiset(Contents(s))[h]
  {
    AgreeingFollows(n, k, ls);
    Linearizable(n, ls);
    StrictlyLinearizable(n, ls);
    var (s, es) := Exec(Exact, Init(n), ls);
    forall h | h != NULL ensures Pushed(es)[h] == Returned(es)[h] + multiset(Contents(s))[h] {
      ExactlyOnce(n, ls, h);
    }
  }

  lemma AgreeingFollows(n: nat, k: nat, ls: seq<Label>)
    requires n == Pow2(k) && n < TWO63 && AgreeingRun(n, ls)
    ensures Follows(n, ls)
  {
    RunSimulated(n, k, ls);
    assert Follows(n, ls[..|ls|]) && ls[..|ls|] == ls;
  }

  /** `pop` decides between "empty" and "has a task" as the integers do exactly when no odd
      multiple of 2^63 separates `top_` from the lowered `bottom_`: beyond it a full deque
      reads as empty. */
  lemma PopBranchExact(s: State)
    requires Inv(s) && s.owner.PopTop? && s.n < TWO63
    ensures OwnerStep(Word, Image(s)).0.owner.PopSlot? == OwnerStep(Exact, s).0.owner.PopSlot?
       <==> PopAgrees(s.top, s.bottom)
  {
    SignedCompareExact(s.top, s.bottom);
  }

  /** The same for `steal`, however long ago it has loaded `top_`. */
  lemma StealBranchExact(s: State, t: Tid)
    requires Inv(s) && s.Thief(t).StealBottom?
    ensures ThiefStep(Word, Image(s), t).1.StealEmpty? == ThiefStep(Exact, s, t).1.StealEmpty?
       <==> LookAgrees(s.Thief(t).tp, s.bottom)
  {
    var tp, b := s.Thief(t).tp, s.bottom;
    assert ThiefInv(s, s.thieves[t]);
    assert Image(s).Thief(t) == WordThief(s.Thief(t));
    SignedIsShifted(tp);
    SignedIsShifted(b);
    var qt, rt, qb, rb := (tp + TWO63) / TWO64, (tp + TWO63) % TWO64, (b + TWO63) / TWO64, (b + TWO63) % TWO64;
    assert tp + TWO63 == qt * TWO64 + rt && b + TWO63 == qb * TWO64 + rb;
  }
}
