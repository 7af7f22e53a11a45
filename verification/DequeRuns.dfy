/** Pieces from which runs of the deque are put together: whole operations that nobody
    interrupts, on integers or on words. */
module DequeRuns {
  import opened Handles
  import opened Words
  import opened Deque

  /** What is known of a run: its state, the handles pushed and returned, its last answer. */
  datatype Track = Track(s: State, pushed: multiset<Handle>, returned: multiset<Handle>, last: Event)

  function Start(n: nat): Track {
    Track(Init(n), multiset{}, multiset{}, Tau)
  }

  /** What an answer adds to the track. */
  function Answer(k: Track, s: State, e: Event): Track {
    Track(s, k.pushed + In(e), k.returned + Out(e), e)
  }

  function Advance(a: Arith, k: Track, l: Label): Track
    requires Shaped(k.s)
  {
    Answer(k, Step(a, k.s, l).0, Step(a, k.s, l).1)
  }

  /** `r` holds of what runs of `n` slots can reach. */
  ghost predicate Closed(a: Arith, n: nat, r: Track -> bool) {
    && n > 0 && r(Start(n))
    && forall k, l {:trigger Advance(a, k, l)} :: r(k) && Shaped(k.s) ==> r(Advance(a, k, l))
  }

  /** The track of a run. */
  function Tracked(a: Arith, n: nat, ls: seq<Label>): (k: Track)
    requires n > 0
    ensures Shaped(k.s)
  {
    var (s, es) := Exec(a, Init(n), ls);
    Track(s, Pushed(es), Returned(es), if es == [] then Tau else es[|es| - 1])
  }

  lemma CountSnoc(es: seq<Event>, e: Event)
    ensures Pushed(es + [e]) == Pushed(es) + In(e) && Returned(es + [e]) == Returned(es) + Out(e)
  {
    assert (es + [e])[..|es|] == es;
  }

  lemma TrackedSnoc(a: Arith, n: nat, ls: seq<Label>, l: Label)
    requires n > 0
    ensures Tracked(a, n, ls + [l]) == Advance(a, Tracked(a, n, ls), l)
  {
    ExecSnoc(a, Init(n), ls, l);
    var (s, es) := Exec(a, Init(n), ls);
    CountSnoc(es, Step(a, s, l).1);
  }

  /** Whatever is closed under steps holds of a run, so a closed search ends in one. */
  lemma RunsAreClosed(a: Arith, n: nat)
    requires n > 0
    ensures Closed(a, n, k => exists ls :: Tracked(a, n, ls) == k)
  {
    assert Tracked(a, n, []) == Start(n);
    forall k, l | (exists ls :: Tracked(a, n, ls) == k) && Shaped(k.s)
      ensures exists ls :: Tracked(a, n, ls) == Advance(a, k, l)
    {
      var ls :| Tracked(a, n, ls) == k;
      TrackedSnoc(a, n, ls, l);
    }
  }

  /** Such a run itself. */
  lemma RunOf(a: Arith, n: nat, k: Track) returns (ls: seq<Label>)
    requires n > 0 && exists ls :: Tracked(a, n, ls) == k
    ensures var (s, es) := Exec(a, Init(n), ls);
            && s == k.s && Pushed(es) == k.pushed && Returned(es) == k.returned
            && (k.last != Tau ==> |es| > 0 && es[|es| - 1] == k.last)
  {
    ls :| Tracked(a, n, ls) == k;
  }

  lemma Silent(a: Arith, n: nat, r: Track -> bool, k: Track, l: Label, s: State) returns (k': Track)
    requires Closed(a, n, r) && r(k) && Shaped(k.s) && Step(a, k.s, l) == (s, Tau)
    ensures r(k') && k' == k.(s := s, last := Tau)
  {
    k' := Advance(a, k, l);
  }

  lemma Answers(a: Arith, n: nat, r: Track -> bool, k: Track, l: Label, s: State, e: Event) returns (k': Track)
    requires Closed(a, n, r) && r(k) && Shaped(k.s) && Step(a, k.s, l) == (s, e)
    ensures r(k') && k' == Answer(k, s, e)
  {
    k' := Advance(a, k, l);
  }

  /** A push into a deque with room. */
  lemma PushAlone(a: Arith, n: nat, r: Track -> bool, k: Track, h: Handle) returns (k': Track)
    requires Closed(a, n, r) && r(k) && Shaped(k.s)
    requires k.s.owner.Ready? && a.Norm(k.s.bottom - k.s.top) < k.s.n
    ensures r(k')
    ensures k' == Track(k.s.(slots := k.s.slots[a.Index(k.s.bottom, k.s.n) := h], bottom := a.Norm(k.s.bottom + 1)),
                        k.pushed + multiset{h}, k.returned, PushDone(h, true))
  {
    var s, bt := k.s, k.s.bottom;
    var filled := s.(slots := s.slots[a.Index(bt, s.n) := h], owner := PushBottom(h, bt));
    k' := Silent(a, n, r, k, Push(h), s.(owner := PushTop(h, bt)));
    k' := Silent(a, n, r, k', Own, s.(owner := PushSlot(h, bt)));
    k' := Silent(a, n, r, k', Own, filled);
    k' := Answers(a, n, r, k', Own, filled.(bottom := a.Norm(bt + 1), owner := Ready), PushDone(h, true));
  }

  /** A steal from a deque that the thief sees to be non-empty. */
  lemma StealAlone(a: Arith, n: nat, r: Track -> bool, k: Track, t: Tid) returns (k': Track)
    requires Closed(a, n, r) && r(k) && Shaped(k.s)
    requires k.s.Thief(t).Away? && a.Signed(k.s.top) < a.Signed(k.s.bottom)
    ensures r(k')
    ensures var h := k.s.slots[a.Index(k.s.top, k.s.n)];
            k' == Track(k.s.(top := a.Norm(k.s.top + 1), thieves := k.s.thieves[t := Away]),
                        k.pushed, k.returned + multiset{h}, Stolen(t, h))
  {
    var s, tp := k.s, k.s.top;
    var h := s.slots[a.Index(tp, s.n)];
    k' := Silent(a, n, r, k, Steal(t), s.(thieves := s.thieves[t := StealBottom(tp)]));
    assert s.thieves[t := StealBottom(tp)][t := StealSlot(tp)] == s.thieves[t := StealSlot(tp)];
    k' := Silent(a, n, r, k', Go(t), s.(thieves := s.thieves[t := StealSlot(tp)]));
    assert s.thieves[t := StealSlot(tp)][t := StealCas(tp, h)] == s.thieves[t := StealCas(tp, h)];
    k' := Silent(a, n, r, k', Go(t), s.(thieves := s.thieves[t := StealCas(tp, h)]));
    assert s.thieves[t := StealCas(tp, h)][t := Away] == s.thieves[t := Away];
    k' := Answers(a, n, r, k', Go(t), s.(top := a.Norm(tp + 1), thieves := s.thieves[t := Away]), Stolen(t, h));
  }

  /** A pop up to its load of `top_`. */
  lemma BeginPop(a: Arith, n: nat, r: Track -> bool, k: Track) returns (k': Track)
    requires Closed(a, n, r) && r(k) && Shaped(k.s) && k.s.owner.Ready?
    ensures var bt := a.Norm(k.s.bottom - 1);
            r(k') && k' == k.(s := k.s.(bottom := bt, owner := PopTop(bt)), last := Tau)
  {
    var s, bt := k.s, a.Norm(k.s.bottom - 1);
    k' := Silent(a, n, r, k, Pop, s.(owner := PopBottom(bt)));
    k' := Silent(a, n, r, k', Own, s.(bottom := bt, owner := PopTop(bt)));
  }

  /** A pop that finds nothing, as it compares the counters. */
  lemma PopNone(a: Arith, n: nat, r: Track -> bool, k: Track) returns (k': Track)
    requires Closed(a, n, r) && r(k) && Shaped(k.s)
    requires k.s.owner.Ready? && a.Signed(k.s.top) > a.Signed(a.Norm(k.s.bottom - 1))
    ensures r(k') && k' == k.(s := k.s.(bottom := a.Norm(a.Norm(k.s.bottom - 1) + 1)), last := PopDone(NULL))
  {
    var s, bt := k.s, a.Norm(k.s.bottom - 1);
    k' := BeginPop(a, n, r, k);
    k' := Silent(a, n, r, k', Own, s.(bottom := bt, owner := PopRestore(bt, NULL, false)));
    k' := Answers(a, n, r, k', Own, s.(bottom := a.Norm(bt + 1)), PopDone(NULL));
  }

  /** A pop that finds more than one task. */
  lemma PopOne(a: Arith, n: nat, r: Track -> bool, k: Track) returns (k': Track)
    requires Closed(a, n, r) && r(k) && Shaped(k.s) && k.s.owner.Ready?
    requires var bt := a.Norm(k.s.bottom - 1); a.Signed(k.s.top) <= a.Signed(bt) && k.s.top != bt
    ensures var bt := a.Norm(k.s.bottom - 1);
            r(k') && k' == Answer(k, k.s.(bottom := bt), PopDone(k.s.slots[a.Index(bt, k.s.n)]))
  {
    var s, bt := k.s, a.Norm(k.s.bottom - 1);
    k' := BeginPop(a, n, r, k);
    k' := Silent(a, n, r, k', Own, s.(bottom := bt, owner := PopSlot(bt, s.top)));
    k' := Answers(a, n, r, k', Own, s.(bottom := bt), PopDone(s.slots[a.Index(bt, s.n)]));
  }

  /** A pop that finds one task and wins it. */
  lemma PopLast(a: Arith, n: nat, r: Track -> bool, k: Track) returns (k': Track)
    requires Closed(a, n, r) && r(k) && Shaped(k.s)
    requires k.s.owner.Ready? && k.s.top == a.Norm(k.s.bottom - 1)
    ensures var end := a.Norm(k.s.top + 1);
            r(k') && k' == Answer(k, k.s.(top := end, bottom := end), PopDone(k.s.slots[a.Index(k.s.top, k.s.n)]))
  {
    var s, bt := k.s, k.s.top;
    var h := s.slots[a.Index(bt, s.n)];
    k' := BeginPop(a, n, r, k);
    k' := Silent(a, n, r, k', Own, s.(bottom := bt, owner := PopSlot(bt, bt)));
    k' := Silent(a, n, r, k', Own, s.(bottom := bt, owner := PopCas(bt, bt, h)));
    k' := Silent(a, n, r, k', Own, s.(top := a.Norm(bt + 1), bottom := bt, owner := PopRestore(bt, h, true)));
    k' := Answers(a, n, r, k', Own, s.(top := a.Norm(bt + 1), bottom := a.Norm(bt + 1)), PopDone(h));
  }
}
