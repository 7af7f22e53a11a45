/** The deque on words at the signed limit: runs from the empty deque that reach it, and what
    the operations then answer. */
module DequeBoundary {
  import opened Handles
  import opened Words
  import opened Deque
  import opened DequeMachine
  import opened DequeRuns

  /** The counters come to any value below 2^63, one push and one steal at a time. */
  lemma {:induction false} CountersReach(r: Track -> bool, m: nat) returns (k: Track)
    requires Closed(Word, 2, r) && m < TWO63
    ensures r(k) && Shaped(k.s) && k.s.n == 2
    ensures k.s.top == k.s.bottom == m && k.s.owner.Ready? && k.s.Thief(1).Away?
    ensures k.pushed[9] == k.returned[9] == 0 && 9 !in k.s.slots
    ensures k.pushed == k.returned
  {
    if m == 0 {
      k := Start(2);
    } else {
      k := CountersReach(r, m - 1);
      Small(m - 1);
      Small(m);
      Small(0);
      k := PushAlone(Word, 2, r, k, 1);
      k := StealAlone(Word, 2, r, k, 1);
    }
  }

  /** Tasks missed: with two tasks held across the limit, both `pop` and `steal` answer empty. */
  lemma MissTrack(r: Track -> bool) returns (k: Track, popped: Track, stolen: Track)
    requires Closed(Word, 2, r)
    ensures r(popped) && r(stolen) && popped.last == PopDone(NULL) && stolen.last == StealEmpty(1)
    ensures k.pushed == k.returned + multiset{7, 8}
    ensures popped.pushed == stolen.pushed == k.pushed && popped.returned == stolen.returned == k.returned
  {
    k := CountersReach(r, TWO63 - 1);
    k := PushAlone(Word, 2, r, k, 7);
    k := PushAlone(Word, 2, r, k, 8);
    popped := PopNone(Word, 2, r, k);
    var s := k.s;
    stolen := Silent(Word, 2, r, k, Steal(1), s.(thieves := s.thieves[1 := StealBottom(s.top)]));
    stolen := Answers(Word, 2, r, stolen, Go(1), stolen.s.(thieves := stolen.s.thieves[1 := Away]), StealEmpty(1));
  }

  /** A task doubled: pushed once at the limit, returned by two pops in a row. */
  lemma DoubleTrack(r: Track -> bool) returns (k: Track)
    requires Closed(Word, 2, r)
    ensures r(k) && k.pushed[9] == 1 && k.returned[9] == 2
  {
    k := CountersReach(r, TWO63 - 1);
    k := PushAlone(Word, 2, r, k, 9);
    var i := Arith.Word.Index(TWO63 - 1, 2);
    assert k.s.slots[i] == 9;
    k := PopLast(Word, 2, r, k);
    k := PopOne(Word, 2, r, k);
  }

  /** The bound is needed, part one: a run of the deque on words from its creation that holds
      two tasks and tells its owner that it is empty, and one that tells a thief so. */
  lemma TasksAreMissed() returns (pop: seq<Label>, steal: seq<Label>)
    ensures var es := Exec(Word, Init(2), pop).1;
            && Pushed(es) == Returned(es) + multiset{7, 8} && |es| > 0 && es[|es| - 1] == PopDone(NULL)
    ensures var es := Exec(Word, Init(2), steal).1;
            && Pushed(es) == Returned(es) + multiset{7, 8} && |es| > 0 && es[|es| - 1] == StealEmpty(1)
  {
    RunsAreClosed(Word, 2);
    var k, popped, stolen := MissTrack(k => exists ls :: Tracked(Word, 2, ls) == k);
    pop := RunOf(Word, 2, popped);
    steal := RunOf(Word, 2, stolen);
  }

  /** Part two: a run in which a task pushed once is returned twice. */
  lemma ATaskIsDoubled() returns (ls: seq<Label>)
    ensures var es := Exec(Word, Init(2), ls).1;
            Pushed(es)[9] == 1 && Returned(es)[9] == 2
  {
    RunsAreClosed(Word, 2);
    var k := DoubleTrack(k => exists ls :: Tracked(Word, 2, ls) == k);
    ls := RunOf(Word, 2, k);
  }
}
