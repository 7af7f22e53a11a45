/** The mail queue on 64-bit words refines the mail queue on integers. */
module MailQueueMachine {
  import opened Words
  import opened MailQueue

  function WordSlot(slot: Slot): Slot {
    Slot(W(slot.sequence), slot.message)
  }

  function WordSlots(slots: seq<Slot>): (r: seq<Slot>)
    ensures |r| == |slots|
  {
    seq(|slots|, i requires 0 <= i < |slots| => WordSlot(slots[i]))
  }

  function WordProducer(p: Producer): Producer {
    match p
    case LoadSequence(m, w) => LoadSequence(m, W(w))
    case Claim(m, w) => Claim(m, W(w))
    case WriteMessage(m, w) => WriteMessage(m, W(w))
    case Publish(m, w) => Publish(m, W(w))
    case _ => p
  }

  function WordProducers(ps: map<Tid, Producer>): map<Tid, Producer> {
    map t | t in ps :: WordProducer(ps[t])
  }

  function WordConsumer(c: Consumer): Consumer {
    match c
    case Resting => Resting
    case CheckSequence(r) => CheckSequence(W(r))
    case ReadMessage(r) => ReadMessage(W(r))
    case ClearMessage(r, m) => ClearMessage(W(r), m)
    case StoreRead(r, m) => StoreRead(W(r), m)
    case Release(r, m) => Release(W(r), m)
  }

  /** The memory image of an integer state. */
  function Image(s: State): State {
    State(s.size, WordSlots(s.slots), W(s.write), W(s.read), WordProducers(s.producers),
          WordConsumer(s.consumer), s.claims, s.taken)
  }

  predicate Bounded(s: State) {
    s.write + s.size < TWO63
  }

  lemma WordProducersUpdate(ps: map<Tid, Producer>, t: Tid, p: Producer)
    ensures WordProducers(ps[t := p]) == WordProducers(ps)[t := WordProducer(p)]
  {
  }

  lemma WordSlotsUpdate(slots: seq<Slot>, i: int, slot: Slot)
    requires 0 <= i < |slots|
    ensures WordSlots(slots[i := slot]) == WordSlots(slots)[i := WordSlot(slot)]
  {
  }

  /** Sequence numbers stay within one ring of the write index. */
  lemma SequenceInRange(s: State, w: int)
    requires Inv(s)
    ensures 0 <= At(s, w).sequence <= s.write + s.size
  {
    var p := Window(s, w);
    assert SlotInv(s, p);
  }

  /** The slot that a word index selects. */
  lemma SlotImage(s: State, k: nat, w: int)
    requires Inv(s) && s.size == Pow2(k) && Bounded(s) && 0 <= w <= s.write
    ensures Arith.Word.Index(W(w), s.size) == w % s.size
    ensures WordSlots(s.slots)[w % s.size] == WordSlot(At(s, w))
    ensures Arith.Word.Signed(W(At(s, w).sequence)) == At(s, w).sequence
    ensures W(w) == w && W(w + 1) == w + 1 && Arith.Word.Signed(W(w)) == w && Arith.Word.Signed(w + 1) == w + 1
    ensures W(w + s.size) == w + s.size || w == s.write
  {
    Small(w);
    Small(w + 1);
    SequenceInRange(s, w);
    Small(At(s, w).sequence);
    assert Arith.Word.Index(W(w), s.size) == w % s.size by {
      WordIndex(w, s.size, k);
    }
  }

  lemma ProducerSimulated(s: State, k: nat, t: Tid, spurious: bool)
    requires Inv(s) && s.size == Pow2(k) && Bounded(s)
    ensures var (s', e) := ProducerStep(Exact, s, t, spurious);
            ProducerStep(Word, Image(s), t, spurious) == (Image(s'), e)
  {
    assert Image(s).Producer(t) == WordProducer(s.Producer(t));
    if s.Producer(t).WriteMessage? || s.Producer(t).Publish? {
      FillSimulated(s, k, t, spurious);
    } else if t in s.producers && !s.producers[t].Outside? {
      assert ProducerInv(s, t, s.producers[t]);
      WordProducersUpdate(s.producers, t, ProducerStep(Exact, s, t, spurious).0.producers[t]);
      if !s.producers[t].LoadWrite? {
        SlotImage(s, k, s.producers[t].w);
        Small(s.write);
      }
    }
  }

  lemma FillSimulated(s: State, k: nat, t: Tid, spurious: bool)
    requires Inv(s) && s.size == Pow2(k) && Bounded(s) && (s.Producer(t).WriteMessage? || s.Producer(t).Publish?)
    ensures var (s', e) := ProducerStep(Exact, s, t, spurious);
            ProducerStep(Word, Image(s), t, spurious) == (Image(s'), e)
  {
    var s', w := ProducerStep(Exact, s, t, spurious).0, s.Producer(t).w;
    assert Image(s).Producer(t) == WordProducer(s.Producer(t));
    assert ProducerInv(s, t, s.producers[t]);
    WordProducersUpdate(s.producers, t, s'.producers[t]);
    SlotImage(s, k, w);
    WordSlotsUpdate(s.slots, w % s.size, At(s', w));
  }

  lemma ConsumerSimulated(s: State, k: nat)
    requires Inv(s) && s.size == Pow2(k) && Bounded(s)
    ensures var (s', e) := ConsumerStep(Exact, s);
            ConsumerStep(Word, Image(s)) == (Image(s'), e)
  {
    var s' := ConsumerStep(Exact, s).0;
    if !s.consumer.Resting? {
      var r := s.consumer.r;
      SlotImage(s, k, r);
      WordSlotsUpdate(s.slots, r % s.size, At(s', r));
    }
  }

  lemma StepSimulated(s: State, k: nat, l: Label)
    requires Inv(s) && s.size == Pow2(k) && Bounded(s)
    ensures var (s', e) := Step(Exact, s, l);
            Step(Word, Image(s), l) == (Image(s'), e)
  {
    match l
    case Enqueue(t, m) =>
      assert Image(s).Producer(t) == WordProducer(s.Producer(t));
      WordProducersUpdate(s.producers, t, LoadSequence(m, s.write));
    case Go(t, spurious) => ProducerSimulated(s, k, t, spurious);
    case Consume => ConsumerSimulated(s, k);
    case _ =>
  }

  lemma {:induction false} WriteBelowSteps(size: nat, ls: seq<Label>)
    requires size > 0
    ensures Exec(Exact, Init(size), ls).0.write <= |ls|
  {
    if ls != [] {
      WriteBelowSteps(size, ls[..|ls| - 1]);
    }
  }

  /** Every run in which steps and capacity together stay below 2^63 takes the same
      branches and gives the same answers on the machine as on the integers. */
  lemma {:induction false} RunSimulated(size: nat, k: nat, ls: seq<Label>)
    requires 2 <= size == Pow2(k) && |ls| + size < TWO63
    ensures var (s, es) := Exec(Exact, Init(size), ls);
            Exec(Word, Init(size), ls) == (Image(s), es)
  {
    if ls == [] {
      assert WordSlots(Init(size).slots) == Init(size).slots;
    } else {
      var ls0 := ls[..|ls| - 1];
      RunSimulated(size, k, ls0);
      ExecKeepsInv(size, ls0);
      WriteBelowSteps(size, ls0);
      StepSimulated(Exec(Exact, Init(size), ls0).0, k, ls[|ls| - 1]);
    }
  }

  /** What the machine delivers: claimed messages, once each, in claim order, and for each
      producer a prefix of what it was told was accepted. */
  lemma MachineDeliversInOrder(size: nat, k: nat, ls: seq<Label>, t: Tid)
    requires 2 <= size == Pow2(k) && |ls| + size < TWO63
    ensures var (s, es) := Exec(Word, Init(size), ls);
            && InClaimOrder(s) && Delivers(es) == s.taken
            && ClaimsOf(s.claims[..|s.taken|], t) <= Accepts(es, t) + Unfinished(s, t)
  {
    RunSimulated(size, k, ls);
    DeliveredInOrder(size, ls, t);
    WriteBelowSteps(size, ls);
    var s := Exec(Exact, Init(size), ls).0;
    Small(s.write);
    assert Image(s).Producer(t) == WordProducer(s.Producer(t));
  }

  /** The two refusals tell the truth about the moment of their sequence load: a full queue has
      exactly `size` messages claimed and not taken, and a queue without a message has nothing
      published at the position to be taken next. */
  ghost predicate Honest(s: State, e: Event)
    requires Shaped(s)
  {
    && (e.Rejected? ==> |s.claims| - |s.taken| == s.size)
    && (e.NoMessage? ==> !Published(s, |s.taken|))
  }

  lemma StepHonest(s: State, k: nat, l: Label)
    requires Inv(s) && s.size == Pow2(k) && Bounded(s)
    ensures Honest(Image(s), Step(Word, Image(s), l).1)
  {
    StepSimulated(s, k, l);
    var e := Step(Exact, s, l).1;
    if e.Rejected? {
      RejectedOnlyWhenFull(s, l);
    } else if e.NoMessage? {
      NoMessageIsHonest(s, l);
      SlotImage(s, k, s.read);
      SequenceInRange(s, s.read);
      Small(s.write);
      Small(At(s, s.read).sequence);
    }
  }

  /** So does the machine, at every moment of every run below the bound. */
  lemma MachineIsHonest(size: nat, k: nat, ls: seq<Label>, l: Label)
    requires 2 <= size == Pow2(k) && |ls| + size < TWO63
    ensures var s := Exec(Word, Init(size), ls).0;
            Honest(s, Step(Word, s, l).1)
  {
    RunSimulated(size, k, ls);
    ExecKeepsInv(size, ls);
    WriteBelowSteps(size, ls);
    StepHonest(Exec(Exact, Init(size), ls).0, k, l);
  }
}
