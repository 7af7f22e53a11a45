/** From offer to delivery: what the mail queue makes of the messages its producers offer, over
    every run, and what an operation does that nobody interrupts. */
module MailOffers {
  import opened Words
  import opened MailQueue

  /** The message producer `t` is offering and has not claimed a position for yet. */
  function Unclaimed(s: State, t: Tid): seq<Message> {
    var pr := s.Producer(t);
    if pr.LoadSequence? || pr.Claim? || pr.LoadWrite? then [pr.m] else []
  }

  predicate Begins(s: State, l: Label, t: Tid) {
    l.Enqueue? && l.t == t && s.Producer(t).Outside?
  }

  predicate Refuses(e: Event, t: Tid) {
    e.Rejected? && e.t == t
  }

  function OfferStep(s: State, l: Label, t: Tid, kept: seq<Message>): seq<Message>
    requires Shaped(s)
  {
    if Begins(s, l, t) then kept + [l.m]
    else if Refuses(Step(Exact, s, l).1, t) && kept != [] then kept[..|kept| - 1]
    else kept
  }

  /** The messages that producer `t` has offered and that were not refused, in its order. */
  function Offered(size: nat, ls: seq<Label>, t: Tid): seq<Message>
    requires size > 0
  {
    if ls == [] then []
    else
      var ls0 := ls[..|ls| - 1];
      OfferStep(Exec(Exact, Init(size), ls0).0, ls[|ls| - 1], t, Offered(size, ls0, t))
  }

  lemma OfferedSnoc(size: nat, ls: seq<Label>, l: Label, t: Tid)
    requires size > 0
    ensures Offered(size, ls + [l], t) == OfferStep(Exec(Exact, Init(size), ls).0, l, t, Offered(size, ls, t))
  {
    assert (ls + [l])[..|ls|] == ls;
  }

  predicate Claims(s: State, l: Label) {
    l.Go? && s.Producer(l.t).Claim? && s.Producer(l.t).w == s.write && !l.spurious
  }

  lemma ClaimMoves(s: State, l: Label, t: Tid)
    requires Shaped(s) && Claims(s, l)
    ensures var (s', e) := Step(Exact, s, l);
            e == Tau && ClaimsOf(s'.claims, t) + Unclaimed(s', t) == ClaimsOf(s.claims, t) + Unclaimed(s, t)
  {
    var s' := Step(Exact, s, l).0;
    ClaimsOfSnoc(s.claims, Claimed(l.t, s.Producer(l.t).m), t);
    if l.t != t {
      assert s'.Producer(t) == s.Producer(t);
    }
  }

  lemma OtherMoves(s: State, l: Label, t: Tid)
    requires Shaped(s) && !Claims(s, l)
    ensures var (s', e) := Step(Exact, s, l);
            && s'.claims == s.claims
            && (if Begins(s, l, t) then Unclaimed(s, t) == [] && Unclaimed(s', t) == [l.m]
                else if Refuses(e, t) then |Unclaimed(s, t)| == 1 && Unclaimed(s', t) == []
                else Unclaimed(s', t) == Unclaimed(s, t))
  {
    if (l.Go? || l.Enqueue?) && l.t != t {
      assert Step(Exact, s, l).0.Producer(t) == s.Producer(t);
    }
  }

  /** Over every run the claims of each producer are the messages it has offered, in its order,
      without those refused and without one that is still being offered. */
  lemma {:induction false} ClaimsAreOffers(size: nat, ls: seq<Label>, t: Tid)
    requires size > 0
    ensures var s := Exec(Exact, Init(size), ls).0;
            Offered(size, ls, t) == ClaimsOf(s.claims, t) + Unclaimed(s, t)
  {
    if ls != [] {
      var ls0, l := ls[..|ls| - 1], ls[|ls| - 1];
      ClaimsAreOffers(size, ls0, t);
      var s := Exec(Exact, Init(size), ls0).0;
      if Claims(s, l) {
        ClaimMoves(s, l, t);
      } else {
        OtherMoves(s, l, t);
      }
    }
  }

  /** From offer to delivery: with two slots or more, what every run delivers is, for each
      producer, a prefix of what it offered and was not refused, in its order. */
  lemma OfferedInOrder(size: nat, ls: seq<Label>, t: Tid)
    requires size >= 2
    ensures var (s, es) := Exec(Exact, Init(size), ls);
            && InClaimOrder(s) && Delivers(es) == s.taken
            && ClaimsOf(s.claims[..|s.taken|], t) <= Offered(size, ls, t)
  {
    DeliveredInOrder(size, ls, t);
    ClaimsAreOffers(size, ls, t);
    var s := Exec(Exact, Init(size), ls).0;
    ClaimsOfPrefix(s.claims, |s.taken|, t);
  }

  // ------------------------------------------------------------------ operations nobody interrupts

  /** `r` holds of whatever silent steps of producer `t`, offering `m`, make of its states. */
  ghost predicate ProducerClosed(r: State -> bool, t: Tid, m: Message) {
    && (forall s {:trigger Step(Exact, s, Enqueue(t, m))} :: r(s) && Shaped(s) ==> r(Step(Exact, s, Enqueue(t, m)).0))
    && (forall s {:trigger Step(Exact, s, Go(t, false))} ::
          r(s) && Shaped(s) && Step(Exact, s, Go(t, false)).1 == Tau ==> r(Step(Exact, s, Go(t, false)).0))
  }

  /** The others' part of the queue, as a producer leaves it. */
  ghost predicate SameElse(s: State, s': State, t: Tid) {
    && s'.size == s.size && s'.read == s.read && s'.consumer == s.consumer && s'.taken == s.taken
    && forall u :: u != t ==> s'.Producer(u) == s.Producer(u)
  }

  lemma Offer(r: State -> bool, s: State, t: Tid, m: Message) returns (s': State)
    requires ProducerClosed(r, t, m) && r(s) && Inv(s) && s.Producer(t) == Outside
    ensures r(s') && Inv(s') && s'.Producer(t) == LoadSequence(m, s.write) && SameElse(s, s', t)
    ensures s'.claims == s.claims && s'.slots == s.slots && s'.write == s.write
  {
    s' := Step(Exact, s, Enqueue(t, m)).0;
    StepKeepsInv(s, Enqueue(t, m));
  }

  lemma ProducerGo(r: State -> bool, s: State, t: Tid, m: Message) returns (s': State)
    requires ProducerClosed(r, t, m) && r(s) && Inv(s) && Step(Exact, s, Go(t, false)).1 == Tau
    ensures r(s') && Inv(s') && s' == Step(Exact, s, Go(t, false)).0 && SameElse(s, s', t)
  {
    s' := Step(Exact, s, Go(t, false)).0;
    StepKeepsInv(s, Go(t, false));
  }

  /** The slot at the write index is free exactly if the queue is not full. */
  lemma NextSlot(s: State)
    requires Inv(s)
    ensures s.write < Released(s) + s.size ==> At(s, s.write).sequence == s.write
    ensures s.write == Released(s) + s.size ==> At(s, s.write).sequence < s.write
  {
    if s.write < Released(s) + s.size {
      assert SlotInv(s, s.write);
    } else {
      var p := Window(s, s.write);
      assert SlotInv(s, p);
    }
  }

  /** An uninterrupted offer comes to its publication, unless the queue is full. */
  lemma OfferAlone(r: State -> bool, s: State, t: Tid, m: Message) returns (s': State)
    requires ProducerClosed(r, t, m) && r(s) && Inv(s) && s.Producer(t) == Outside && s.write < Released(s) + s.size
    ensures r(s') && Inv(s') && s'.Producer(t) == Publish(m, s.write) && SameElse(s, s', t)
    ensures s'.claims == s.claims + [Claimed(t, m)]
  {
    var w := s.write;
    s' := Offer(r, s, t, m);
    NextSlot(s');
    s' := ProducerGo(r, s', t, m);
    assert s'.Producer(t) == Claim(m, w) && s'.write == w && s'.claims == s.claims;
    s' := ProducerGo(r, s', t, m);
    assert s'.Producer(t) == WriteMessage(m, w) && s'.claims == s.claims + [Claimed(t, m)];
    s' := ProducerGo(r, s', t, m);
  }

  lemma PublishNow(s: State, t: Tid)
    requires Inv(s) && s.Producer(t).Publish?
    ensures var (s', e) := Step(Exact, s, Go(t, false));
            && Inv(s') && e == Accepted(t, s.Producer(t).m) && s'.Producer(t) == Outside && SameElse(s, s', t)
            && s'.claims == s.claims && Published(s', s.Producer(t).w)
  {
    StepKeepsInv(s, Go(t, false));
    assert ProducerInv(s, t, s.producers[t]);
  }

  /** Full and free, both ways: an uninterrupted offer is accepted if and only if fewer than
      `size` positions are claimed and not released, and otherwise refused. */
  lemma EnqueueAlone(r: State -> bool, s: State, t: Tid, m: Message) returns (s': State)
    requires ProducerClosed(r, t, m) && r(s) && Inv(s) && s.Producer(t) == Outside
    ensures r(s') && Inv(s')
    ensures Step(Exact, s', Go(t, false)).1
         == if s.write - Released(s) < s.size then Accepted(t, m) else Rejected(t, m)
  {
    if s.write < Released(s) + s.size {
      s' := OfferAlone(r, s, t, m);
      PublishNow(s', t);
    } else {
      s' := Offer(r, s, t, m);
      NextSlot(s');
    }
  }

  /** `r` holds of whatever the consumer makes of its states, except where it finds nothing. */
  ghost predicate ConsumerClosed(r: State -> bool) {
    && (forall s {:trigger Step(Exact, s, Dequeue)} ::
          r(s) && Shaped(s) && s.consumer.Resting? ==> r(Step(Exact, s, Dequeue).0))
    && (forall s {:trigger Step(Exact, s, Consume)} ::
          r(s) && Shaped(s) && !s.consumer.Resting? && !Step(Exact, s, Consume).1.NoMessage? ==>
            r(Step(Exact, s, Consume).0))
  }

  lemma Look(r: State -> bool, s: State) returns (s': State)
    requires ConsumerClosed(r) && r(s) && Inv(s) && s.consumer == Resting
    ensures r(s') && Inv(s') && s' == s.(consumer := CheckSequence(s.read))
  {
    s' := Step(Exact, s, Dequeue).0;
    StepKeepsInv(s, Dequeue);
  }

  lemma ConsumerGo(r: State -> bool, s: State) returns (s': State)
    requires ConsumerClosed(r) && r(s) && Inv(s) && !s.consumer.Resting? && !Step(Exact, s, Consume).1.NoMessage?
    ensures r(s') && Inv(s') && s' == Step(Exact, s, Consume).0
    ensures s'.producers == s.producers && s'.claims == s.claims && s'.size == s.size && s'.write == s.write
  {
    s' := Step(Exact, s, Consume).0;
    StepKeepsInv(s, Consume);
  }

  /** An uninterrupted `try_dequeue` takes the next message in claim order if it is published. */
  lemma TakeAlone(r: State -> bool, s: State) returns (s': State)
    requires ConsumerClosed(r) && r(s) && Inv(s) && s.consumer == Resting && Published(s, s.read)
    ensures r(s') && Inv(s') && s'.consumer == Resting && s'.size == s.size
    ensures s'.claims == s.claims && s'.producers == s.producers && s'.write == s.write && s'.read == s.read + 1
    ensures s'.taken == s.taken + [s.claims[|s.taken|].m]
  {
    assert SlotInv(s, s.read);
    s' := Look(r, s);
    s' := ConsumerGo(r, s');
    assert s'.consumer == ReadMessage(s.read) && s'.read == s.read && s'.taken == s.taken;
    s' := ConsumerGo(r, s');
    assert s'.consumer.ClearMessage? && s'.read == s.read && s'.taken == s.taken;
    s' := ConsumerGo(r, s');
    assert s'.consumer.StoreRead? && s'.read == s.read && s'.taken == s.taken;
    s' := ConsumerGo(r, s');
    assert s'.consumer.Release? && s'.read == s.read + 1 && s'.taken == s.taken;
    s' := ConsumerGo(r, s');
  }

  /** And it finds nothing if it is not. */
  lemma FindNothing(r: State -> bool, s: State) returns (s': State)
    requires ConsumerClosed(r) && r(s) && Inv(s) && s.consumer == Resting && !Published(s, s.read)
    ensures r(s') && Inv(s') && s' == s.(consumer := CheckSequence(s.read))
    ensures Step(Exact, s', Consume) == (s, NoMessage)
  {
    s' := Look(r, s);
    if Available(Exact, s', s.read) {
      AvailableMeansPublished(s');
    }
    assert s'.(consumer := Resting) == s;
  }
}
