/** Runs of the mailbox: what its senders send is what its consumer gets, and a mailbox that
    sleeps takes a message, wakes up, delivers it and goes to sleep again. */
module MailBoxRuns {
  import opened Words
  import Q = MailQueue
  import O = MailOffers
  import opened MailBox

  // ------------------------------------------------------------------ from send to delivery

  /** The step of the queue that a step of the mailbox makes, if any. */
  function InnerStep(s: State, l: Label): seq<Q.Label> {
    match l
    case Send(t, m) => if s.Sender(t).Absent? then [Q.Enqueue(t, m)] else []
    case SendGo(t, spurious) => if s.Sender(t).Absent? then [Q.Go(t, spurious)] else []
    case Resume(_) => []
    case WorkGo(w) =>
      if s.Worker(w) == InBody(Drain) then [if s.q.consumer.Resting? then Q.Dequeue else Q.Consume] else []
  }

  function Inner(size: nat, ls: seq<Label>): seq<Q.Label>
    requires size > 0
  {
    if ls == [] then []
    else Inner(size, ls[..|ls| - 1]) + InnerStep(Exec(Init(size), ls[..|ls| - 1]), ls[|ls| - 1])
  }

  lemma InnerMoves(s: State, l: Label)
    requires Q.Shaped(s.q)
    ensures var inner := InnerStep(s, l);
            Step(s, l).q == if inner == [] then s.q else Q.Step(Exact, s.q, inner[0]).0
    ensures |InnerStep(s, l)| <= 1
  {
  }

  /** The queue inside a mailbox goes through a run of the queue. */
  lemma {:induction false} QueueInside(size: nat, ls: seq<Label>)
    requires size > 0
    ensures Exec(Init(size), ls).q == Q.Exec(Exact, Q.Init(size), Inner(size, ls)).0
  {
    if ls != [] {
      var ls0, l := ls[..|ls| - 1], ls[|ls| - 1];
      QueueInside(size, ls0);
      var s, qs := Exec(Init(size), ls0), Inner(size, ls0);
      InnerMoves(s, l);
      var inner := InnerStep(s, l);
      if inner == [] {
        assert qs + inner == qs;
      } else {
        assert inner == [inner[0]];
        Q.ExecSnoc(Exact, Q.Init(size), qs, inner[0]);
      }
    }
  }

  function SentStep(s: State, l: Label, t: Tid, kept: seq<Q.Message>): seq<Q.Message>
    requires Q.Shaped(s.q)
  {
    match l
    case Send(u, m) => if u == t && s.Sender(t).Absent? && s.q.Producer(t).Outside? then kept + [m] else kept
    case SendGo(u, spurious) =>
      if u == t && s.Sender(t).Absent? && kept != [] && Q.Step(Exact, s.q, Q.Go(t, spurious)).1.Rejected?
      then kept[..|kept| - 1] else kept
    case _ => kept
  }

  /** The messages that sender `t` has sent and that were not dropped, in its order. */
  function Sent(size: nat, ls: seq<Label>, t: Tid): seq<Q.Message>
    requires size > 0
  {
    if ls == [] then []
    else SentStep(Exec(Init(size), ls[..|ls| - 1]), ls[|ls| - 1], t, Sent(size, ls[..|ls| - 1], t))
  }

  lemma OnlyProducersAreRefused(q: Q.State, l: Q.Label)
    requires Q.Shaped(q)
    ensures var e := Q.Step(Exact, q, l).1;
            e.Rejected? ==> l.Go? && e.t == l.t
  {
  }

  lemma SentStepIsOffer(s: State, l: Label, t: Tid, kept: seq<Q.Message>)
    requires Q.Shaped(s.q)
    ensures var inner := InnerStep(s, l);
            SentStep(s, l, t, kept) == if inner == [] then kept else O.OfferStep(s.q, inner[0], t, kept)
  {
    if InnerStep(s, l) != [] {
      OnlyProducersAreRefused(s.q, InnerStep(s, l)[0]);
    }
  }

  lemma {:induction false} SentIsOffered(size: nat, ls: seq<Label>, t: Tid)
    requires size > 0
    ensures Sent(size, ls, t) == O.Offered(size, Inner(size, ls), t)
  {
    if ls != [] {
      var ls0, l := ls[..|ls| - 1], ls[|ls| - 1];
      SentIsOffered(size, ls0, t);
      QueueInside(size, ls0);
      var s, qs := Exec(Init(size), ls0), Inner(size, ls0);
      SentStepIsOffer(s, l, t, Sent(size, ls0, t));
      OfferedInner(size, qs, InnerStep(s, l), t);
    }
  }

  lemma OfferedInner(size: nat, qs: seq<Q.Label>, inner: seq<Q.Label>, t: Tid)
    requires size > 0 && |inner| <= 1
    ensures O.Offered(size, qs + inner, t)
         == if inner == [] then O.Offered(size, qs, t)
            else O.OfferStep(Q.Exec(Exact, Q.Init(size), qs).0, inner[0], t, O.Offered(size, qs, t))
  {
    if inner == [] {
      assert qs + inner == qs;
    } else {
      assert inner == [inner[0]];
      O.OfferedSnoc(size, qs, inner[0], t);
    }
  }

  /** What the consumer has received. */
  function Received(size: nat, ls: seq<Label>): seq<Q.Message>
    requires size > 0
  {
    Q.Delivers(Q.Exec(Exact, Q.Init(size), Inner(size, ls)).1)
  }

  /** From send to delivery, over every run: the consumer has received the claimed messages once
      each in claim order; those of each sender are a prefix of what it sent and was not dropped,
      in its order; and all that each sender sent, not dropped, is claimed but for the one it is
      still sending. */
  lemma SentInOrder(size: nat, ls: seq<Label>, t: Tid)
    requires size >= 2
    ensures var q := Exec(Init(size), ls).q;
            && Q.InClaimOrder(q) && Received(size, ls) == q.taken
            && Q.ClaimsOf(q.claims[..|q.taken|], t) <= Sent(size, ls, t)
            && Sent(size, ls, t) == Q.ClaimsOf(q.claims, t) + O.Unclaimed(q, t)
  {
    QueueInside(size, ls);
    SentIsOffered(size, ls, t);
    O.OfferedInOrder(size, Inner(size, ls), t);
    O.ClaimsAreOffers(size, Inner(size, ls), t);
  }

  // ------------------------------------------------------------------ whether to sleep

  lemma AvailableExactly(q: Q.State, r: int)
    requires Q.Inv(q) && 0 <= r <= q.read
    ensures Q.Available(Exact, q, r) <==> r < q.read || Q.Published(q, q.read)
  {
    if !Q.Available(Exact, q, r) {
      Q.UnavailableMeansUnpublished(q, r);
    } else if r == q.read {
      Q.AvailableMeansPublished(q);
    }
  }

  lemma ReadyIsExact(s: State, w: Wid)
    requires Inv(s) && s.Worker(w).InBody? && s.Worker(w).b.ReadyCheck?
    ensures Step(s, WorkGo(w)).Worker(w) == InBody(if Q.Published(s.q, s.q.read) then Drain else StoreConsumer)
  {
    AvailableExactly(s.q, s.q.read);
  }

  lemma RecheckIsExact(s: State, w: Wid)
    requires Inv(s) && s.Worker(w).InTail? && s.Worker(w).c.Recheck?
    ensures Step(s, WorkGo(w)).Worker(w)
         == if s.Worker(w).c.r < s.q.read || Q.Published(s.q, s.q.read) then InTail(Reclaim) else Free
  {
    AvailableExactly(s.q, s.Worker(w).c.r);
  }

  /** `await_ready` and the re-check of `await_suspend` decide rightly, over every run: the first
      goes on exactly if the position at the read index is published; the second gives up exactly
      if that is not so and nobody has taken anything since it loaded the index. */
  lemma ChecksAreExact(size: nat, ls: seq<Label>, w: Wid)
    requires size >= 2
    ensures var s := Exec(Init(size), ls);
            var there, next := Q.Published(s.q, s.q.read), Step(s, WorkGo(w)).Worker(w);
            match s.Worker(w)
            case InBody(ReadyCheck(_)) => next == InBody(if there then Drain else StoreConsumer)
            case InTail(Recheck(r)) => next == if there || r < s.q.read then InTail(Reclaim) else Free
            case _ => true
  {
    ExecKeepsInv(size, ls);
    var s := Exec(Init(size), ls);
    match s.Worker(w)
    case InBody(ReadyCheck(_)) => ReadyIsExact(s, w);
    case InTail(Recheck(_)) => RecheckIsExact(s, w);
    case _ =>
  }

  // ------------------------------------------------------------------ sending to a sleeping mailbox

  /** `r` holds of whatever its states lead to. */
  ghost predicate Closed(r: State -> bool) {
    forall s, l {:trigger Step(s, l)} :: r(s) && Q.Shaped(s.q) ==> r(Step(s, l))
  }

  lemma Advance(r: State -> bool, s: State, l: Label) returns (s': State)
    requires Closed(r) && r(s) && Inv(s)
    ensures r(s') && Inv(s') && s' == Step(s, l)
  {
    s' := Step(s, l);
    StepKeepsInv(s, l);
  }

  /** Nobody is inside `Send`. */
  ghost predicate NoSender(s: State) {
    forall t :: s.Sender(t).Absent? && s.q.Producer(t).Outside?
  }

  /** Only worker `w` is at work, at `b`. */
  ghost predicate Only(s: State, w: Wid, b: Body) {
    && Inv(s) && NoSender(s) && s.queued == 0 && s.Worker(w) == InBody(b)
    && (forall x :: x != w ==> s.Worker(x).Free?)
  }

  ghost predicate Sleeps(s: State) {
    Inv(s) && Asleep(s)
  }

  lemma SleepsWithAllTaken(s: State)
    requires Sleeps(s)
    ensures !s.scheduled && s.holder == NoOne && |s.q.taken| == |s.q.claims| && s.q.consumer.Resting?
    ensures s.q.write < Q.Released(s.q) + s.q.size
  {
    assert !WakeupPending(s);
    assert Q.SlotInv(s.q, s.q.read);
  }

  lemma WithQueue(r: State -> bool, s: State, t: Tid, m: Q.Message)
    requires Closed(r) && s.Sender(t).Absent?
    ensures O.ProducerClosed(q => r(s.(q := q)), t, m)
  {
    forall q: Q.State | r(s.(q := q)) && Q.Shaped(q) ensures r(s.(q := Q.Step(Exact, q, Q.Enqueue(t, m)).0)) {
      assert Step(s.(q := q), Send(t, m)) == s.(q := Q.Step(Exact, q, Q.Enqueue(t, m)).0);
    }
    forall q: Q.State | r(s.(q := q)) && Q.Shaped(q) && Q.Step(Exact, q, Q.Go(t, false)).1 == Q.Tau
      ensures r(s.(q := Q.Step(Exact, q, Q.Go(t, false)).0))
    {
      assert Step(s.(q := q), SendGo(t, false)) == s.(q := Q.Step(Exact, q, Q.Go(t, false)).0);
    }
  }

  /** The queue part of an uninterrupted `Send`. */
  lemma OfferRun(r: State -> bool, s: State, t: Tid, m: Q.Message) returns (s': State)
    requires Closed(r) && r(s) && Sleeps(s)
    ensures r(s') && s' == s.(q := s'.q) && Q.Inv(s'.q) && s'.q.Producer(t).Publish? && O.SameElse(s.q, s'.q, t)
    ensures s'.q.claims == s.q.claims + [Q.Claimed(t, m)]
  {
    SleepsWithAllTaken(s);
    WithQueue(r, s, t, m);
    assert s.(q := s.q) == s;
    var q := O.OfferAlone(q => r(s.(q := q)), s.q, t, m);
    s' := s.(q := q);
  }

  /** Its publication. */
  lemma PublishRun(r: State -> bool, s: State, t: Tid, m: Q.Message) returns (s': State)
    requires Closed(r) && r(s) && Sleeps(s)
    ensures r(s') && s' == SetSender(s.(q := s'.q), t, Exchange) && Q.Inv(s'.q) && O.SameElse(s.q, s'.q, t)
    ensures s'.q.Producer(t).Outside? && s'.q.claims == s.q.claims + [Q.Claimed(t, m)]
  {
    assert s.Sender(t).Absent?;
    var s1 := OfferRun(r, s, t, m);
    assert s1.Sender(t) == s.Sender(t);
    O.PublishNow(s1.q, t);
    s' := Step(s1, SendGo(t, false));
  }

  /** The rest of `Send`, which finds the flag clear. */
  lemma SignalRun(r: State -> bool, s: State, t: Tid) returns (s': State)
    requires Closed(r) && r(s) && Q.Shaped(s.q) && s.Sender(t).Exchange? && !s.scheduled
    ensures r(s')
    ensures s' == s.(scheduled := true, queued := s.queued + 1, holder := QueuedHandle, senders := s.senders[t := Absent])
  {
    var s1 := s.(scheduled := true, holder := SendingThread(t), senders := s.senders[t := LoadConsumer]);
    assert Step(s, SendGo(t, false)) == s1;
    var s2 := s1.(senders := s.senders[t := Enqueue]);
    assert s1.senders[t := Enqueue] == s2.senders;
    assert Step(s1, SendGo(t, false)) == s2;
    s' := s2.(queued := s.queued + 1, holder := QueuedHandle, senders := s.senders[t := Absent]);
    assert s2.senders[t := Absent] == s'.senders;
    assert Step(s2, SendGo(t, false)) == s';
  }

  /** An uninterrupted `Send` puts the sleeping consumer back into the scheduler. */
  lemma SendRun(r: State -> bool, s: State, t: Tid, m: Q.Message) returns (s': State)
    requires Closed(r) && r(s) && Sleeps(s)
    ensures r(s') && Inv(s') && NoSender(s') && s'.queued == 1 && s'.workers == s.workers
    ensures s'.q.claims == s.q.claims + [Q.Claimed(t, m)]
  {
    SleepsWithAllTaken(s);
    var s1 := PublishRun(r, s, t, m);
    s' := SignalRun(r, s1, t);
    forall u ensures s'.Sender(u).Absent? {
      assert s.Sender(u).Absent? && (u != t ==> s'.Sender(u) == s.Sender(u));
    }
    SentInv(s, s', t);
  }

  lemma SentInv(s: State, s': State, t: Tid)
    requires Sleeps(s) && Q.Inv(s'.q) && O.SameElse(s.q, s'.q, t) && s'.q.Producer(t).Outside?
    requires s' == s.(q := s'.q, scheduled := true, queued := 1, senders := s'.senders, holder := QueuedHandle)
    requires forall u :: s'.Sender(u).Absent?
    ensures Inv(s') && NoSender(s')
  {
    SleepsWithAllTaken(s);
    assert TokenInv(s') && ConsumerInv(s');
  }

  lemma DrainClosed(r: State -> bool, s: State, w: Wid)
    requires Closed(r) && s.Worker(w) == InBody(Drain)
    ensures O.ConsumerClosed(q => r(s.(q := q)))
  {
    forall q: Q.State | r(s.(q := q)) && Q.Shaped(q) && q.consumer.Resting? ensures r(s.(q := Q.Step(Exact, q, Q.Dequeue).0)) {
      assert Step(s.(q := q), WorkGo(w)) == s.(q := Q.Step(Exact, q, Q.Dequeue).0);
    }
    forall q: Q.State | r(s.(q := q)) && Q.Shaped(q) && !q.consumer.Resting? && !Q.Step(Exact, q, Q.Consume).1.NoMessage?
      ensures r(s.(q := Q.Step(Exact, q, Q.Consume).0))
    {
      assert Step(s.(q := q), WorkGo(w)) == s.(q := Q.Step(Exact, q, Q.Consume).0);
    }
  }

  /** With nobody inside `Send` whatever is claimed is published. */
  lemma ClaimedIsPublished(s: State)
    requires Inv(s) && NoSender(s) && s.q.consumer.Resting?
    ensures Q.Published(s.q, s.q.read) <==> |s.q.taken| < |s.q.claims|
  {
    assert Q.SlotInv(s.q, s.q.read);
  }

  lemma TakeOne(r: State -> bool, s: State, w: Wid) returns (s': State)
    requires Closed(r) && r(s) && Only(s, w, Drain) && s.q.consumer.Resting? && |s.q.taken| < |s.q.claims|
    ensures r(s') && Only(s', w, Drain) && s'.q.consumer.Resting?
    ensures s'.q.claims == s.q.claims && |s'.q.taken| == |s.q.taken| + 1
  {
    ClaimedIsPublished(s);
    DrainClosed(r, s, w);
    assert s.(q := s.q) == s;
    var q := O.TakeAlone(q => r(s.(q := q)), s.q);
    s' := s.(q := q);
    assert s.holder == RunningOn(w);
    assert TokenInv(s') && ConsumerInv(s');
  }

  lemma {:induction false} DrainRun(r: State -> bool, s: State, w: Wid) returns (s': State)
    requires Closed(r) && r(s) && Only(s, w, Drain) && s.q.consumer.Resting?
    ensures r(s') && Only(s', w, ReadyLoad) && s'.q.claims == s.q.claims && |s'.q.taken| == |s.q.claims|
    ensures s'.q.consumer.Resting?
    decreases |s.q.claims| - |s.q.taken|
  {
    if |s.q.taken| < |s.q.claims| {
      s' := TakeOne(r, s, w);
      s' := DrainRun(r, s', w);
    } else {
      ClaimedIsPublished(s);
      DrainClosed(r, s, w);
      assert s.(q := s.q) == s;
      var q := O.FindNothing(q => r(s.(q := q)), s.q);
      StepKeepsInv(s, WorkGo(w));
      assert Step(s, WorkGo(w)) == s.(q := q);
      s' := Advance(r, s.(q := q), WorkGo(w));
    }
  }

  /** The consumer, finding nothing more, goes to sleep. */
  lemma SleepRun(r: State -> bool, s: State, w: Wid) returns (s': State)
    requires Closed(r) && r(s) && Only(s, w, ReadyLoad) && s.q.consumer.Resting? && |s.q.taken| == |s.q.claims|
    ensures r(s') && Sleeps(s') && s'.q == s.q
  {
    ClaimedIsPublished(s);
    s' := Advance(r, s, WorkGo(w));
    assert s'.Worker(w) == InBody(ReadyCheck(s.q.read)) && s'.q == s.q;
    ReadyIsExact(s', w);
    s' := Advance(r, s', WorkGo(w));
    assert s'.q == s.q;
    s' := Advance(r, s', WorkGo(w));
    assert s'.Worker(w) == InBody(Unschedule) && s'.q == s.q;
    s' := Advance(r, s', WorkGo(w));
    assert s'.Worker(w) == InTail(RecheckLoad) && s'.q == s.q && !s'.scheduled;
    s' := Advance(r, s', WorkGo(w));
    assert s'.Worker(w) == InTail(Recheck(s.q.read)) && s'.q == s.q && !s'.scheduled;
    RecheckIsExact(s', w);
    s' := Advance(r, s', WorkGo(w));
  }

  /** A scheduled consumer, resumed on an idle worker, drains the mailbox and goes to sleep. */
  lemma ConsumerRun(r: State -> bool, s: State, w: Wid) returns (s': State)
    requires Closed(r) && r(s) && Inv(s) && NoSender(s) && s.queued == 1 && forall x :: s.Worker(x).Free?
    ensures r(s') && Sleeps(s') && s'.q.claims == s.q.claims
  {
    s' := Advance(r, s, Resume(w));
    if !s.started {
      assert s'.Worker(w) == InBody(Start);
      s' := Advance(r, s', WorkGo(w));
    }
    assert Only(s', w, Drain) && s'.q == s.q;
    s' := DrainRun(r, s', w);
    s' := SleepRun(r, s', w);
  }

  /** The claims that sends one after the other make. */
  function ClaimsFor(sends: seq<(Tid, Q.Message)>): seq<Q.Claimed> {
    seq(|sends|, i requires 0 <= i < |sends| => Q.Claimed(sends[i].0, sends[i].1))
  }

  lemma {:induction false} SendsRun(r: State -> bool, size: nat, sends: seq<(Tid, Q.Message)>, w: Wid) returns (s: State)
    requires size >= 2 && Closed(r) && r(Init(size))
    ensures r(s) && Sleeps(s) && s.q.claims == ClaimsFor(sends)
  {
    if sends == [] {
      InitInv(size);
      s := ConsumerRun(r, Init(size), w);
    } else {
      var last := sends[|sends| - 1];
      s := SendsRun(r, size, sends[..|sends| - 1], w);
      s := SendRun(r, s, last.0, last.1);
      s := ConsumerRun(r, s, w);
    }
  }

  lemma RunsAreClosed(size: nat)
    requires size > 0
    ensures var r := s => exists ls :: Exec(Init(size), ls) == s; Closed(r) && r(Init(size))
  {
    var i := Init(size);
    assert Exec(i, []) == i;
    forall s, l | (exists ls :: Exec(i, ls) == s) && Q.Shaped(s.q) ensures exists ls :: Exec(i, ls) == Step(s, l) {
      var ls :| Exec(i, ls) == s;
      assert (ls + [l])[..|ls|] == ls;
      assert Exec(i, ls + [l]) == Step(s, l);
    }
  }

  /** Sending to a mailbox that sleeps: for any messages of any senders there is a run that
      delivers them all, in their order, and ends asleep. */
  lemma WakesDeliversSleeps(size: nat, sends: seq<(Tid, Q.Message)>, w: Wid) returns (ls: seq<Label>)
    requires size >= 2
    ensures var s := Exec(Init(size), ls);
            && Asleep(s) && !s.scheduled
            && |s.q.taken| == |sends| && forall i :: 0 <= i < |sends| ==> s.q.taken[i] == sends[i].1
  {
    RunsAreClosed(size);
    var s := SendsRun(s => exists ls :: Exec(Init(size), ls) == s, size, sends, w);
    ls :| Exec(Init(size), ls) == s;
    SleepsWithAllTaken(s);
  }
}
