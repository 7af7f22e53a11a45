/** The bounded multi-producer single-consumer ring behind a mailbox, as a protocol.

    Each slot carries a sequence number that says for which position it is free, filled or
    released.  Every step is one atomic access, or one access of a slot's message by the
    thread that holds the slot. */
module MailQueue {
  import opened Words

  type Message = nat
  const NOBODY: Message := 0
  type Tid = nat

  datatype Slot = Slot(sequence: int, message: Message)

  /** Program counter and locals of a producer inside `try_enqueue`. */
  datatype Producer =
    | Outside
    | LoadSequence(m: Message, w: int)
    | Claim(m: Message, w: int)
    | LoadWrite(m: Message)
    | WriteMessage(m: Message, w: int)
    | Publish(m: Message, w: int)

  /** Program counter and locals of the consumer inside `try_dequeue`. */
  datatype Consumer =
    | Resting
    | CheckSequence(r: int)
    | ReadMessage(r: int)
    | ClearMessage(r: int, m: Message)
    | StoreRead(r: int, m: Message)
    | Release(r: int, m: Message)

  datatype Claimed = Claimed(t: Tid, m: Message)

  /** `claims` and `taken` are history: the message claimed for each position, in claim
      order, and the messages `try_dequeue` has returned. */
  datatype State = State(
    size: nat,
    slots: seq<Slot>,
    write: int,
    read: int,
    producers: map<Tid, Producer>,
    consumer: Consumer,
    claims: seq<Claimed>,
    taken: seq<Message>)
  {
    function Producer(t: Tid): Producer {
      if t in producers then producers[t] else Outside
    }
  }

  datatype Event =
    | Tau
    | Accepted(t: Tid, m: Message)
    | Rejected(t: Tid, m: Message)
    | Delivered(m: Message)
    | NoMessage

  /** `spurious` lets the weak compare-and-swap fail for no reason. */
  datatype Label =
    | Enqueue(t: Tid, m: Message)
    | Go(t: Tid, spurious: bool)
    | Dequeue
    | Consume

  predicate Shaped(s: State) {
    s.size > 0 && |s.slots| == s.size
  }

  function Init(size: nat): State {
    State(size, seq(size, i => Slot(i, NOBODY)), 0, 0, map[], Resting, [], [])
  }

  function SetProducer(s: State, t: Tid, p: Producer): State {
    s.(producers := s.producers[t := p])
  }

  function ProducerStep(a: Arith, s: State, t: Tid, spurious: bool): (r: (State, Event))
    requires Shaped(s)
    ensures Shaped(r.0) && r.0.size == s.size
  {
    match s.Producer(t)
    case Outside => (s, Tau)
    case LoadSequence(m, w) =>
      var diff := a.Signed(s.slots[a.Index(w, s.size)].sequence) - a.Signed(w);
      if diff < 0 then (SetProducer(s, t, Outside), Rejected(t, m))
      else if diff == 0 then (SetProducer(s, t, Claim(m, w)), Tau)
      else (SetProducer(s, t, LoadWrite(m)), Tau)
    case Claim(m, w) =>
      if s.write == w && !spurious then
        (SetProducer(s, t, WriteMessage(m, w)).(write := a.Norm(w + 1), claims := s.claims + [Claimed(t, m)]), Tau)
      else (SetProducer(s, t, LoadWrite(m)), Tau)
    case LoadWrite(m) => (SetProducer(s, t, LoadSequence(m, s.write)), Tau)
    case WriteMessage(m, w) =>
      var i := a.Index(w, s.size);
      (SetProducer(s, t, Publish(m, w)).(slots := s.slots[i := s.slots[i].(message := m)]), Tau)
    case Publish(m, w) =>
      var i := a.Index(w, s.size);
      (SetProducer(s, t, Outside).(slots := s.slots[i := s.slots[i].(sequence := a.Norm(w + 1))]), Accepted(t, m))
  }

  /** What `try_dequeue` and `can_dequeue` decide from the sequence of the slot at `r`. */
  predicate Available(a: Arith, s: State, r: int)
    requires Shaped(s)
  {
    a.Signed(s.slots[a.Index(r, s.size)].sequence) - a.Signed(a.Norm(r + 1)) >= 0
  }

  function ConsumerStep(a: Arith, s: State): (r: (State, Event))
    requires Shaped(s)
    ensures Shaped(r.0) && r.0.size == s.size
  {
    match s.consumer
    case Resting => (s, Tau)
    case CheckSequence(r) =>
      if Available(a, s, r) then (s.(consumer := ReadMessage(r)), Tau)
      else (s.(consumer := Resting), NoMessage)
    case ReadMessage(r) =>
      (s.(consumer := ClearMessage(r, s.slots[a.Index(r, s.size)].message)), Tau)
    case ClearMessage(r, m) =>
      var i := a.Index(r, s.size);
      (s.(slots := s.slots[i := s.slots[i].(message := NOBODY)], consumer := StoreRead(r, m)), Tau)
    case StoreRead(r, m) =>
      (s.(read := a.Norm(r + 1), consumer := Release(r, m)), Tau)
    case Release(r, m) =>
      var i := a.Index(r, s.size);
      (s.(slots := s.slots[i := s.slots[i].(sequence := a.Norm(r + s.size))],
          consumer := Resting, taken := s.taken + [m]), Delivered(m))
  }

  function Step(a: Arith, s: State, l: Label): (r: (State, Event))
    requires Shaped(s)
    ensures Shaped(r.0) && r.0.size == s.size
  {
    match l
    case Enqueue(t, m) =>
      if s.Producer(t).Outside? then (SetProducer(s, t, LoadSequence(m, s.write)), Tau) else (s, Tau)
    case Go(t, spurious) => ProducerStep(a, s, t, spurious)
    case Dequeue =>
      if s.consumer.Resting? then (s.(consumer := CheckSequence(s.read)), Tau) else (s, Tau)
    case Consume => ConsumerStep(a, s)
  }

  function Exec(a: Arith, s: State, ls: seq<Label>): (r: (State, seq<Event>))
    requires Shaped(s)
    ensures Shaped(r.0) && r.0.size == s.size && |r.1| == |ls|
  {
    if ls == [] then (s, [])
    else
      var (s1, es) := Exec(a, s, ls[..|ls| - 1]);
      var (s2, e) := Step(a, s1, ls[|ls| - 1]);
      (s2, es + [e])
  }

  lemma ExecSnoc(a: Arith, s: State, ls: seq<Label>, l: Label)
    requires Shaped(s)
    ensures var (s1, es) := Exec(a, s, ls);
            Exec(a, s, ls + [l]) == (Step(a, s1, l).0, es + [Step(a, s1, l).1])
  {
    assert (ls + [l])[..|ls|] == ls;
  }

  // ------------------------------------------------------------------ invariant

  /** Positions below this one have been handed back to the producers. */
  function Released(s: State): int {
    if s.consumer.Release? then s.read - 1 else s.read
  }

  function At(s: State, p: int): Slot
    requires Shaped(s)
  {
    s.slots[p % s.size]
  }

  predicate Holds(pr: Producer, p: int) {
    (pr.WriteMessage? || pr.Publish?) && pr.w == p
  }

  predicate Cleared(c: Consumer) {
    c.StoreRead? || c.Release?
  }

  /** The slot of position `p`, one of the `size` positions from `Released` on. */
  predicate SlotInv(s: State, p: int)
    requires Shaped(s)
  {
    if p >= s.write then At(s, p) == Slot(p, NOBODY)
    else
      && 0 <= p < |s.claims|
      && (|| (At(s, p).sequence == p && Holds(s.Producer(s.claims[p].t), p))
          || At(s, p) == Slot(p + 1, if p == Released(s) && Cleared(s.consumer) then NOBODY else s.claims[p].m))
  }

  predicate ClaimedBy(s: State, p: int, t: Tid, m: Message) {
    Released(s) <= p < s.write && 0 <= p < |s.claims| && s.claims[p] == Claimed(t, m)
  }

  predicate ProducerInv(s: State, t: Tid, pr: Producer)
    requires Shaped(s)
  {
    match pr
    case Outside => true
    case LoadSequence(m, w) => 0 <= w <= s.write
    case Claim(m, w) => 0 <= w <= s.write && (w == s.write ==> w < Released(s) + s.size)
    case LoadWrite(m) => true
    case WriteMessage(m, w) => ClaimedBy(s, w, t, m) && At(s, w).sequence == w
    case Publish(m, w) => ClaimedBy(s, w, t, m) && At(s, w) == Slot(w, m)
  }

  /** The consumer is busy with position `r`, which is published. */
  predicate Consuming(s: State, r: int)
    requires Shaped(s)
  {
    r == Released(s) < s.write && 0 <= r < |s.claims| && At(s, r).sequence == r + 1
  }

  predicate ConsumerInv(s: State)
    requires Shaped(s)
  {
    match s.consumer
    case Resting => true
    case CheckSequence(r) => r == s.read
    case ReadMessage(r) => Consuming(s, r)
    case ClearMessage(r, m) => Consuming(s, r) && m == s.claims[r].m
    case StoreRead(r, m) => Consuming(s, r) && m == s.claims[r].m
    case Release(r, m) => Consuming(s, r) && m == s.claims[r].m
  }

  ghost predicate Inv(s: State) {
    && s.size >= 2 && |s.slots| == s.size
    && s.write == |s.claims| && Released(s) == |s.taken|
    && 0 <= Released(s) <= s.write <= Released(s) + s.size
    && (forall p :: Released(s) <= p < Released(s) + s.size ==> SlotInv(s, p))
    && (forall t :: t in s.producers ==> ProducerInv(s, t, s.producers[t]))
    && ConsumerInv(s)
    && (forall i :: 0 <= i < |s.taken| ==> s.taken[i] == s.claims[i].m)
  }

  /** The one position in the window that uses the slot of position `w`. */
  function Window(s: State, w: int): (p: int)
    requires s.size > 0
    ensures Released(s) <= p < Released(s) + s.size && p % s.size == w % s.size
  {
    var r := Released(s);
    var p := r + (w - r) % s.size;
    SameSlot(w, r, s.size);
    p
  }

  lemma SameSlot(w: int, r: int, n: nat)
    requires n > 0
    ensures 0 <= (w - r) % n < n && (r + (w - r) % n) % n == w % n
  {
    DivMod(w - r, n);
    DivMod(w, n);
    var q := (w - r) / n;
    var p := r + (w - r) % n;
    assert p == w - q * n;
    assert p == (w / n) * n - q * n + w % n;
    assert (w / n) * n - q * n == (w / n - q) * n;
    ModUnique(p, n, w / n - q, w % n);
  }

  lemma InitInv(size: nat)
    requires size >= 2
    ensures Inv(Init(size))
  {
    var s := Init(size);
    forall p | Released(s) <= p < Released(s) + s.size ensures SlotInv(s, p) {
      ModUnique(p, size, 0, p);
    }
  }

  /** A slot update at window position `q` leaves every other window position alone. */
  lemma OthersKeepSlot(s: State, q: int, p: int, slot: Slot)
    requires Shaped(s) && p != q && q < p + s.size && p < q + s.size
    ensures s.slots[q % s.size := slot][p % s.size] == At(s, p)
  {
    if p < q {
      ModDistinct(p, q, s.size);
    } else {
      ModDistinct(q, p, s.size);
    }
  }

  /** A producer that saw its slot free may claim it: the slot belongs to the window. */
  lemma FreeSlot(s: State, w: int)
    requires Inv(s) && 0 <= w <= s.write && At(s, w).sequence == w
    ensures w == s.write ==> w < Released(s) + s.size
  {
    var p := Window(s, w);
    assert SlotInv(s, p);
    if w == s.write && w != p {
      assert p + 1 == w;
      ModDistinct(p, w, s.size);
    }
  }

  // Each kind of step, one component of the invariant at a time.

  lemma ScanKeepsInv(s: State, t: Tid, spurious: bool)
    requires Inv(s) && !s.Producer(t).WriteMessage? && !s.Producer(t).Publish?
    requires s.Producer(t).Claim? ==> s.Producer(t).w != s.write || spurious
    ensures Inv(ProducerStep(Exact, s, t, spurious).0)
  {
    var s' := ProducerStep(Exact, s, t, spurious).0;
    if s.Producer(t).LoadSequence? {
      assert ProducerInv(s, t, s.producers[t]);
      if At(s, s.Producer(t).w).sequence == s.Producer(t).w {
        FreeSlot(s, s.Producer(t).w);
      }
    }
    PcChangeKeepsSlots(s, s', t);
    forall u | u in s'.producers ensures ProducerInv(s', u, s'.producers[u]) {
      assert u != t ==> ProducerInv(s, u, s.producers[u]);
    }
  }

  /** Moving a producer that holds no slot, and nothing else. */
  lemma PcChangeKeepsSlots(s: State, s': State, t: Tid)
    requires Inv(s) && s' == s.(producers := s'.producers)
    requires !s.Producer(t).WriteMessage? && !s.Producer(t).Publish?
    requires forall u :: u != t ==> s'.Producer(u) == s.Producer(u)
    ensures forall p :: Released(s') <= p < Released(s') + s'.size ==> SlotInv(s', p)
  {
    forall p | Released(s') <= p < Released(s') + s'.size ensures SlotInv(s', p) {
      assert SlotInv(s, p);
    }
  }

  lemma ClaimKeepsInv(s: State, t: Tid)
    requires Inv(s) && s.Producer(t).Claim? && s.Producer(t).w == s.write
    ensures Inv(ProducerStep(Exact, s, t, false).0)
  {
    var s' := ProducerStep(Exact, s, t, false).0;
    assert ProducerInv(s, t, s.producers[t]);
    assert SlotInv(s, s.write);
    forall p | Released(s') <= p < Released(s') + s'.size ensures SlotInv(s', p) {
      assert SlotInv(s, p);
    }
    forall u | u in s'.producers ensures ProducerInv(s', u, s'.producers[u]) {
      assert ProducerInv(s, u, s.producers[u]);
    }
  }

  /** Filling and publishing touch the one slot that the producer holds. */
  lemma FillKeepsSlot(s: State, t: Tid, spurious: bool, p: int)
    requires Inv(s) && (s.Producer(t).WriteMessage? || s.Producer(t).Publish?)
    requires Released(s) <= p < Released(s) + s.size
    ensures SlotInv(ProducerStep(Exact, s, t, spurious).0, p)
  {
    var s' := ProducerStep(Exact, s, t, spurious).0;
    assert ProducerInv(s, t, s.producers[t]) && SlotInv(s, p);
    var w := s.producers[t].w;
    if p != w {
      OthersKeepSlot(s, w, p, At(s', w));
    }
  }

  lemma FillKeepsProducer(s: State, t: Tid, spurious: bool, u: Tid)
    requires Inv(s) && (s.Producer(t).WriteMessage? || s.Producer(t).Publish?) && u in s.producers
    ensures var s' := ProducerStep(Exact, s, t, spurious).0;
            ProducerInv(s', u, s'.Producer(u))
  {
    var s' := ProducerStep(Exact, s, t, spurious).0;
    assert ProducerInv(s, t, s.producers[t]) && ProducerInv(s, u, s.producers[u]);
    if u != t && (s.producers[u].WriteMessage? || s.producers[u].Publish?) {
      OthersKeepSlot(s, s.producers[t].w, s.producers[u].w, At(s', s.producers[t].w));
    }
  }

  lemma FillKeepsInv(s: State, t: Tid, spurious: bool)
    requires Inv(s) && (s.Producer(t).WriteMessage? || s.Producer(t).Publish?)
    ensures Inv(ProducerStep(Exact, s, t, spurious).0)
  {
    var s' := ProducerStep(Exact, s, t, spurious).0;
    forall p | Released(s') <= p < Released(s') + s'.size ensures SlotInv(s', p) {
      FillKeepsSlot(s, t, spurious, p);
    }
    forall u | u in s'.producers ensures ProducerInv(s', u, s'.producers[u]) {
      FillKeepsProducer(s, t, spurious, u);
    }
    assert ConsumerInv(s') by {
      assert ProducerInv(s, t, s.producers[t]);
      if !s.consumer.Resting? && !s.consumer.CheckSequence? {
        OthersKeepSlot(s, s.producers[t].w, s.consumer.r, At(s', s.producers[t].w));
      }
    }
  }

  /** The consumer works on the slot of position `Released`. */
  lemma ConsumerKeepsSlot(s: State, p: int)
    requires Inv(s) && Released(s) <= p < Released(s) + s.size
    ensures var s' := ConsumerStep(Exact, s).0;
            Released(s') <= p ==> SlotInv(s', p)
  {
    var s' := ConsumerStep(Exact, s).0;
    assert SlotInv(s, p);
    if (s.consumer.ClearMessage? || s.consumer.Release?) && p != s.consumer.r {
      OthersKeepSlot(s, s.consumer.r, p, At(s', s.consumer.r));
    }
  }

  lemma ConsumerKeepsProducer(s: State, u: Tid)
    requires Inv(s) && u in s.producers
    ensures ProducerInv(ConsumerStep(Exact, s).0, u, s.producers[u])
  {
    var s' := ConsumerStep(Exact, s).0;
    assert ProducerInv(s, u, s.producers[u]);
    if (s.producers[u].WriteMessage? || s.producers[u].Publish?) && (s.consumer.ClearMessage? || s.consumer.Release?) {
      OthersKeepSlot(s, s.consumer.r, s.producers[u].w, At(s', s.consumer.r));
    }
  }

  lemma ReleasedSlot(s: State)
    requires Inv(s) && s.consumer.Release?
    ensures SlotInv(ConsumerStep(Exact, s).0, Released(s) + s.size)
  {
    var r := s.consumer.r;
    assert SlotInv(s, r);
    DivMod(r, s.size);
    assert (r / s.size + 1) * s.size == (r / s.size) * s.size + s.size;
    ModUnique(r + s.size, s.size, r / s.size + 1, r % s.size);
  }

  lemma ConsumerKeepsInv(s: State)
    requires Inv(s)
    ensures Inv(ConsumerStep(Exact, s).0)
  {
    var s' := ConsumerStep(Exact, s).0;
    forall p | Released(s') <= p < Released(s') + s'.size ensures SlotInv(s', p) {
      if p < Released(s) + s.size {
        ConsumerKeepsSlot(s, p);
      } else {
        ReleasedSlot(s);
      }
    }
    forall u | u in s'.producers ensures ProducerInv(s', u, s'.producers[u]) {
      ConsumerKeepsProducer(s, u);
    }
    assert SlotInv(s, Released(s));
  }

  /** Entering an operation: a producer with the write index, the consumer with the read
      index. */
  lemma EnterKeepsInv(s: State, l: Label)
    requires Inv(s) && (l.Enqueue? || l.Dequeue?)
    ensures Inv(Step(Exact, s, l).0)
  {
    var s' := Step(Exact, s, l).0;
    if l.Enqueue? && s.Producer(l.t).Outside? {
      PcChangeKeepsSlots(s, s', l.t);
    } else {
      forall p | Released(s') <= p < Released(s') + s'.size ensures SlotInv(s', p) {
        assert SlotInv(s, p);
      }
    }
    forall u | u in s'.producers ensures ProducerInv(s', u, s'.producers[u]) {
      assert u in s.producers ==> ProducerInv(s, u, s.producers[u]);
    }
  }

  lemma StepKeepsInv(s: State, l: Label)
    requires Inv(s)
    ensures Inv(Step(Exact, s, l).0)
  {
    match l
    case Go(t, spurious) =>
      if s.Producer(t).WriteMessage? || s.Producer(t).Publish? {
        FillKeepsInv(s, t, spurious);
      } else if s.Producer(t).Claim? && s.Producer(t).w == s.write && !spurious {
        ClaimKeepsInv(s, t);
      } else {
        ScanKeepsInv(s, t, spurious);
      }
    case Consume => ConsumerKeepsInv(s);
    case Enqueue(_, _) => EnterKeepsInv(s, l);
    case Dequeue => EnterKeepsInv(s, l);
  }

  lemma {:induction false} ExecKeepsInv(size: nat, ls: seq<Label>)
    requires size >= 2
    ensures Inv(Exec(Exact, Init(size), ls).0)
  {
    if ls == [] {
      InitInv(size);
    } else {
      ExecKeepsInv(size, ls[..|ls| - 1]);
      StepKeepsInv(Exec(Exact, Init(size), ls[..|ls| - 1]).0, ls[|ls| - 1]);
    }
  }

  // ------------------------------------------------------------------ what callers get

  /** Position `p` has been claimed and its message published. */
  predicate Published(s: State, p: int)
    requires Shaped(s)
  {
    p < s.write && At(s, p).sequence == p + 1
  }

  /** Messages come out once each, in the order in which positions were claimed. */
  predicate InClaimOrder(s: State) {
    && s.write == |s.claims| && |s.taken| <= |s.claims|
    && forall i :: 0 <= i < |s.taken| ==> s.taken[i] == s.claims[i].m
  }

  /** A refusal is exact: at its sequence load all `size` positions were claimed and none of
      them released, even if the producer's write index was stale. */
  lemma RejectedOnlyWhenFull(s: State, l: Label)
    requires Inv(s) && Step(Exact, s, l).1.Rejected?
    ensures s.write - Released(s) == s.size
  {
    var w := s.Producer(l.t).w;
    assert ProducerInv(s, l.t, s.producers[l.t]);
    var p := Window(s, w);
    assert SlotInv(s, p);
    if w < p + s.size {
      if p < w {
        ModDistinct(p, w, s.size);
      }
    }
  }

  /** The check of a possibly stale read index, as the mailbox makes it. */
  lemma UnavailableMeansUnpublished(s: State, r: int)
    requires Inv(s) && 0 <= r <= s.read && !Available(Exact, s, r)
    ensures r == s.read && !Published(s, s.read)
  {
    var p := Window(s, r);
    assert SlotInv(s, p);
    if Released(s) <= r < p {
      ModDistinct(r, p, s.size);
    } else if Released(s) <= p < r {
      ModDistinct(p, r, s.size);
    }
  }

  /** Nothing is left behind: over every run, the slots that are free to be claimed are empty. */
  lemma FreeSlotsAreEmpty(size: nat, ls: seq<Label>, p: nat)
    requires size >= 2
    ensures var s := Exec(Exact, Init(size), ls).0;
            |s.claims| <= p < |s.taken| + size ==> s.slots[p % size] == Slot(p, NOBODY)
  {
    ExecKeepsInv(size, ls);
    var s := Exec(Exact, Init(size), ls).0;
    if |s.claims| <= p < |s.taken| + size {
      assert SlotInv(s, p);
    }
  }

  lemma AvailableMeansPublished(s: State)
    requires Inv(s) && Available(Exact, s, s.read)
    ensures Published(s, s.read)
  {
    assert SlotInv(s, s.read);
  }

  /** A failed dequeue is honest: the position at the read index is not published, so with
      no enqueue between claim and publication everything claimed has been taken. */
  lemma NoMessageIsHonest(s: State, l: Label)
    requires Inv(s) && Step(Exact, s, l).1.NoMessage?
    ensures !Published(s, s.read)
    ensures (forall t :: t in s.producers ==> !s.producers[t].WriteMessage? && !s.producers[t].Publish?)
            ==> |s.taken| == |s.claims|
  {
    UnavailableMeansUnpublished(s, s.consumer.r);
    assert SlotInv(s, s.read);
  }

  /** The thread may touch the message of the slot of position `p`. */
  predicate ProducerAccess(s: State, t: Tid, p: int) {
    s.Producer(t).WriteMessage? && s.Producer(t).w == p
  }

  predicate ConsumerAccess(s: State, p: int) {
    (s.consumer.ReadMessage? || s.consumer.ClearMessage?) && s.consumer.r == p
  }

  /** No two threads ever have access to the message of one slot. */
  lemma NoSlotRace(s: State, t: Tid, p: int, u: Tid, q: int)
    requires Inv(s) && ProducerAccess(s, t, p) && p % s.size == q % s.size
    ensures ProducerAccess(s, u, q) ==> t == u
    ensures !ConsumerAccess(s, q)
  {
    assert ProducerInv(s, t, s.producers[t]);
    assert u in s.producers ==> ProducerInv(s, u, s.producers[u]);
    if p < q < p + s.size {
      ModDistinct(p, q, s.size);
    } else if q < p < q + s.size {
      ModDistinct(q, p, s.size);
    }
  }

  /** Both refusals, over every run: a refused message found exactly `size` messages claimed
      and not taken; a refused receive found nothing published at the position to be taken
      next, and with no enqueue between claim and publication nothing was left at all. */
  lemma RefusalsAreExact(size: nat, ls: seq<Label>, l: Label)
    requires size >= 2
    ensures var s := Exec(Exact, Init(size), ls).0;
            var e := Step(Exact, s, l).1;
            && (e.Rejected? ==> |s.claims| - |s.taken| == size)
            && (e.NoMessage? ==> !Published(s, |s.taken|))
            && (e.NoMessage? && (forall t :: t in s.producers ==> Unfinished(s, t) == []) ==> |s.taken| == |s.claims|)
  {
    ExecKeepsInv(size, ls);
    var s := Exec(Exact, Init(size), ls).0;
    var e := Step(Exact, s, l).1;
    if e.Rejected? {
      RejectedOnlyWhenFull(s, l);
    } else if e.NoMessage? {
      NoMessageIsHonest(s, l);
      if forall t :: t in s.producers ==> Unfinished(s, t) == [] {
        forall t | t in s.producers ensures !s.producers[t].WriteMessage? && !s.producers[t].Publish? {
          assert Unfinished(s, t) == [];
        }
      }
    }
  }

  /** Over every run no two threads have access to the message of one slot. */
  lemma NeverRaces(size: nat, ls: seq<Label>, t: Tid, p: int, u: Tid, q: int)
    requires size >= 2 && p % size == q % size
    ensures var s := Exec(Exact, Init(size), ls).0;
            ProducerAccess(s, t, p) ==> (ProducerAccess(s, u, q) ==> t == u) && !ConsumerAccess(s, q)
  {
    ExecKeepsInv(size, ls);
    var s := Exec(Exact, Init(size), ls).0;
    if ProducerAccess(s, t, p) {
      NoSlotRace(s, t, p, u, q);
    }
  }

  function Accepts(es: seq<Event>, t: Tid): seq<Message> {
    if es == [] then []
    else
      var e := es[|es| - 1];
      Accepts(es[..|es| - 1], t) + (if e.Accepted? && e.t == t then [e.m] else [])
  }

  function Delivers(es: seq<Event>): seq<Message> {
    if es == [] then []
    else
      var e := es[|es| - 1];
      Delivers(es[..|es| - 1]) + (if e.Delivered? then [e.m] else [])
  }

  function ClaimsOf(cs: seq<Claimed>, t: Tid): seq<Message> {
    if cs == [] then []
    else
      var c := cs[|cs| - 1];
      ClaimsOf(cs[..|cs| - 1], t) + (if c.t == t then [c.m] else [])
  }

  function Unfinished(s: State, t: Tid): seq<Message> {
    var pr := s.Producer(t);
    if pr.WriteMessage? || pr.Publish? then [pr.m] else []
  }

  lemma {:induction false} ClaimsOfPrefix(cs: seq<Claimed>, n: nat, t: Tid)
    requires n <= |cs|
    ensures ClaimsOf(cs[..n], t) <= ClaimsOf(cs, t)
    decreases |cs|
  {
    if n < |cs| {
      ClaimsOfPrefix(cs[..|cs| - 1], n, t);
      assert cs[..|cs| - 1][..n] == cs[..n];
    } else {
      assert cs[..n] == cs;
    }
  }

  lemma ClaimsOfSnoc(cs: seq<Claimed>, c: Claimed, t: Tid)
    ensures ClaimsOf(cs + [c], t) == ClaimsOf(cs, t) + (if c.t == t then [c.m] else [])
  {
    assert (cs + [c])[..|cs|] == cs;
  }

  lemma ClaimHistory(s: State, u: Tid, t: Tid, done: seq<Message>)
    requires Shaped(s) && ClaimsOf(s.claims, t) == done + Unfinished(s, t)
    requires s.Producer(u).Claim? && s.Producer(u).w == s.write
    ensures var s' := ProducerStep(Exact, s, u, false).0;
            ClaimsOf(s'.claims, t) == done + Unfinished(s', t)
  {
    ClaimsOfSnoc(s.claims, Claimed(u, s.Producer(u).m), t);
    if u != t {
      assert ProducerStep(Exact, s, u, false).0.Producer(t) == s.Producer(t);
    }
  }

  /** Steps that claim nothing: a message leaves the unfinished ones by being accepted. */
  lemma FinishHistory(s: State, l: Label, t: Tid)
    requires Shaped(s) && !(l.Go? && s.Producer(l.t).Claim? && s.Producer(l.t).w == s.write && !l.spurious)
    ensures var (s', e) := Step(Exact, s, l);
            && s'.claims == s.claims
            && Unfinished(s, t) == (if e.Accepted? && e.t == t then [e.m] else []) + Unfinished(s', t)
  {
    if l.Go? || l.Enqueue? {
      if l.t != t {
        assert Step(Exact, s, l).0.Producer(t) == s.Producer(t);
      }
    }
  }

  /** One step: a claim of `t` is a message it is still writing or one just accepted. */
  lemma StepKeepsHistory(s: State, l: Label, t: Tid, done: seq<Message>)
    requires Shaped(s) && ClaimsOf(s.claims, t) == done + Unfinished(s, t)
    ensures var (s', e) := Step(Exact, s, l);
            ClaimsOf(s'.claims, t) == done + (if e.Accepted? && e.t == t then [e.m] else []) + Unfinished(s', t)
  {
    if l.Go? && s.Producer(l.t).Claim? && s.Producer(l.t).w == s.write && !l.spurious {
      ClaimHistory(s, l.t, t, done);
    } else {
      FinishHistory(s, l, t);
    }
  }

  lemma StepKeepsTaken(s: State, l: Label)
    requires Shaped(s)
    ensures var (s', e) := Step(Exact, s, l);
            s'.taken == s.taken + (if e.Delivered? then [e.m] else [])
  {
  }

  lemma RunTail(size: nat, ls: seq<Label>, t: Tid)
    requires size > 0 && ls != []
    ensures var (s0, es0) := Exec(Exact, Init(size), ls[..|ls| - 1]);
            var (s, e) := Step(Exact, s0, ls[|ls| - 1]);
            var es := Exec(Exact, Init(size), ls).1;
            && Exec(Exact, Init(size), ls).0 == s
            && Accepts(es, t) == Accepts(es0, t) + (if e.Accepted? && e.t == t then [e.m] else [])
            && Delivers(es) == Delivers(es0) + (if e.Delivered? then [e.m] else [])
  {
    var es0 := Exec(Exact, Init(size), ls[..|ls| - 1]).1;
    assert Exec(Exact, Init(size), ls).1[..|es0|] == es0;
  }

  /** Over a whole run, producer `t`'s claims are its accepted messages in the order it
      sent them, followed by the one it is still writing; and what was taken is what
      `try_dequeue` returned. */
  lemma {:induction false} HistoryMatchesAnswers(size: nat, ls: seq<Label>, t: Tid)
    requires size > 0
    ensures var (s, es) := Exec(Exact, Init(size), ls);
            && ClaimsOf(s.claims, t) == Accepts(es, t) + Unfinished(s, t)
            && s.taken == Delivers(es)
  {
    if ls != [] {
      var ls0, l := ls[..|ls| - 1], ls[|ls| - 1];
      HistoryMatchesAnswers(size, ls0, t);
      var (s0, es0) := Exec(Exact, Init(size), ls0);
      StepKeepsHistory(s0, l, t, Accepts(es0, t));
      StepKeepsTaken(s0, l);
      RunTail(size, ls, t);
    }
  }

  /** The delivery theorem for capacities of at least two: every run delivers in claim
      order, hence for each producer a prefix of what it sent, in its order. */
  lemma DeliveredInOrder(size: nat, ls: seq<Label>, t: Tid)
    requires size >= 2
    ensures var (s, es) := Exec(Exact, Init(size), ls);
            && InClaimOrder(s) && Delivers(es) == s.taken
            && ClaimsOf(s.claims[..|s.taken|], t) <= Accepts(es, t) + Unfinished(s, t)
  {
    ExecKeepsInv(size, ls);
    HistoryMatchesAnswers(size, ls, t);
    ClaimsOfPrefix(Exec(Exact, Init(size), ls).0.claims, |Exec(Exact, Init(size), ls).0.taken|, t);
  }

  // ------------------------------------------------------------------ capacity one

  ghost predicate OrderedForAllRuns(size: nat)
    requires size > 0
  {
    forall ls :: InClaimOrder(Exec(Exact, Init(size), ls).0)
  }

  /** Extends a run of the one-slot queue by a step. */
  lemma Extend(s: State, ls: seq<Label>, l: Label) returns (s': State, ls': seq<Label>)
    requires Exec(Exact, Init(1), ls).0 == s
    ensures s' == Step(Exact, s, l).0 && Exec(Exact, Init(1), ls').0 == s'
  {
    s', ls' := Step(Exact, s, l).0, ls + [l];
    ExecSnoc(Exact, Init(1), ls, l);
  }

  /** Producer `t` claims the next position of the one-slot queue without interruption. */
  lemma ClaimAlone(s: State, ls: seq<Label>, t: Tid, m: Message) returns (s': State, ls': seq<Label>)
    requires Exec(Exact, Init(1), ls).0 == s && s.Producer(t) == Outside && s.slots[0].sequence == s.write
    ensures Exec(Exact, Init(1), ls').0 == s'
    ensures s' == s.(write := s.write + 1, producers := s.producers[t := WriteMessage(m, s.write)],
                     claims := s.claims + [Claimed(t, m)])
  {
    var w := s.write;
    OneSlot(w);
    s', ls' := Extend(s, ls, Enqueue(t, m));
    assert s' == SetProducer(s, t, LoadSequence(m, w));
    s', ls' := Extend(s', ls', Go(t, false));
    assert s'.producers == s.producers[t := Claim(m, w)];
    s', ls' := Extend(s', ls', Go(t, false));
    assert s'.producers == s.producers[t := WriteMessage(m, w)];
  }

  /** What a producer's last two accesses do to the one slot. */
  lemma FillOneSlot(s: State, t: Tid, m: Message, w: int)
    requires s.size == |s.slots| == 1
    ensures s.Producer(t) == WriteMessage(m, w) ==>
              Step(Exact, s, Go(t, false)).0
              == s.(slots := [Slot(s.slots[0].sequence, m)], producers := s.producers[t := Publish(m, w)])
    ensures s.Producer(t) == Publish(m, w) ==>
              Step(Exact, s, Go(t, false)).0
              == s.(slots := [Slot(w + 1, s.slots[0].message)], producers := s.producers[t := Outside])
  {
    OneSlot(w);
    assert s.slots == [s.slots[0]];
  }

  /** Then it fills and publishes it: the slot of whatever was there before. */
  lemma FillAlone(s: State, ls: seq<Label>, t: Tid, m: Message, w: int) returns (s': State, ls': seq<Label>)
    requires s.size == |s.slots| == 1
    requires Exec(Exact, Init(1), ls).0 == s && s.Producer(t) == WriteMessage(m, w)
    ensures Exec(Exact, Init(1), ls').0 == s'
    ensures s' == s.(slots := [Slot(w + 1, m)], producers := s.producers[t := Outside])
  {
    FillOneSlot(s, t, m, w);
    s', ls' := Extend(s, ls, Go(t, false));
    FillOneSlot(s', t, m, w);
    s', ls' := Extend(s', ls', Go(t, false));
    assert s'.producers == s.producers[t := Outside];
  }

  lemma EnqueueAlone(s: State, ls: seq<Label>, t: Tid, m: Message) returns (s': State, ls': seq<Label>)
    requires Exec(Exact, Init(1), ls).0 == s && s.Producer(t) == Outside && s.slots[0].sequence == s.write
    ensures Exec(Exact, Init(1), ls').0 == s'
    ensures s' == s.(slots := [Slot(s.write + 1, m)], write := s.write + 1,
                     producers := s.producers[t := Outside], claims := s.claims + [Claimed(t, m)])
  {
    var w := s.write;
    s', ls' := ClaimAlone(s, ls, t, m);
    s', ls' := FillAlone(s', ls', t, m, w);
    assert s'.producers == s.producers[t := Outside];
  }

  lemma OneSlot(x: int)
    ensures Arith.Exact.Index(x, 1) == 0
  {
  }

  /** The consumer takes from the one-slot queue without interruption. */
  lemma DequeueAlone(s: State, ls: seq<Label>) returns (s': State, ls': seq<Label>)
    requires Exec(Exact, Init(1), ls).0 == s && s.consumer == Resting && s.slots[0].sequence > s.read
    ensures Exec(Exact, Init(1), ls').0 == s'
    ensures s'.taken == s.taken + [s.slots[0].message] && s'.claims == s.claims
  {
    var r, m := s.read, s.slots[0].message;
    OneSlot(r);
    s', ls' := Extend(s, ls, Dequeue);
    s', ls' := Extend(s', ls', Consume);
    assert s' == s.(consumer := ReadMessage(r));
    s', ls' := Extend(s', ls', Consume);
    assert s' == s.(consumer := ClearMessage(r, m));
    s', ls' := Extend(s', ls', Consume);
    assert s'.consumer == StoreRead(r, m) && s'.taken == s.taken && s'.claims == s.claims;
    s', ls' := Extend(s', ls', Consume);
    assert s'.consumer == Release(r, m) && s'.taken == s.taken && s'.claims == s.claims;
    s', ls' := Extend(s', ls', Consume);
  }

  /** With one slot, "published for position p" and "released for position p + 1" are the
      same number: a second producer overwrites a message nobody has read. */
  lemma CapacityOneLosesAMessage() returns (ls: seq<Label>)
    ensures !InClaimOrder(Exec(Exact, Init(1), ls).0)
  {
    var s;
    var i := Init(1);
    assert i.slots == [Slot(0, NOBODY)] && Exec(Exact, i, []).0 == i;
    s, ls := EnqueueAlone(i, [], 1, 11);
    s, ls := EnqueueAlone(s, ls, 2, 22);
    assert s.claims[0] == Claimed(1, 11);
    s, ls := DequeueAlone(s, ls);
    assert s.taken[0] == 22;
  }

  /** The capacity decides: all runs deliver in order exactly when there are two slots or
      more, that is, when the constructor asks for at least two. */
  lemma OrderedExactlyFromTwo(requested: nat)
    ensures OrderedForAllRuns(BitCeil(requested)) <==> requested >= 2
  {
    if requested >= 2 {
      forall ls ensures InClaimOrder(Exec(Exact, Init(BitCeil(requested)), ls).0) {
        ExecKeepsInv(BitCeil(requested), ls);
      }
    } else {
      assert BitCeil(requested) == 1;
      var ls := CapacityOneLosesAMessage();
    }
  }
}
