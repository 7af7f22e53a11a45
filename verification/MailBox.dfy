/** The mailbox wake-up protocol on top of the mail queue.

    One consumer coroutine, armed before it is first scheduled, drains the queue and then
    suspends; any number of senders publish messages and, when they find the `scheduled`
    flag clear, put the coroutine back into the scheduler.  Worker threads resume it.  The
    end of `await_suspend` may still be running on one worker while another worker has
    already resumed the coroutine. */
module MailBox {
  import opened Words
  import Q = MailQueue

  type Tid = nat
  type Wid = nat

  /** A sender past a successful `try_enqueue`. */
  datatype Sender = Absent | Exchange | LoadConsumer | Enqueue

  /** The coroutine body: first run, the drain loop, `await_ready`, and `await_suspend` up
      to the exchange that clears `scheduled`. */
  datatype Body =
    | Start
    | Drain
    | ReadyLoad
    | ReadyCheck(r: int)
    | StoreConsumer
    | Unschedule

  /** The rest of `await_suspend`, when the coroutine counts as suspended. */
  datatype Tail = RecheckLoad | Recheck(r: int) | Reclaim

  datatype Worker = Free | InBody(b: Body) | InTail(c: Tail)

  /** History: who currently has the right to run the coroutine. */
  datatype Holder = NoOne | QueuedHandle | SendingThread(t: Tid) | RunningOn(w: Wid)

  datatype State = State(
    q: Q.State,
    scheduled: bool,
    queued: nat,
    started: bool,
    senders: map<Tid, Sender>,
    workers: map<Wid, Worker>,
    holder: Holder)
  {
    function Sender(t: Tid): Sender {
      if t in senders then senders[t] else Absent
    }

    function Worker(w: Wid): Worker {
      if w in workers then workers[w] else Free
    }
  }

  /** The state after `ArmConsumer` and the first `Enqueue` of the handle. */
  function Init(size: nat): State {
    State(Q.Init(size), true, 1, false, map[], map[], QueuedHandle)
  }

  datatype Label =
    | Send(t: Tid, m: Q.Message)
    | SendGo(t: Tid, spurious: bool)
    | Resume(w: Wid)
    | WorkGo(w: Wid)

  function SetSender(s: State, t: Tid, p: Sender): State {
    s.(senders := s.senders[t := p])
  }

  function SetWorker(s: State, w: Wid, p: Worker): State {
    s.(workers := s.workers[w := p])
  }

  function SendStep(s: State, t: Tid, spurious: bool): (s': State)
    requires Q.Shaped(s.q)
    ensures Q.Shaped(s'.q)
  {
    match s.Sender(t)
    case Absent =>
      var (q', e) := Q.Step(Exact, s.q, Q.Go(t, spurious));
      if e.Accepted? then SetSender(s.(q := q'), t, Exchange) else s.(q := q')
    case Exchange =>
      if s.scheduled then SetSender(s, t, Absent)
      else SetSender(s, t, LoadConsumer).(scheduled := true, holder := SendingThread(t))
    case LoadConsumer => SetSender(s, t, Enqueue)
    case Enqueue => SetSender(s, t, Absent).(queued := s.queued + 1, holder := QueuedHandle)
  }

  function BodyStep(s: State, w: Wid, b: Body): (s': State)
    requires Q.Shaped(s.q)
    ensures Q.Shaped(s'.q)
  {
    match b
    case Start => SetWorker(s, w, InBody(Drain)).(scheduled := true)
    case Drain =>
      var (q', e) := Q.Step(Exact, s.q, if s.q.consumer.Resting? then Q.Dequeue else Q.Consume);
      if e.NoMessage? then SetWorker(s, w, InBody(ReadyLoad)).(q := q') else s.(q := q')
    case ReadyLoad => SetWorker(s, w, InBody(ReadyCheck(s.q.read)))
    case ReadyCheck(r) => SetWorker(s, w, InBody(if Q.Available(Exact, s.q, r) then Drain else StoreConsumer))
    case StoreConsumer => SetWorker(s, w, InBody(Unschedule))
    case Unschedule => SetWorker(s, w, InTail(RecheckLoad)).(scheduled := false, holder := NoOne)
  }

  function TailStep(s: State, w: Wid, c: Tail): (s': State)
    requires Q.Shaped(s.q)
    ensures Q.Shaped(s'.q)
  {
    match c
    case RecheckLoad => SetWorker(s, w, InTail(Recheck(s.q.read)))
    case Recheck(r) => SetWorker(s, w, if Q.Available(Exact, s.q, r) then InTail(Reclaim) else Free)
    case Reclaim =>
      if s.scheduled then SetWorker(s, w, Free)
      else SetWorker(s, w, InBody(Drain)).(scheduled := true, holder := RunningOn(w))
  }

  function Step(s: State, l: Label): (s': State)
    requires Q.Shaped(s.q)
    ensures Q.Shaped(s'.q)
  {
    match l
    case Send(t, m) =>
      if s.Sender(t).Absent? then s.(q := Q.Step(Exact, s.q, Q.Enqueue(t, m)).0) else s
    case SendGo(t, spurious) => SendStep(s, t, spurious)
    case Resume(w) =>
      if s.queued > 0 && s.Worker(w).Free? then
        SetWorker(s, w, InBody(if s.started then Drain else Start))
        .(queued := s.queued - 1, started := true, holder := RunningOn(w))
      else s
    case WorkGo(w) =>
      match s.Worker(w)
      case Free => s
      case InBody(b) => BodyStep(s, w, b)
      case InTail(c) => TailStep(s, w, c)
  }

  function Exec(s: State, ls: seq<Label>): (s': State)
    requires Q.Shaped(s.q)
    ensures Q.Shaped(s'.q)
  {
    if ls == [] then s else Step(Exec(s, ls[..|ls| - 1]), ls[|ls| - 1])
  }

  // ------------------------------------------------------------------ invariant

  /** Exactly the holder is in a position to run the coroutine. */
  ghost predicate TokenInv(s: State) {
    && (s.scheduled <==> s.holder != NoOne)
    && s.queued == (if s.holder == QueuedHandle then 1 else 0)
    && (forall t :: (s.Sender(t).LoadConsumer? || s.Sender(t).Enqueue?) <==> s.holder == SendingThread(t))
    && (forall w :: s.Worker(w).InBody? <==> s.holder == RunningOn(w))
  }

  /** `try_dequeue` is only ever inside the running body, and loaded indices are not newer
      than the read index. */
  ghost predicate ConsumerInv(s: State) {
    && (!s.q.consumer.Resting? ==> s.holder.RunningOn? && s.Worker(s.holder.w) == InBody(Drain))
    && (forall w :: s.Worker(w).InBody? && s.Worker(w).b.ReadyCheck? ==> s.Worker(w).b.r == s.q.read)
    && (forall w :: s.Worker(w).InTail? && s.Worker(w).c.Recheck? ==> 0 <= s.Worker(w).c.r <= s.q.read)
    && (forall t :: !s.Sender(t).Absent? ==> s.q.Producer(t).Outside?)
  }

  /** Someone is about to look at the flag or at the queue again. */
  ghost predicate WakeupPending(s: State) {
    (exists t :: s.Sender(t).Exchange?) || (exists w :: s.Worker(w).InTail?)
  }

  ghost predicate Inv(s: State) {
    && Q.Inv(s.q) && TokenInv(s) && ConsumerInv(s)
    && (!s.scheduled && Q.Published(s.q, s.q.read) ==> WakeupPending(s))
  }

  lemma InitInv(size: nat)
    requires size >= 2
    ensures Inv(Init(size))
  {
    Q.InitInv(size);
  }

  /** What a producer's step may change in the queue. */
  lemma ProducerFrame(q: Q.State, l: Q.Label)
    requires Q.Inv(q) && (l.Enqueue? || l.Go?)
    ensures var (q', e) := Q.Step(Exact, q, l);
            && Q.Inv(q') && q'.read == q.read && q'.consumer == q.consumer
            && (forall u :: u != l.t ==> q'.Producer(u) == q.Producer(u))
            && (e.Accepted? ==> q'.Producer(l.t).Outside?)
            && (Q.Published(q', q.read) && !Q.Published(q, q.read) ==> e.Accepted?)
  {
    Q.StepKeepsInv(q, l);
    var (q', e) := Q.Step(Exact, q, l);
    assert Q.SlotInv(q, q.read);
    if l.Go? && q.Producer(l.t).Claim? && !e.Accepted? {
      assert Q.ProducerInv(q, l.t, q.producers[l.t]);
    }
  }

  /** What the consumer's step may change in the queue. */
  lemma ConsumerFrame(q: Q.State, l: Q.Label)
    requires Q.Inv(q) && (l.Dequeue? || l.Consume?)
    ensures var (q', e) := Q.Step(Exact, q, l);
            && Q.Inv(q') && q.read <= q'.read && q'.producers == q.producers
            && (e.NoMessage? ==> q'.consumer.Resting?)
  {
    Q.StepKeepsInv(q, l);
  }

  lemma OfferKeepsInv(s: State, t: Tid, spurious: bool)
    requires Inv(s) && s.Sender(t).Absent?
    ensures Inv(SendStep(s, t, spurious))
  {
    ProducerFrame(s.q, Q.Go(t, spurious));
    var (q', e) := Q.Step(Exact, s.q, Q.Go(t, spurious));
    QueueStepKeepsInv(s, t, q', e.Accepted?);
  }

  /** Any step of a producer inside the queue; `done` says that its message was accepted. */
  lemma QueueStepKeepsInv(s: State, t: Tid, q: Q.State, done: bool)
    requires Inv(s) && s.Sender(t).Absent? && Q.Inv(q) && q.read == s.q.read && q.consumer == s.q.consumer
    requires forall u :: u != t ==> q.Producer(u) == s.q.Producer(u)
    requires done ==> q.Producer(t).Outside?
    requires Q.Published(q, s.q.read) && !Q.Published(s.q, s.q.read) ==> done
    ensures var s' := s.(q := q); Inv(if done then SetSender(s', t, Exchange) else s')
  {
    var s' := if done then SetSender(s.(q := q), t, Exchange) else s.(q := q);
    assert TokenInv(s') && ConsumerInv(s');
    if !s.scheduled && Q.Published(q, q.read) {
      if Q.Published(s.q, s.q.read) {
        PendingStays(s, s', t);
      } else {
        assert s'.Sender(t).Exchange?;
      }
    }
  }

  lemma SignalKeepsInv(s: State, t: Tid, spurious: bool)
    requires Inv(s) && !s.Sender(t).Absent?
    ensures Inv(SendStep(s, t, spurious))
  {
    var s' := SendStep(s, t, spurious);
    assert s'.scheduled;
  }

  /** A sender that was absent moves; everyone about to look again is still there. */
  lemma PendingStays(s: State, s': State, t: Tid)
    requires WakeupPending(s) && s.Sender(t).Absent? && s'.workers == s.workers
    requires forall u :: u != t ==> s'.Sender(u) == s.Sender(u)
    ensures WakeupPending(s')
  {
    if u :| s.Sender(u).Exchange? {
      assert s'.Sender(u).Exchange?;
    } else {
      var w :| s.Worker(w).InTail?;
      assert s'.Worker(w).InTail?;
    }
  }

  lemma BodyKeepsInv(s: State, w: Wid)
    requires Inv(s) && s.Worker(w).InBody?
    ensures Inv(BodyStep(s, w, s.Worker(w).b))
  {
    var b := s.Worker(w).b;
    assert s.holder == RunningOn(w);
    if b.Drain? {
      DrainKeepsInv(s, w);
    } else {
      assert b.Unschedule? ==> BodyStep(s, w, b).Worker(w).InTail?;
    }
  }

  lemma DrainKeepsInv(s: State, w: Wid)
    requires Inv(s) && s.Worker(w) == InBody(Drain)
    ensures Inv(BodyStep(s, w, Drain))
  {
    var s' := BodyStep(s, w, Drain);
    assert s.holder == RunningOn(w);
    ConsumerFrame(s.q, if s.q.consumer.Resting? then Q.Dequeue else Q.Consume);
    assert TokenInv(s') && ConsumerInv(s') && s'.scheduled;
  }

  lemma TailKeepsInv(s: State, w: Wid)
    requires Inv(s) && s.Worker(w).InTail?
    ensures Inv(TailStep(s, w, s.Worker(w).c))
  {
    var c := s.Worker(w).c;
    var s' := TailStep(s, w, c);
    if c.RecheckLoad? || (c.Recheck? && Q.Available(Exact, s.q, c.r)) {
      assert s'.Worker(w).InTail?;
    } else if c.Recheck? {
      Q.UnavailableMeansUnpublished(s.q, c.r);
    }
  }

  lemma StepKeepsInv(s: State, l: Label)
    requires Inv(s)
    ensures Inv(Step(s, l))
  {
    match l
    case Send(t, m) =>
      if s.Sender(t).Absent? {
        ProducerFrame(s.q, Q.Enqueue(t, m));
        QueueStepKeepsInv(s, t, Q.Step(Exact, s.q, Q.Enqueue(t, m)).0, false);
      }
    case SendGo(t, spurious) =>
      if s.Sender(t).Absent? {
        OfferKeepsInv(s, t, spurious);
      } else {
        SignalKeepsInv(s, t, spurious);
      }
    case Resume(w) =>
    case WorkGo(w) =>
      if s.Worker(w).InBody? {
        BodyKeepsInv(s, w);
      } else if s.Worker(w).InTail? {
        TailKeepsInv(s, w);
      }
  }

  lemma {:induction false} ExecKeepsInv(size: nat, ls: seq<Label>)
    requires size >= 2
    ensures Inv(Exec(Init(size), ls))
  {
    if ls == [] {
      InitInv(size);
    } else {
      ExecKeepsInv(size, ls[..|ls| - 1]);
      StepKeepsInv(Exec(Init(size), ls[..|ls| - 1]), ls[|ls| - 1]);
    }
  }

  // ------------------------------------------------------------------ what it guarantees

  /** The threads and queue entries that are able to run the coroutine. */
  predicate MayRun(s: State, h: Holder) {
    match h
    case NoOne => false
    case QueuedHandle => s.queued > 0
    case SendingThread(t) => s.Sender(t).LoadConsumer? || s.Sender(t).Enqueue?
    case RunningOn(w) => s.Worker(w).InBody?
  }

  /** One token: at every moment of every run the flag is set exactly when somebody is able
      to run the coroutine, that somebody is unique, and the handle is queued at most once. */
  lemma SingleToken(size: nat, ls: seq<Label>)
    requires size >= 2
    ensures var s := Exec(Init(size), ls);
            && (s.scheduled <==> exists h :: MayRun(s, h))
            && (forall h, g :: MayRun(s, h) && MayRun(s, g) ==> h == g)
            && s.queued <= 1
  {
    ExecKeepsInv(size, ls);
    var s := Exec(Init(size), ls);
    assert s.scheduled ==> MayRun(s, s.holder);
  }

  /** Nobody is inside `Send`, `await_suspend` or the coroutine, and it is not queued. */
  ghost predicate Asleep(s: State) {
    && s.queued == 0
    && (forall t :: s.Sender(t).Absent? && s.q.Producer(t).Outside?)
    && (forall w :: s.Worker(w).Free?)
  }

  /** No lost wake-up: whenever the consumer sleeps and no sender is at work, every message
      ever accepted has been delivered. */
  lemma NoLostWakeup(size: nat, ls: seq<Label>)
    requires size >= 2
    ensures var s := Exec(Init(size), ls);
            Asleep(s) ==> !s.scheduled && |s.q.taken| == |s.q.claims|
  {
    ExecKeepsInv(size, ls);
    var s := Exec(Init(size), ls);
    if Asleep(s) {
      assert !WakeupPending(s);
      assert Q.SlotInv(s.q, s.q.read);
    }
  }

  /** The finer statement while senders are active: with the flag clear, a published message
      at the read index always has somebody who is about to notice it, even when a later
      position was published first. */
  lemma PublishedIsNoticed(size: nat, ls: seq<Label>)
    requires size >= 2
    ensures var s := Exec(Init(size), ls);
            Q.Shaped(s.q) && (!s.scheduled && Q.Published(s.q, s.q.read) ==> WakeupPending(s))
  {
    ExecKeepsInv(size, ls);
  }

  /** `Send` past its publication always ends, whoever else is at work: three steps of its own
      take it out, with the flag set, and it has queued the handle exactly if it is the one that
      set the flag. */
  lemma SendFinishes(size: nat, ls: seq<Label>, t: Tid)
    requires size >= 2
    ensures var s := Exec(Init(size), ls);
            var own := SendGo(t, false);
            var s' := Step(Step(Step(s, own), own), own);
            !s.Sender(t).Absent? ==>
              && s'.Sender(t).Absent? && s'.scheduled && s'.q == s.q && s'.workers == s.workers
              && s'.queued == s.queued + if s.Sender(t).Exchange? && s.scheduled then 0 else 1
  {
    ExecKeepsInv(size, ls);
    var s := Exec(Init(size), ls);
    var s1 := SendStep(s, t, false);
    if s.Sender(t).Exchange? && !s.scheduled {
      assert s1.Sender(t).LoadConsumer? && SendStep(s1, t, false).Sender(t).Enqueue?;
    } else if s.Sender(t).LoadConsumer? {
      assert s1.Sender(t).Enqueue?;
    }
  }

  /** The queue inside every reachable mailbox still delivers in claim order, although the
      consumer's accesses come from different workers over time. */
  lemma MailboxDeliversInOrder(size: nat, ls: seq<Label>)
    requires size >= 2
    ensures Q.InClaimOrder(Exec(Init(size), ls).q)
  {
    ExecKeepsInv(size, ls);
  }
}
