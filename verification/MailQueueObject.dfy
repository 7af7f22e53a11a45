/** The mail queue as an object in memory, its operations written against interference
    before every atomic access, on 64-bit words and an array of slots. */
module MailQueues {
  import opened Words
  import opened Protocol = MailQueue
  import opened MailQueueMachine

  datatype Party = ProducerSide(t: Tid) | ConsumerSide

  /** What only `me` writes. */
  predicate SamePart(me: Party, s: State, s': State) {
    match me
    case ProducerSide(t) => s'.Producer(t) == s.Producer(t)
    case ConsumerSide => s'.consumer == s.consumer && s'.read == s.read && s'.taken == s.taken
  }

  predicate Foreign(me: Party, l: Label) {
    match l
    case Enqueue(t, _) => me != ProducerSide(t)
    case Go(t, _) => me != ProducerSide(t)
    case _ => me != ConsumerSide
  }

  /** How many of the accesses are those of producer `t`. */
  function StepsOf(ls: seq<Label>, t: Tid): nat {
    if ls == [] then 0
    else StepsOf(ls[..|ls| - 1], t) + if Foreign(ProducerSide(t), ls[|ls| - 1]) then 0 else 1
  }

  lemma StepsOfSnoc(ls: seq<Label>, l: Label, t: Tid)
    ensures StepsOf(ls + [l], t) == StepsOf(ls, t) + if Foreign(ProducerSide(t), l) then 0 else 1
  {
    assert (ls + [l])[..|ls|] == ls;
  }

  lemma {:induction false} ForeignKeepsPart(me: Party, hist: seq<Label>, s: State, ls: seq<Label>)
    requires Shaped(s) && forall l :: l in ls ==> Foreign(me, l)
    ensures SamePart(me, s, Exec(Word, s, ls).0)
    ensures me.ProducerSide? ==> StepsOf(hist + ls, me.t) == StepsOf(hist, me.t)
  {
    if ls == [] {
      assert hist + ls == hist;
    } else {
      ForeignKeepsPart(me, hist, s, ls[..|ls| - 1]);
      assert ls[|ls| - 1] in ls;
      assert hist + ls == hist + ls[..|ls| - 1] + [ls[|ls| - 1]];
      if me.ProducerSide? {
        StepsOfSnoc(hist + ls[..|ls| - 1], ls[|ls| - 1], me.t);
      }
    }
  }

  datatype EnqueueResult = Enqueued | Full | Contended

  class MailQueue {
    var writeIndex: int
    var readIndex: int
    const queue: array<Slot>
    ghost const k: nat
    ghost var hist: seq<Label>
    ghost var st: State
    ghost var log: seq<Event>

    ghost predicate Recorded()
      reads this
    {
      && queue.Length == Pow2(k) && |hist| + queue.Length < TWO63
      && Exec(Word, Init(queue.Length), hist) == (st, log)
    }

    /** So many more accesses fit below the bound. */
    ghost predicate Room(accesses: int)
      reads this
    {
      |hist| + accesses + queue.Length < TWO63
    }

    ghost predicate Valid()
      reads this, queue
    {
      Recorded() && writeIndex == st.write && readIndex == st.read && queue[..] == st.slots
    }

    /** Rounds the requested size up to a power of two and numbers the slots. */
    constructor (requested: nat)
      requires requested < TWO63 / 2
      ensures Valid() && fresh(queue) && queue.Length == BitCeil(requested) && hist == []
    {
      var size := BitCeil(requested);
      BitCeilIsPow2(requested);
      ghost var j: nat :| size == Pow2(j);
      k := j;
      writeIndex, readIndex := 0, 0;
      queue := new Slot[size](_ => Slot(0, NOBODY));
      hist, st, log := [], Init(size), [];
      new;
      var i := 0;
      while i != size
        invariant 0 <= i <= size == queue.Length && fresh(queue)
        invariant writeIndex == readIndex == 0 && hist == [] && st == Init(size) && log == []
        invariant forall x :: 0 <= x < i ==> queue[x] == Slot(x, NOBODY)
      {
        queue[i] := Slot(i, NOBODY);
        i := i + 1;
      }
      assert queue[..] == st.slots;
    }

    /** Any number of accesses by the other threads, as far as they leave our part alone and
        leave `room` for that many more below the bound. */
    method Interfere(ghost me: Party, ghost room: nat)
      requires Valid() && Room(room)
      modifies this, queue
      ensures Valid() && Room(room)
      ensures old(hist) <= hist && SamePart(me, old(st), st)
      ensures me.ProducerSide? ==> StepsOf(hist, me.t) == StepsOf(old(hist), me.t)
    {
    }

    /** Book-keeping for one access of our own. */
    ghost method Record(l: Label)
      requires Recorded() && Room(1)
      modifies this`hist, this`st, this`log
      ensures Recorded() && hist == old(hist) + [l]
      ensures (st, log) == (Step(Word, old(st), l).0, old(log) + [Step(Word, old(st), l).1])
    {
      ExecSnoc(Word, Init(queue.Length), hist, l);
      var (s', e) := Step(Word, st, l);
      hist, st, log := hist + [l], s', log + [e];
    }

    /** Access `l` was taken in state `s`, which the others reached without touching ours. */
    ghost predicate Taken(me: Party, before: State, s: State, l: Label)
      reads this
    {
      && Shaped(s) && s.size == queue.Length && SamePart(me, before, s)
      && st == Step(Word, s, l).0 && |log| > 0 && log[|log| - 1] == Step(Word, s, l).1
    }

    method LoadWriteIndex(ghost t: Tid, ghost l: Label, ghost room: nat) returns (w: int, ghost s: State)
      requires Valid() && Room(room + 1)
      requires (l.Enqueue? && l.t == t) || (l == Go(t, false) && st.Producer(t).LoadWrite?)
      modifies this, queue
      ensures Valid() && Room(room) && old(hist) < hist
      ensures w == s.write && Taken(ProducerSide(t), old(st), s, l)
      ensures StepsOf(hist, t) == StepsOf(old(hist), t) + 1
    {
      Interfere(ProducerSide(t), room + 1);
      w, s := writeIndex, st;
      StepsOfSnoc(hist, l, t);
      Record(l);
    }

    method LoadReadIndex(ghost room: nat) returns (r: int, ghost s: State)
      requires Valid() && Room(room + 1) && st.consumer == Resting
      modifies this, queue
      ensures Valid() && Room(room) && old(hist) < hist
      ensures r == s.read && Taken(ConsumerSide, old(st), s, Dequeue)
    {
      Interfere(ConsumerSide, room + 1);
      r, s := readIndex, st;
      Record(Dequeue);
    }

    /** Loads the sequence number of the slot at `w`. */
    method LoadSequenceAt(w: int, ghost me: Party, ghost room: nat) returns (sequence: int, ghost s: State)
      requires Valid() && Room(room + 1)
      requires match me
               case ProducerSide(t) => st.Producer(t).LoadSequence?
               case ConsumerSide => st.consumer.CheckSequence?
      modifies this, queue
      ensures Valid() && Room(room) && old(hist) < hist
      ensures Taken(me, old(st), s, Continue(me))
      ensures sequence == s.slots[Arith.Word.Index(w, s.size)].sequence
      ensures me.ProducerSide? ==> StepsOf(hist, me.t) == StepsOf(old(hist), me.t) + 1
    {
      Interfere(me, room + 1);
      sequence, s := queue[Arith.Word.Index(w, queue.Length)].sequence, st;
      if me.ProducerSide? {
        StepsOfSnoc(hist, Continue(me), me.t);
      }
      Record(Continue(me));
    }

    /** The weak compare-and-swap on the write index: it may fail without cause (`spurious`). */
    method ClaimIndex(w: int, spurious: bool, ghost t: Tid, ghost m: Message, ghost room: nat)
      returns (won: bool, ghost s: State)
      requires Valid() && Room(room + 1) && st.Producer(t) == Claim(m, w)
      modifies this, queue
      ensures Valid() && Room(room) && old(hist) < hist
      ensures Taken(ProducerSide(t), old(st), s, Go(t, spurious)) && (won <==> s.write == w && !spurious)
      ensures StepsOf(hist, t) == StepsOf(old(hist), t) + 1
    {
      Interfere(ProducerSide(t), room + 1);
      s := st;
      won := writeIndex == w && !spurious;
      if won {
        writeIndex := Arith.Word.Norm(w + 1);
      }
      StepsOfSnoc(hist, Go(t, spurious), t);
      Record(Go(t, spurious));
    }

    method StoreMessage(w: int, m: Message, ghost t: Tid, ghost room: nat) returns (ghost s: State)
      requires Valid() && Room(room + 1) && st.Producer(t) == WriteMessage(m, w)
      modifies this, queue
      ensures Valid() && Room(room) && old(hist) < hist
      ensures Taken(ProducerSide(t), old(st), s, Go(t, false))
    {
      Interfere(ProducerSide(t), room + 1);
      s := st;
      var i := Arith.Word.Index(w, queue.Length);
      queue[i] := queue[i].(message := m);
      Record(Go(t, false));
    }

    method PublishSequence(w: int, ghost m: Message, ghost t: Tid, ghost room: nat) returns (ghost s: State)
      requires Valid() && Room(room + 1) && st.Producer(t) == Publish(m, w)
      modifies this, queue
      ensures Valid() && Room(room) && old(hist) < hist
      ensures Taken(ProducerSide(t), old(st), s, Go(t, false))
    {
      Interfere(ProducerSide(t), room + 1);
      s := st;
      var i := Arith.Word.Index(w, queue.Length);
      queue[i] := queue[i].(sequence := Arith.Word.Norm(w + 1));
      Record(Go(t, false));
    }

    method LoadMessage(r: int, ghost room: nat) returns (m: Message, ghost s: State)
      requires Valid() && Room(room + 1) && st.consumer == ReadMessage(r)
      modifies this, queue
      ensures Valid() && Room(room) && old(hist) < hist
      ensures Taken(ConsumerSide, old(st), s, Consume) && m == s.slots[Arith.Word.Index(r, s.size)].message
    {
      Interfere(ConsumerSide, room + 1);
      m, s := queue[Arith.Word.Index(r, queue.Length)].message, st;
      Record(Consume);
    }

    method EraseMessage(r: int, ghost m: Message, ghost room: nat) returns (ghost s: State)
      requires Valid() && Room(room + 1) && st.consumer == ClearMessage(r, m)
      modifies this, queue
      ensures Valid() && Room(room) && old(hist) < hist
      ensures Taken(ConsumerSide, old(st), s, Consume)
    {
      Interfere(ConsumerSide, room + 1);
      s := st;
      var i := Arith.Word.Index(r, queue.Length);
      queue[i] := queue[i].(message := NOBODY);
      Record(Consume);
    }

    method StoreReadIndex(r: int, ghost m: Message, ghost room: nat) returns (ghost s: State)
      requires Valid() && Room(room + 1) && st.consumer == StoreRead(r, m)
      modifies this, queue
      ensures Valid() && Room(room) && old(hist) < hist
      ensures Taken(ConsumerSide, old(st), s, Consume)
    {
      Interfere(ConsumerSide, room + 1);
      s := st;
      readIndex := Arith.Word.Norm(r + 1);
      Record(Consume);
    }

    method ReleaseSequence(r: int, ghost m: Message, ghost room: nat) returns (ghost s: State)
      requires Valid() && Room(room + 1) && st.consumer == Release(r, m)
      modifies this, queue
      ensures Valid() && Room(room) && old(hist) < hist
      ensures Taken(ConsumerSide, old(st), s, Consume)
    {
      Interfere(ConsumerSide, room + 1);
      s := st;
      var i := Arith.Word.Index(r, queue.Length);
      queue[i] := queue[i].(sequence := Arith.Word.Norm(r + queue.Length));
      Record(Consume);
    }

    lemma InOrder()
      requires Recorded() && queue.Length >= 2
      ensures InClaimOrder(st)
    {
      MachineDeliversInOrder(queue.Length, k, hist, 0);
    }

    /** The last answer; with two slots or more it is truthful. */
    ghost predicate Answered(e: Event)
      reads this
    {
      && |log| > 0 && log[|log| - 1] == e && |hist| > 0
      && (queue.Length >= 2 ==> Honest(Exec(Word, Init(queue.Length), hist[..|hist| - 1]).0, e))
    }

    lemma LastHonest()
      requires Recorded() && |hist| > 0
      ensures Answered(log[|log| - 1])
    {
      if queue.Length >= 2 {
        MachineIsHonest(queue.Length, k, hist[..|hist| - 1], hist[|hist| - 1]);
      }
    }

    /** One turn of the retry loop: settled, or the write index loaded again. */
    method Attempt(w: int, m: Message, spurious: bool, ghost t: Tid, ghost room: nat) returns (result: EnqueueResult, next: int)
      requires Valid() && st.Producer(t) == LoadSequence(m, w) && Room(room + 4)
      modifies this, queue
      ensures Valid() && old(hist) < hist && Room(room)
      ensures match result
              case Enqueued => |log| > 0 && log[|log| - 1] == Accepted(t, m) && st.Producer(t) == Outside
              case Full => |log| > 0 && log[|log| - 1] == Rejected(t, m) && st.Producer(t) == Outside
              case Contended => st.Producer(t) == LoadSequence(m, next) && StepsOf(hist, t) >= StepsOf(old(hist), t) + 2
    {
      ghost var s;
      var sequence, won;
      next := w;
      sequence, s := LoadSequenceAt(w, ProducerSide(t), room + 3);
      var diff := Arith.Word.Signed(sequence) - Arith.Word.Signed(w);
      if diff < 0 {
        return Full, w;
      }
      if diff == 0 {
        won, s := ClaimIndex(w, spurious, t, m, room + 2);
        if won {
          s := StoreMessage(w, m, t, room + 1);
          s := PublishSequence(w, m, t, room);
          return Enqueued, w;
        }
      }
      next, s := LoadWriteIndex(t, Go(t, false), room);
      result := Contended;
    }

    /** Offers a message.  The retry loop runs until the claim is settled; it gives up after as
        many lost races as `spurious`, which says where the weak compare-and-swap fails without
        cause, has entries.  Each of these took two accesses at least. */
    method TryEnqueue(m: Message, spurious: seq<bool>, ghost t: Tid) returns (result: EnqueueResult)
      requires Valid() && st.Producer(t) == Outside && Room(4 * |spurious| + 1)
      modifies this, queue
      ensures Valid() && (queue.Length >= 2 ==> InClaimOrder(st)) && old(hist) < hist
      ensures match result
              case Enqueued => Answered(Accepted(t, m)) && st.Producer(t) == Outside
              case Full => Answered(Rejected(t, m)) && st.Producer(t) == Outside
              case Contended =>
                st.Producer(t).LoadSequence? && StepsOf(hist, t) >= StepsOf(old(hist), t) + 2 * |spurious| + 1
    {
      ghost var s;
      var w;
      w, s := LoadWriteIndex(t, Enqueue(t, m), 4 * |spurious|);
      result := Contended;
      var left := |spurious|;
      while left > 0 && result == Contended
        invariant 0 <= left <= |spurious| && Valid() && old(hist) < hist && Room(4 * left)
        invariant match result
                  case Enqueued => |log| > 0 && log[|log| - 1] == Accepted(t, m) && st.Producer(t) == Outside
                  case Full => |log| > 0 && log[|log| - 1] == Rejected(t, m) && st.Producer(t) == Outside
                  case Contended =>
                    st.Producer(t) == LoadSequence(m, w) && StepsOf(hist, t) >= StepsOf(old(hist), t) + 2 * (|spurious| - left) + 1
        decreases left
      {
        result, w := Attempt(w, m, spurious[|spurious| - left], t, 4 * (left - 1));
        left := left - 1;
      }
      if queue.Length >= 2 {
        InOrder();
      }
      LastHonest();
    }

    /** Takes the message of the published position `r` and hands the slot back. */
    method TakeAt(r: int) returns (m: Message)
      requires Valid() && st.consumer == ReadMessage(r) && Room(4)
      modifies this, queue
      ensures Valid() && st.consumer == Resting && old(hist) < hist && st.taken == old(st.taken) + [m]
      ensures |log| > 0 && log[|log| - 1] == Delivered(m)
    {
      ghost var s;
      m, s := LoadMessage(r, 3);
      s := EraseMessage(r, m, 2);
      s := StoreReadIndex(r, m, 1);
      s := ReleaseSequence(r, m, 0);
    }

    /** The accesses of `try_dequeue`. */
    method Receive() returns (ok: bool, m: Message)
      requires Valid() && st.consumer == Resting && Room(6)
      modifies this, queue
      ensures Valid() && st.consumer == Resting && old(hist) < hist
      ensures |log| > 0 && log[|log| - 1] == (if ok then Delivered(m) else NoMessage)
      ensures st.taken == if ok then old(st.taken) + [m] else old(st.taken)
    {
      ghost var s;
      var r, sequence;
      r, s := LoadReadIndex(5);
      sequence, s := LoadSequenceAt(r, ConsumerSide, 4);
      var diff := Arith.Word.Signed(sequence) - Arith.Word.Signed(Arith.Word.Norm(r + 1));
      if diff < 0 {
        ok, m := false, NOBODY;
      } else {
        m := TakeAt(r);
        ok := true;
      }
    }

    /** Takes the next message in claim order, if it is published. */
    method TryDequeue() returns (ok: bool, m: Message)
      requires Valid() && st.consumer == Resting && Room(6)
      modifies this, queue
      ensures Valid() && st.consumer == Resting && old(hist) < hist
      ensures Answered(if ok then Delivered(m) else NoMessage)
      ensures st.taken == if ok then old(st.taken) + [m] else old(st.taken)
      ensures queue.Length >= 2 ==> |st.taken| <= |st.claims| && (ok ==> m == st.claims[|old(st.taken)|].m)
    {
      ok, m := Receive();
      LastHonest();
      if queue.Length >= 2 {
        InOrder();
      }
    }
  }

  function Continue(me: Party): Label {
    match me
    case ProducerSide(t) => Go(t, false)
    case ConsumerSide => Consume
  }
}
