/** The work-stealing queue as an object in memory.

    The fields and the array are the machine's; the code of each operation is written
    against interference: before every atomic access the other threads may make any
    number of accesses of their own.  The ghost fields tie the memory to the protocol
    (`st`) and record what every thread has been answered so far (`log`). */
module WorkStealingQueues {
  import opened Handles
  import opened Words
  import opened Deque
  import opened DequeMachine

  datatype StealState = Empty | Success | Abort

  /** Who is executing. */
  datatype Party = OwnerSide | ThiefSide(t: Tid)

  predicate Foreign(me: Party, l: Label) {
    match l
    case Steal(t) => me != ThiefSide(t)
    case Go(t) => me != ThiefSide(t)
    case _ => me != OwnerSide
  }

  /** The part of the protocol state only `me` writes. */
  predicate SamePart(me: Party, s: State, s': State) {
    match me
    case OwnerSide => s'.owner == s.owner && s'.bottom == s.bottom && s'.slots == s.slots
    case ThiefSide(t) => s'.Thief(t) == s.Thief(t)
  }

  function Continue(me: Party): Label {
    match me
    case OwnerSide => Own
    case ThiefSide(t) => Go(t)
  }

  /** Step `l` of party `me` only reads memory. */
  predicate ReadOnly(s: State, me: Party, l: Label) {
    match l
    case Push(_) => me == OwnerSide
    case Pop => me == OwnerSide
    case Own => me == OwnerSide && (s.owner.PushTop? || s.owner.PopTop? || s.owner.PopSlot?)
    case Steal(t) => me == ThiefSide(t)
    case Go(t) => me == ThiefSide(t) && (s.Thief(t).StealBottom? || s.Thief(t).StealSlot?)
  }

  lemma {:induction false} ForeignKeepsPart(me: Party, s: State, ls: seq<Label>)
    requires Shaped(s) && forall l :: l in ls ==> Foreign(me, l)
    ensures SamePart(me, s, Exec(Word, s, ls).0)
  {
    if ls != [] {
      ForeignKeepsPart(me, s, ls[..|ls| - 1]);
      assert ls[|ls| - 1] in ls;
    }
  }

  class WorkStealingQueue {
    var top: int
    var bottom: int
    const queue: array<Handle>
    ghost const k: nat
    ghost var hist: seq<Label>
    ghost var st: State
    ghost var log: seq<Event>

    ghost predicate Recorded()
      reads this
    {
      && queue.Length == Pow2(k) < TWO63 && |hist| < TWO63 - 1
      && Exec(Word, Init(queue.Length), hist) == (st, log)
    }

    ghost predicate Valid()
      reads this, queue
    {
      Recorded() && top == st.top && bottom == st.bottom && queue[..] == st.slots
    }

    constructor (ghost k: nat, size: nat)
      requires size == Pow2(k) < TWO63
      ensures Valid() && fresh(queue) && queue.Length == size && hist == []
    {
      top, bottom := 0, 0;
      queue := new Handle[size](_ => NULL);
      this.k := k;
      hist, st, log := [], Init(size), [];
      new;
      assert queue[..] == st.slots;
    }

    /** Any number of accesses by the other threads.  Callers rely on the contract alone:
        it allows whatever leaves our own part alone, hence (`ForeignKeepsPart`) every run
        of the others after which `room` more accesses fit below 2^63 - 1. */
    method Interfere(ghost me: Party, ghost room: nat)
      requires Valid() && |hist| + room < TWO63 - 1
      modifies this, queue
      ensures Valid() && |hist| + room < TWO63 - 1 && old(hist) <= hist && SamePart(me, old(st), st)
    {
    }

    /** Book-keeping for one access of our own. */
    ghost method Record(l: Label)
      requires Recorded() && |hist| < TWO63 - 2
      modifies this`hist, this`st, this`log
      ensures Recorded() && hist == old(hist) + [l]
      ensures (st, log) == (Step(Word, old(st), l).0, old(log) + [Step(Word, old(st), l).1])
    {
      ExecSnoc(Word, Init(queue.Length), hist, l);
      var (s', e) := Step(Word, st, l);
      hist, st, log := hist + [l], s', log + [e];
    }

    /** Access `l` was taken in state `s`, which the others reached without touching ours. */
    ghost predicate Taken(me: Party, before: State, s: State, l: Label)
      reads this
    {
      && Shaped(s) && s.n == queue.Length && SamePart(me, before, s)
      && st == Step(Word, s, l).0 && |log| > 0 && log[|log| - 1] == Step(Word, s, l).1
    }

    // The atomic accesses.  Each lets the others run first, makes its access and takes the
    // matching protocol step `l`.  `s` is the protocol state at the access.

    method LoadTop(ghost me: Party, ghost l: Label, ghost room: nat) returns (tp: int, ghost s: State)
      requires Valid() && |hist| + room + 1 < TWO63 - 1 && ReadOnly(st, me, l)
      modifies this, queue
      ensures Valid() && |hist| + room < TWO63 - 1 && old(hist) < hist
      ensures tp == s.top && Taken(me, old(st), s, l)
    {
      Interfere(me, room + 1);
      tp, s := top, st;
      Record(l);
    }

    method LoadBottom(ghost me: Party, ghost l: Label, ghost room: nat) returns (bt: int, ghost s: State)
      requires Valid() && |hist| + room + 1 < TWO63 - 1 && ReadOnly(st, me, l)
      modifies this, queue
      ensures Valid() && |hist| + room < TWO63 - 1 && old(hist) < hist
      ensures bt == s.bottom && Taken(me, old(st), s, l)
    {
      Interfere(me, room + 1);
      bt, s := bottom, st;
      Record(l);
    }

    method LoadSlot(w: int, ghost me: Party, ghost l: Label, ghost room: nat)
      returns (h: Handle, ghost s: State)
      requires Valid() && |hist| + room + 1 < TWO63 - 1 && ReadOnly(st, me, l)
      modifies this, queue
      ensures Valid() && |hist| + room < TWO63 - 1 && old(hist) < hist
      ensures Taken(me, old(st), s, l) && h == s.slots[Arith.Word.Index(w, s.n)]
    {
      Interfere(me, room + 1);
      h, s := queue[Arith.Word.Index(w, queue.Length)], st;
      Record(l);
    }

    method StoreBottom(v: int, ghost room: nat) returns (ghost s: State)
      requires Valid() && |hist| + room + 1 < TWO63 - 1
      requires match st.owner
               case PushBottom(_, bt) => v == Arith.Word.Norm(bt + 1)
               case PopBottom(bt) => v == bt
               case PopRestore(bt, _, _) => v == Arith.Word.Norm(bt + 1)
               case _ => false
      modifies this, queue
      ensures Valid() && |hist| + room < TWO63 - 1 && old(hist) < hist
      ensures Taken(OwnerSide, old(st), s, Own)
    {
      Interfere(OwnerSide, room + 1);
      bottom, s := v, st;
      Record(Own);
    }

    method StoreSlot(w: int, h: Handle, ghost room: nat) returns (ghost s: State)
      requires Valid() && |hist| + room + 1 < TWO63 - 1 && st.owner == PushSlot(h, w)
      modifies this, queue
      ensures Valid() && |hist| + room < TWO63 - 1 && old(hist) < hist
      ensures Taken(OwnerSide, old(st), s, Own)
    {
      Interfere(OwnerSide, room + 1);
      s := st;
      queue[Arith.Word.Index(w, queue.Length)] := h;
      Record(Own);
    }

    method CasTop(tp: int, ghost me: Party, ghost room: nat) returns (won: bool, ghost s: State)
      requires Valid() && |hist| + room + 1 < TWO63 - 1
      requires match me
               case OwnerSide => st.owner.PopCas? && st.owner.tp == tp
               case ThiefSide(t) => st.Thief(t).StealCas? && st.Thief(t).tp == tp
      modifies this, queue
      ensures Valid() && |hist| + room < TWO63 - 1 && old(hist) < hist
      ensures won == (s.top == tp) && Taken(me, old(st), s, Continue(me))
    {
      Interfere(me, room + 1);
      won, s := top == tp, st;
      if won {
        top := Arith.Word.Norm(tp + 1);
      }
      Record(Continue(me));
    }

    /** The last answer is one the sequential deque permits at that moment. */
    ghost predicate Answered(e: Event)
      reads this
    {
      |log| > 0 && log[|log| - 1] == e && Permits(queue.Length, Replay(log[..|log| - 1]), e)
    }

    lemma LastPermitted()
      requires Recorded() && |log| > 0
      ensures Permits(queue.Length, Replay(log[..|log| - 1]), log[|log| - 1])
    {
      ShortRunsAgree(queue.Length, hist);
      MachineLinearizable(queue.Length, k, hist);
      assert PermittedAt(queue.Length, log, |log| - 1);
    }

    /** Push at the bottom; refused exactly when the deque is full at the load of `top`. */
    method Push(handle: Handle) returns (ok: bool)
      requires Valid() && st.owner == Ready && |hist| + 4 < TWO63 - 1
      modifies this, queue
      ensures Valid() && st.owner == Ready && old(hist) < hist
      ensures Answered(PushDone(handle, ok))
    {
      ghost var s;
      var bt, tp;
      bt, s := LoadBottom(OwnerSide, Deque.Push(handle), 3);
      tp, s := LoadTop(OwnerSide, Own, 2);
      if Arith.Word.Norm(bt - tp) >= queue.Length {
        ok := false;
      } else {
        s := StoreSlot(bt, handle, 1);
        s := StoreBottom(Arith.Word.Norm(bt + 1), 0);
        ok := true;
      }
      LastPermitted();
    }

    /** The end of a pop that found one task: race the thieves for it, then restore `bottom`. */
    method PopLast(bt: int, ptr: Handle) returns (handle: Handle)
      requires Valid() && st.owner == PopCas(bt, bt, ptr) && |hist| + 2 < TWO63 - 1
      modifies this, queue
      ensures Valid() && st.owner == Ready && old(hist) < hist
      ensures |log| > 0 && log[|log| - 1] == PopDone(handle)
    {
      ghost var s;
      var won;
      won, s := CasTop(bt, OwnerSide, 1);
      handle := if won then ptr else NULL;
      s := StoreBottom(Arith.Word.Norm(bt + 1), 0);
    }

    /** Pop at the bottom. */
    method Pop() returns (state: StealState, handle: Handle)
      requires Valid() && st.owner == Ready && |hist| + 6 < TWO63 - 1
      modifies this, queue
      ensures Valid() && st.owner == Ready && old(hist) < hist
      ensures Answered(PopDone(handle))
      ensures state == if handle == NULL then Empty else Success
    {
      ghost var s;
      var bt, tp;
      bt, s := LoadBottom(OwnerSide, Deque.Pop, 5);
      bt := Arith.Word.Norm(bt - 1);
      s := StoreBottom(bt, 4);
      tp, s := LoadTop(OwnerSide, Own, 3);
      if Arith.Word.Signed(tp) <= Arith.Word.Signed(bt) {
        handle, s := LoadSlot(bt, OwnerSide, Own, 2);
        if tp == bt {
          handle := PopLast(bt, handle);
        }
      } else {
        handle := NULL;
        s := StoreBottom(Arith.Word.Norm(bt + 1), 0);
      }
      state := if handle == NULL then Empty else Success;
      LastPermitted();
    }

    /** Steal at the top. */
    method Steal(ghost t: Tid) returns (state: StealState, handle: Handle)
      requires Valid() && st.Thief(t) == Away && |hist| + 4 < TWO63 - 1
      modifies this, queue
      ensures Valid() && st.Thief(t) == Away && old(hist) < hist
      ensures Answered(match state
                       case Empty => StealEmpty(t)
                       case Success => Stolen(t, handle)
                       case Abort => StealAbort(t))
      ensures state != Success ==> handle == NULL
    {
      ghost var s;
      var tp, bt, won;
      tp, s := LoadTop(ThiefSide(t), Deque.Steal(t), 3);
      bt, s := LoadBottom(ThiefSide(t), Go(t), 2);
      if Arith.Word.Signed(tp) < Arith.Word.Signed(bt) {
        handle, s := LoadSlot(tp, ThiefSide(t), Go(t), 1);
        won, s := CasTop(tp, ThiefSide(t), 0);
        if won {
          state := Success;
        } else {
          state, handle := Abort, NULL;
        }
      } else {
        state, handle := Empty, NULL;
      }
      LastPermitted();
    }
  }
}
