/** The scheduler: workers, their deques, the global queue and the parking protocol.

    Workers take single atomic accesses of any deque, or whole critical sections of the
    global queue, in any interleaving.  `notify_one` calls are delivered later, to any
    waiter, and a waiter may wake without a signal. */
module Scheduler {
  import opened Handles
  import opened Words
  import D = Deque
  import opened G = GlobalQueue
  import opened Rotation

  /** Whether the search runs before or after `prepare_park`, and the epoch it returned. */
  datatype Ctx = Active | Idle(e: nat)

  /** Program counter of a worker; each names what comes next. */
  datatype Pc =
    | Begin(c: Ctx)
    | TickPop(c: Ctx)
    | LocalPop(c: Ctx)
    | GlobalPop(c: Ctx)
    | Stealing(c: Ctx, start: nat, i: nat)
    | VictimTop(c: Ctx, v: nat, h: Handle)
    | VictimBottom(c: Ctx, v: nat, h: Handle, tp: int)
    | VictimNotify(c: Ctx, v: nat, h: Handle)
    | Got(c: Ctx, h: Handle)
    | Running
    | LocalPush(h: Handle)
    | OwnTop
    | OwnBottom(tp: int)
    | OwnNotify
    | GlobalPush(h: Handle)
    | Prepare
    | Park(e: nat)
    | Waiting(e: nat)
    | Exited

  datatype State = State(
    n: nat,
    deques: seq<D.State>,
    pcs: seq<Pc>,
    g: View,
    running: bool,
    signals: nat,
    broadcast: bool)

  /** What the running task does next. */
  datatype Act = Submit(h: Handle) | SubmitBatch(hs: seq<Handle>) | Finish

  /** `tick` and `start` stand for the tick counter and the random first victim. */
  datatype Label =
    | Work(w: nat, tick: bool, start: nat, act: Act)
    | Inject(hs: seq<Handle>)
    | Deliver(w: nat)
    | Spurious(w: nat)
    | DeliverAll
    | StopRunning
    | StopQueue

  predicate Shaped(s: State) {
    && s.n > 0 && |s.deques| == s.n && |s.pcs| == s.n
    && forall v :: 0 <= v < s.n ==> D.Shaped(s.deques[v])
  }

  function Init(n: nat, capacity: nat): State {
    State(n, seq(n, _ => D.Init(capacity)), seq(n, _ => Begin(Active)), View([], 0, 0, false), true, 0, false)
  }

  function At(s: State, w: nat, pc: Pc): (s': State)
    requires w < |s.pcs|
    ensures Shaped(s) ==> Shaped(s')
  {
    s.(pcs := s.pcs[w := pc])
  }

  function StealStep(s: State, w: nat, c: Ctx, start: nat, i: nat): (s': State)
    requires Shaped(s) && w < s.n
    ensures Shaped(s') && s'.n == s.n
  {
    if i >= s.n then At(s, w, if c.Active? then Prepare else Park(c.e))
    else
      var v := Target(s.n, start, i);
      if v == w then At(s, w, Stealing(c, start, i + 1))
      else
        var d := s.deques[v];
        var (d', e) := D.Step(Exact, d, if d.Thief(w).Away? then D.Steal(w) else D.Go(w));
        InDeque(s, w, v, d', AfterSteal(c, start, i, v, e))
  }

  /** Where the loop goes with the answer of a deque operation; `Tau` means not done yet. */
  function AfterPop(c: Ctx, e: D.Event): Pc {
    if !e.PopDone? then LocalPop(c) else if e.h != NULL then Got(c, e.h) else GlobalPop(c)
  }

  function AfterPush(h: Handle, e: D.Event): Pc {
    if !e.PushDone? then LocalPush(h) else if e.ok then OwnTop else GlobalPush(h)
  }

  function AfterSteal(c: Ctx, start: nat, i: nat, v: nat, e: D.Event): Pc {
    match e
    case Stolen(_, h) => VictimTop(c, v, h)
    case StealEmpty(_) => Stealing(c, start, i + 1)
    case StealAbort(_) => Stealing(c, start, i + 1)
    case _ => Stealing(c, start, i)
  }

  function InDeque(s: State, w: nat, v: nat, d: D.State, pc: Pc): (s': State)
    requires w < |s.pcs| && v < |s.deques|
    ensures Shaped(s) && D.Shaped(d) ==> Shaped(s')
  {
    At(s.(deques := s.deques[v := d]), w, pc)
  }

  function LocalPopStep(s: State, w: nat, c: Ctx): (s': State)
    requires Shaped(s) && w < s.n
    ensures Shaped(s') && s'.n == s.n
  {
    var d := s.deques[w];
    var (d', e) := D.Step(Exact, d, if d.owner.Ready? then D.Pop else D.Own);
    InDeque(s, w, w, d', AfterPop(c, e))
  }

  function LocalPushStep(s: State, w: nat, h: Handle): (s': State)
    requires Shaped(s) && w < s.n
    ensures Shaped(s') && s'.n == s.n
  {
    var d := s.deques[w];
    var (d', e) := D.Step(Exact, d, if d.owner.Ready? then D.Push(h) else D.Own);
    InDeque(s, w, w, d', AfterPush(h, e))
  }

  /** A critical section that may bump the epoch; its `notify_one` calls are still to come. */
  function Signalled(s: State, r: (View, nat)): (s': State)
    ensures Shaped(s) ==> Shaped(s')
  {
    s.(g := r.0, signals := s.signals + r.1)
  }

  function NoNulls(hs: seq<Handle>): bool {
    forall i :: 0 <= i < |hs| ==> hs[i] != NULL
  }

  function Global(s: State, g: View): (s': State)
    ensures Shaped(s) ==> Shaped(s')
  {
    s.(g := g)
  }

  function TaskStep(s: State, w: nat, act: Act): (s': State)
    requires Shaped(s) && w < s.n
    ensures Shaped(s') && s'.n == s.n
  {
    match act
    case Submit(h) => if h != NULL then At(s, w, LocalPush(h)) else s
    case SubmitBatch(hs) => if NoNulls(hs) then Signalled(s, PushBack(s.g, hs)) else s
    case Finish => At(s, w, Begin(Active))
  }

  function WorkStep(s: State, w: nat, tick: bool, start: nat, act: Act): (s': State)
    requires Shaped(s) && w < s.n
    ensures Shaped(s') && s'.n == s.n
  {
    match s.pcs[w]
    case Begin(c) =>
      if c.Active? && !s.running then At(s, w, Exited)
      else At(s, w, if tick then TickPop(c) else LocalPop(c))
    case TickPop(c) =>
      var (g, h) := PopFront(s.g);
      At(Global(s, g), w, if h != NULL then Got(c, h) else LocalPop(c))
    case LocalPop(c) => LocalPopStep(s, w, c)
    case GlobalPop(c) =>
      var (g, h) := PopFront(s.g);
      At(Global(s, g), w, if h != NULL then Got(c, h) else Stealing(c, if start < s.n then start else 0, 0))
    case Stealing(c, first, i) => StealStep(s, w, c, first, i)
    case VictimTop(c, v, h) =>
      if v < s.n then At(s, w, VictimBottom(c, v, h, s.deques[v].top)) else s
    case VictimBottom(c, v, h, tp) =>
      if v < s.n then At(s, w, if s.deques[v].bottom - tp > 1 then VictimNotify(c, v, h) else Got(c, h)) else s
    case VictimNotify(c, v, h) => At(Signalled(s, Bump(s.g)), w, Got(c, h))
    case Got(c, h) =>
      At(if c.Idle? then Global(s, s.g.(idle := s.g.idle - 1)) else s, w, Running)
    case Running => TaskStep(s, w, act)
    case LocalPush(h) => LocalPushStep(s, w, h)
    case OwnTop => At(s, w, OwnBottom(s.deques[w].top))
    case OwnBottom(tp) => At(s, w, if s.deques[w].bottom - tp > 1 then OwnNotify else Running)
    case OwnNotify => At(Signalled(s, Bump(s.g)), w, Running)
    case GlobalPush(h) => At(Signalled(s, PushBack(s.g, [h])), w, Running)
    case Prepare => At(Global(s, s.g.(idle := s.g.idle + 1)), w, Begin(Idle(s.g.epoch)))
    case Park(e) =>
      if MustLeave(s.g, e) then At(Global(s, s.g.(idle := s.g.idle - 1)), w, Begin(Active))
      else At(s, w, Waiting(e))
    case Waiting(e) => s
    case Exited => s
  }

  function Woken(pc: Pc): Pc {
    if pc.Waiting? then Park(pc.e) else pc
  }

  function FirstWoken(pcs: seq<Pc>, k: nat): (r: seq<Pc>)
    ensures |r| == |pcs|
  {
    seq(|pcs|, x requires 0 <= x < |pcs| => if x < k then Woken(pcs[x]) else pcs[x])
  }

  function Step(s: State, l: Label): (s': State)
    requires Shaped(s)
    ensures Shaped(s') && s'.n == s.n
  {
    match l
    case Work(w, tick, start, act) => if w < s.n then WorkStep(s, w, tick, start, act) else s
    case Inject(hs) => if NoNulls(hs) then Signalled(s, PushBack(s.g, hs)) else s
    case Deliver(w) =>
      if s.signals == 0 then s
      else if w < s.n && s.pcs[w].Waiting? then At(s, w, Woken(s.pcs[w])).(signals := s.signals - 1)
      else if forall x :: 0 <= x < s.n ==> !s.pcs[x].Waiting? then s.(signals := s.signals - 1)
      else s
    case Spurious(w) => if w < s.n then At(s, w, Woken(s.pcs[w])) else s
    case DeliverAll =>
      if s.broadcast then s.(pcs := FirstWoken(s.pcs, s.n), broadcast := false) else s
    case StopRunning => s.(running := false)
    case StopQueue =>
      if s.g.stopped then s
      else s.(g := s.g.(stopped := true, epoch := s.g.epoch + 1), broadcast := true)
  }

  function Exec(s: State, ls: seq<Label>): (s': State)
    requires Shaped(s)
    ensures Shaped(s') && s'.n == s.n
  {
    if ls == [] then s else Step(Exec(s, ls[..|ls| - 1]), ls[|ls| - 1])
  }

  // ------------------------------------------------------------------ invariant

  function CtxOf(pc: Pc): Ctx {
    match pc
    case Begin(c) => c
    case TickPop(c) => c
    case LocalPop(c) => c
    case GlobalPop(c) => c
    case Stealing(c, _, _) => c
    case VictimTop(c, _, _) => c
    case VictimBottom(c, _, _, _) => c
    case VictimNotify(c, _, _) => c
    case Got(c, _) => c
    case Park(e) => Idle(e)
    case Waiting(e) => Idle(e)
    case _ => Active
  }

  /** Tasks a thief that reads both counters now would count. */
  function Backlog(d: D.State): int {
    d.bottom - d.top
  }

  /** Worker `y` at `pc` has yet to look at, or to signal, the backlog of worker `v`. */
  predicate WillSignal(pc: Pc, y: nat, v: nat) {
    || ((pc.VictimTop? || pc.VictimBottom? || pc.VictimNotify?) && pc.v == v)
    || ((pc.OwnTop? || pc.OwnBottom? || pc.OwnNotify?) && y == v)
  }

  ghost predicate Covered(s: State, v: nat)
    requires Shaped(s) && v < s.n
  {
    Backlog(s.deques[v]) <= 1 || exists y :: 0 <= y < s.n && WillSignal(s.pcs[y], y, v)
  }

  /** The owner's place in its deque matches the worker's place in the loop. */
  predicate OwnerFits(pc: Pc, o: D.Owner) {
    match o
    case Ready => true
    case PushTop(h, _) => pc == LocalPush(h)
    case PushSlot(h, _) => pc == LocalPush(h)
    case PushBottom(h, _) => pc == LocalPush(h)
    case _ => pc.LocalPop?
  }

  predicate SearchedOwn(pc: Pc) {
    pc.GlobalPop? || pc.Stealing? || pc.Prepare? || pc.Park? || pc.Waiting?
  }

  predicate SearchedGlobal(pc: Pc) {
    pc.Stealing? || pc.Park? || pc.Waiting?
  }

  /** What worker `x` may rely on about itself, whatever the epoch. */
  predicate OwnInv(s: State, x: nat)
    requires Shaped(s) && x < s.n
  {
    var pc, d := s.pcs[x], s.deques[x];
    && (CtxOf(pc).Idle? ==> CtxOf(pc).e <= s.g.epoch)
    && OwnerFits(pc, d.owner)
    && (SearchedOwn(pc) ==> d.bottom <= d.top)
    && (pc.Stealing? ==> pc.i <= s.n && pc.start < s.n)
    && (pc.VictimTop? ==> pc.v < s.n)
    && (pc.VictimNotify? ==> pc.v < s.n)
    && (pc.VictimBottom? ==> pc.v < s.n && pc.tp <= s.deques[pc.v].top)
    && (pc.OwnBottom? ==> pc.tp <= d.top)
    && (pc.LocalPush? ==> pc.h != NULL)
    && (pc.GlobalPush? ==> pc.h != NULL)
  }

  /** Thief `x` is inside deque `v` only while the steal loop is at `v`. */
  predicate ThiefFits(s: State, x: nat, v: nat)
    requires Shaped(s) && x < s.n && v < s.n
  {
    s.deques[v].Thief(x).Away? ||
    (s.pcs[x].Stealing? && s.pcs[x].i < s.n && v == Target(s.n, s.pcs[x].start, s.pcs[x].i) && v != x)
  }

  /** What the search of an idle worker has established while the epoch stands. */
  ghost predicate SearchInv(s: State, x: nat)
    requires Shaped(s) && x < s.n
  {
    var pc := s.pcs[x];
    CtxOf(pc) == Idle(s.g.epoch) ==>
      && (SearchedGlobal(pc) ==> s.g.queue == [])
      && (pc.Stealing? ==>
            && (forall v :: 0 <= v < s.n && v != x && Turn(s.n, pc.start, v) < pc.i ==> Covered(s, v))
            && (pc.i < s.n ==>
                  var v := Target(s.n, pc.start, pc.i);
                  var th := s.deques[v].Thief(x);
                  v != x && !th.Away? && th.tp < s.deques[v].top ==> Covered(s, v)))
      && (pc.Park? || pc.Waiting? ==> forall v :: 0 <= v < s.n && v != x ==> Covered(s, v))
  }

  function IdleWorkers(pcs: seq<Pc>): set<nat> {
    set x | 0 <= x < |pcs| && CtxOf(pcs[x]).Idle?
  }

  function One(pc: Pc): int {
    if CtxOf(pc).Idle? then 1 else 0
  }

  ghost predicate DequeInv(d: D.State) {
    D.Inv(d) && NoNulls(D.Contents(d))
  }

  ghost predicate DequeOk(s: State, v: nat)
    requires Shaped(s) && v < s.n
  {
    DequeInv(s.deques[v])
  }

  /** Somebody is, or is about to be, awake whenever a bump has not been noticed. */
  ghost predicate AwakeInv(s: State)
    requires Shaped(s)
  {
    && (s.g.stopped && (exists x :: 0 <= x < s.n && s.pcs[x].Waiting?) ==> s.broadcast)
    && ((forall x :: 0 <= x < s.n ==> s.pcs[x].Waiting?) ==>
          s.signals > 0 || s.broadcast || exists x :: 0 <= x < s.n && s.pcs[x] == Waiting(s.g.epoch))
  }

  ghost predicate Inv(s: State) {
    && Shaped(s)
    && (forall v :: 0 <= v < s.n ==> DequeOk(s, v))
    && NoNulls(s.g.queue)
    && s.g.idle == |IdleWorkers(s.pcs)|
    && (forall x :: 0 <= x < s.n ==> OwnInv(s, x) && SearchInv(s, x))
    && (forall x, v :: 0 <= x < s.n && 0 <= v < s.n ==> ThiefFits(s, x, v))
    && AwakeInv(s)
  }

  // ------------------------------------------------------------------ one deque

  /** Counters of a deque across any access: the top never goes back, and the backlog grows
      only with a finished push. */
  lemma DequeCounters(d: D.State, l: D.Label)
    requires DequeInv(d)
    ensures var (d', e) := D.Step(Exact, d, l);
            && d.top <= d'.top
            && (!(e.PushDone? && e.ok) ==> Backlog(d') <= Backlog(d) || Backlog(d') <= 1)
            && (d.top < d'.top ==> e.Stolen? || Backlog(d') <= 1)
  {
    if l.Go? {
      assert l.t in d.thieves ==> D.ThiefInv(d, d.thieves[l.t]);
    }
  }

  /** What the answers say about the backlog. */
  lemma DequeAnswers(d: D.State, l: D.Label)
    requires DequeInv(d)
    ensures var (d', e) := D.Step(Exact, d, l);
            && (e.StealEmpty? ==> Backlog(d') <= 0)
            && (e.PopDone? && e.h == NULL ==> Backlog(d') <= 0)
            && (e.Stolen? ==> e.h != NULL)
  {
    D.StepRefines(d, l);
    if l.Go? {
      assert l.t in d.thieves ==> D.ThiefInv(d, d.thieves[l.t]);
    }
  }

  /** What any access does to a deque, as far as the other workers can tell. */
  lemma DequeStep(d: D.State, l: D.Label)
    requires DequeInv(d) && (l.Push? ==> l.h != NULL)
    requires D.Pushing(d.owner) ==> d.owner.h != NULL
    ensures var (d', e) := D.Step(Exact, d, l);
            && DequeInv(d')
            && d.top <= d'.top
            && (!(e.PushDone? && e.ok) ==> Backlog(d') <= Backlog(d) || Backlog(d') <= 1)
            && (d.top < d'.top ==> e.Stolen? || Backlog(d') <= 1)
            && (e.StealEmpty? ==> Backlog(d') <= 0)
            && (e.PopDone? && e.h == NULL ==> Backlog(d') <= 0)
            && (e.Stolen? ==> e.h != NULL)
  {
    DequeCounters(d, l);
    DequeAnswers(d, l);
    D.StepRefines(d, l);
  }

  /** Accesses of one party leave the others' places alone. */
  lemma DequeFrame(d: D.State, l: D.Label)
    requires DequeInv(d)
    ensures var d' := D.Step(Exact, d, l).0;
            && (l.Steal? || l.Go? ==> d'.owner == d.owner && d'.bottom == d.bottom)
            && (forall t :: !((l.Steal? || l.Go?) && l.t == t) ==> d'.Thief(t) == d.Thief(t))
  {
  }

  /** The places of a thief, and what its end of a steal says. */
  lemma ThiefAt(d: D.State, t: D.Tid)
    requires DequeInv(d)
    ensures var (d', e) := D.Step(Exact, d, if d.Thief(t).Away? then D.Steal(t) else D.Go(t));
            && (d.Thief(t).Away? ==> e == D.Tau && d'.Thief(t) == D.StealBottom(d.top) && d'.top == d.top)
            && (!d.Thief(t).Away? ==> d.Thief(t).tp <= d.top)
            && (e == D.Tau ==> !d'.Thief(t).Away? && d'.top == d.top)
            && (e == D.Tau && !d.Thief(t).Away? ==> d'.Thief(t).tp == d.Thief(t).tp)
            && (e != D.Tau ==> d'.Thief(t).Away? && (e.Stolen? || e.StealEmpty? || e.StealAbort?))
            && (e.StealAbort? ==> d'.top == d.top && d.Thief(t).tp < d.top)
            && (e.StealEmpty? ==> d'.top == d.top)
  {
    assert t in d.thieves ==> D.ThiefInv(d, d.thieves[t]);
  }

  // ------------------------------------------------------------------ rely

  /** What a step by worker `w` (or by nobody, `w == s.n`) guarantees to the others. */
  ghost predicate Guarantee(s: State, s': State, w: nat)
    requires Shaped(s) && Shaped(s') && s'.n == s.n
  {
    && s.g.epoch <= s'.g.epoch
    && (forall x :: 0 <= x < s.n && x != w ==> s'.pcs[x] == s.pcs[x])
    && (forall x :: 0 <= x < s.n && x != w ==>
          && s'.deques[x].owner == s.deques[x].owner
          && (s.deques[x].bottom <= s.deques[x].top ==> s'.deques[x].bottom <= s'.deques[x].top))
    && (forall x, v :: 0 <= x < s.n && x != w && 0 <= v < s.n ==> s'.deques[v].Thief(x) == s.deques[v].Thief(x))
    && (forall v :: 0 <= v < s.n ==> s.deques[v].top <= s'.deques[v].top)
    && (s'.g.epoch == s.g.epoch && s.g.idle > 0 ==>
          && (s.g.queue == [] ==> s'.g.queue == [])
          && (forall v :: 0 <= v < s.n && (Covered(s, v) || s.deques[v].top < s'.deques[v].top) ==> Covered(s', v)))
  }

  lemma IdleIsCounted(s: State, x: nat)
    requires Inv(s) && x < s.n && CtxOf(s.pcs[x]).Idle?
    ensures s.g.idle > 0
  {
    assert x in IdleWorkers(s.pcs);
  }

  /** The others' view survives any step that meets the guarantee. */
  lemma OthersKeepInv(s: State, s': State, w: nat, x: nat)
    requires Inv(s) && Shaped(s') && s'.n == s.n && Guarantee(s, s', w) && x < s.n && x != w
    ensures OwnInv(s', x) && SearchInv(s', x)
    ensures forall v :: 0 <= v < s.n ==> ThiefFits(s', x, v)
  {
    assert OwnInv(s, x) && SearchInv(s, x);
    forall v | 0 <= v < s.n ensures ThiefFits(s', x, v) {
      assert ThiefFits(s, x, v);
    }
    var pc := s.pcs[x];
    if CtxOf(pc) == Idle(s'.g.epoch) {
      IdleIsCounted(s, x);
      assert s'.g.epoch == s.g.epoch;
    }
  }

  /** The idle count follows the one worker that moved. */
  lemma IdleFollows(pcs: seq<Pc>, w: nat, pc: Pc)
    requires w < |pcs|
    ensures |IdleWorkers(pcs[w := pc])| == |IdleWorkers(pcs)| + One(pc) - One(pcs[w])
  {
    var a, b := IdleWorkers(pcs), IdleWorkers(pcs[w := pc]);
    if One(pc) == 1 {
      if One(pcs[w]) == 1 {
        assert b == a;
      } else {
        assert b == a + {w};
      }
    } else if One(pcs[w]) == 1 {
      assert b == a - {w};
    } else {
      assert b == a;
    }
  }

  /** The last worker to fall asleep has seen the current epoch. */
  lemma AwakeFollows(s: State, s': State, w: nat)
    requires Shaped(s) && Shaped(s') && s'.n == s.n && w < s.n && AwakeInv(s) && !s.pcs[w].Waiting?
    requires forall x :: 0 <= x < s.n && x != w ==> s'.pcs[x] == s.pcs[x]
    requires s'.pcs[w].Waiting? ==> s'.pcs[w] == Waiting(s'.g.epoch) && !s'.g.stopped
    requires s'.g.stopped == s.g.stopped && s'.broadcast == s.broadcast
    ensures AwakeInv(s')
  {
    if s'.g.stopped && exists x :: 0 <= x < s.n && s'.pcs[x].Waiting? {
      var x :| 0 <= x < s.n && s'.pcs[x].Waiting?;
      assert s.pcs[x].Waiting?;
    }
  }

  /** A step by worker `w` keeps the invariant once it meets the guarantee and keeps the
      worker's own part. */
  lemma WorkerKeepsInv(s: State, s': State, w: nat)
    requires Inv(s) && w < s.n && Shaped(s') && s'.n == s.n && Guarantee(s, s', w)
    requires forall v :: 0 <= v < s.n ==> DequeOk(s', v)
    requires NoNulls(s'.g.queue) && s'.g.idle == |IdleWorkers(s'.pcs)|
    requires OwnInv(s', w) && SearchInv(s', w)
    requires forall v :: 0 <= v < s.n ==> ThiefFits(s', w, v)
    requires AwakeInv(s')
    ensures Inv(s')
  {
    forall x | 0 <= x < s.n ensures OwnInv(s', x) && SearchInv(s', x) {
      if x != w {
        OthersKeepInv(s, s', w, x);
      }
    }
    forall x, v | 0 <= x < s.n && 0 <= v < s.n ensures ThiefFits(s', x, v) {
      if x != w {
        OthersKeepInv(s, s', w, x);
      }
    }
  }

  // ------------------------------------------------------------------ steps of a worker

  /** A pending signal is given up only once the backlog has been seen to be small. */
  predicate SignalsKept(s: State, w: nat, pc: Pc)
    requires Shaped(s) && w < s.n
  {
    forall v :: 0 <= v < s.n && WillSignal(s.pcs[w], w, v) ==> WillSignal(pc, w, v) || Backlog(s.deques[v]) <= 1
  }

  lemma CoverKept(s: State, s': State, w: nat, v: nat)
    requires Shaped(s) && Shaped(s') && s'.n == s.n && w < s.n && v < s.n && s'.deques == s.deques
    requires s'.pcs == s.pcs[w := s'.pcs[w]] && SignalsKept(s, w, s'.pcs[w]) && Covered(s, v)
    ensures Covered(s', v)
  {
    if Backlog(s.deques[v]) > 1 {
      var y :| 0 <= y < s.n && WillSignal(s.pcs[y], y, v);
      assert WillSignal(s'.pcs[y], y, v);
    }
  }

  /** Outside the steal loop, and between victims, the worker is in nobody's deque. */
  lemma NoThiefPlace(s: State, w: nat, v: nat)
    requires Inv(s) && w < s.n && v < s.n
    requires !s.pcs[w].Stealing? || s.pcs[w].i >= s.n || Target(s.n, s.pcs[w].start, s.pcs[w].i) != v || v == w
    ensures s.deques[v].Thief(w).Away?
  {
    assert ThiefFits(s, w, v);
  }

  /** Steps that leave all deques alone and do not add to the global queue. */
  lemma MoveKeepsInv(s: State, w: nat, pc: Pc, g: View)
    requires Inv(s) && w < s.n && !s.pcs[w].Waiting?
    requires g.epoch == s.g.epoch && g.stopped == s.g.stopped && NoNulls(g.queue)
    requires s.g.queue == [] ==> g.queue == []
    requires g.idle == s.g.idle + One(pc) - One(s.pcs[w])
    requires SignalsKept(s, w, pc)
    requires pc.Waiting? ==> pc == Waiting(s.g.epoch) && !s.g.stopped
    requires s.pcs[w].Stealing? ==> s.pcs[w].i >= s.n || Target(s.n, s.pcs[w].start, s.pcs[w].i) == w
    requires Shaped(At(s.(g := g), w, pc))
    requires OwnInv(At(s.(g := g), w, pc), w) && SearchInv(At(s.(g := g), w, pc), w)
    ensures Inv(At(s.(g := g), w, pc))
  {
    var s' := At(s.(g := g), w, pc);
    IdleFollows(s.pcs, w, pc);
    forall v | 0 <= v < s.n ensures DequeOk(s', v) {
      assert DequeOk(s, v);
    }
    forall v | 0 <= v < s.n && (Covered(s, v) || s.deques[v].top < s'.deques[v].top) ensures Covered(s', v) {
      CoverKept(s, s', w, v);
    }
    forall v | 0 <= v < s.n ensures ThiefFits(s', w, v) {
      NoThiefPlace(s, w, v);
    }
    AwakeFollows(s, s', w);
    WorkerKeepsInv(s, s', w);
  }

  lemma SearchOver(s: State, w: nat)
    requires Inv(s) && w < s.n && s.pcs[w].Stealing? && s.pcs[w].i == s.n && CtxOf(s.pcs[w]) == Idle(s.g.epoch)
    ensures s.g.queue == [] && forall v :: 0 <= v < s.n && v != w ==> Covered(s, v)
  {
    assert OwnInv(s, w) && SearchInv(s, w);
    forall v | 0 <= v < s.n && v != w ensures Covered(s, v) {
      TurnOfTarget(s.n, s.pcs[w].start, 0, v);
    }
  }

  lemma PopKeepsNoNulls(g: View)
    requires NoNulls(g.queue)
    ensures NoNulls(PopFront(g).0.queue) && (PopFront(g).1 == NULL ==> g.queue == [])
    ensures g.queue == [] ==> PopFront(g).0.queue == []
  {
  }

  /** Steps that start a search, take a task found, or register as idle. */
  lemma PlainStepKeepsInv(s: State, w: nat, pc: Pc, g: View)
    requires Inv(s) && w < s.n && g == s.g.(idle := g.idle)
    requires match s.pcs[w]
             case Begin(c) => g == s.g && (pc == Exited || pc == TickPop(c) || pc == LocalPop(c)) && (pc == Exited ==> c.Active?)
             case Got(c, h) => pc == Running && g.idle == s.g.idle - One(s.pcs[w])
             case Prepare => pc == Begin(Idle(s.g.epoch)) && g.idle == s.g.idle + 1
             case _ => false
    ensures Inv(At(s.(g := g), w, pc))
  {
    assert OwnInv(s, w);
    assert SignalsKept(s, w, pc);
    MoveKeepsInv(s, w, pc, g);
  }

  lemma PopStepKeepsInv(s: State, w: nat, tick: bool, start: nat, act: Act)
    requires Inv(s) && w < s.n && (s.pcs[w].TickPop? || s.pcs[w].GlobalPop?)
    ensures Inv(WorkStep(s, w, tick, start, act))
  {
    var s' := WorkStep(s, w, tick, start, act);
    assert OwnInv(s, w);
    PopKeepsNoNulls(s.g);
    assert SignalsKept(s, w, s'.pcs[w]);
    if s'.pcs[w].Stealing? {
      NoThiefPlace(s, w, Target(s.n, s'.pcs[w].start, 0));
    }
    assert OwnInv(s', w);
    assert SearchInv(s', w);
    MoveKeepsInv(s, w, s'.pcs[w], s'.g);
  }

  lemma CheckStepKeepsInv(s: State, w: nat, tick: bool, start: nat, act: Act)
    requires Inv(s) && w < s.n
    requires s.pcs[w].VictimTop? || s.pcs[w].VictimBottom? || s.pcs[w].OwnTop? || s.pcs[w].OwnBottom?
    ensures Inv(WorkStep(s, w, tick, start, act))
  {
    var s' := WorkStep(s, w, tick, start, act);
    assert OwnInv(s, w);
    MoveKeepsInv(s, w, s'.pcs[w], s'.g);
  }

  lemma ParkStepKeepsInv(s: State, w: nat, tick: bool, start: nat, act: Act)
    requires Inv(s) && w < s.n && s.pcs[w].Park?
    ensures Inv(WorkStep(s, w, tick, start, act))
  {
    var s' := WorkStep(s, w, tick, start, act);
    assert OwnInv(s, w) && SearchInv(s, w);
    assert SignalsKept(s, w, s'.pcs[w]);
    if CtxOf(s'.pcs[w]) == Idle(s.g.epoch) {
      forall v | 0 <= v < s.n && v != w ensures Covered(s', v) {
        CoverKept(s, s', w, v);
      }
    }
    MoveKeepsInv(s, w, s'.pcs[w], s'.g);
  }

  /** A search that moves on from a covered victim has covered one worker more. */
  lemma SearchMovesOn(s: State, s': State, w: nat, v: nat)
    requires Shaped(s) && Shaped(s') && s'.n == s.n && s'.g == s.g && w < s.n && v < s.n
    requires var pc := s.pcs[w];
             && pc.Stealing? && pc.start < s.n && pc.i < s.n && v == Target(s.n, pc.start, pc.i)
             && s'.pcs[w] == Stealing(pc.c, pc.start, pc.i + 1)
             && (pc.i + 1 < s.n ==> s'.deques[Target(s.n, pc.start, pc.i + 1)].Thief(w).Away?)
    requires SearchInv(s, w) && forall u :: 0 <= u < s.n && Covered(s, u) ==> Covered(s', u)
    requires v != w && CtxOf(s.pcs[w]) == Idle(s.g.epoch) ==> Covered(s', v)
    ensures SearchInv(s', w)
  {
    var pc := s.pcs[w];
    forall u | 0 <= u < s.n && u != w && CtxOf(pc) == Idle(s.g.epoch) && Turn(s.n, pc.start, u) < pc.i + 1
      ensures Covered(s', u)
    {
      TurnOfTarget(s.n, pc.start, pc.i, u);
    }
  }

  /** The steal loop passes over its own worker. */
  lemma SkipSelfKeepsInv(s: State, w: nat)
    requires Inv(s) && w < s.n && s.pcs[w].Stealing? && s.pcs[w].i < s.n
    requires Target(s.n, s.pcs[w].start, s.pcs[w].i) == w
    ensures Inv(At(s, w, Stealing(s.pcs[w].c, s.pcs[w].start, s.pcs[w].i + 1)))
  {
    var pc := s.pcs[w];
    var pc' := Stealing(pc.c, pc.start, pc.i + 1);
    var s' := At(s, w, pc');
    assert OwnInv(s, w) && SearchInv(s, w);
    assert SignalsKept(s, w, pc');
    forall v | 0 <= v < s.n && Covered(s, v) ensures Covered(s', v) {
      CoverKept(s, s', w, v);
    }
    if pc'.i < s.n {
      NoThiefPlace(s, w, Target(s.n, pc'.start, pc'.i));
    }
    SearchMovesOn(s, s', w, w);
    MoveKeepsInv(s, w, pc', s.g);
  }

  /** The end of a search that found nothing. */
  lemma SearchEndKeepsInv(s: State, w: nat)
    requires Inv(s) && w < s.n && s.pcs[w].Stealing? && s.pcs[w].i >= s.n
    ensures Inv(At(s, w, if s.pcs[w].c.Active? then Prepare else Park(s.pcs[w].c.e)))
  {
    var pc := s.pcs[w];
    var pc' := if pc.c.Active? then Prepare else Park(pc.c.e);
    var s' := At(s, w, pc');
    assert OwnInv(s, w);
    assert SignalsKept(s, w, pc');
    assert SearchInv(s', w) by {
      if CtxOf(pc) == Idle(s.g.epoch) {
        SearchOver(s, w);
        forall v | 0 <= v < s.n && v != w ensures Covered(s', v) {
          CoverKept(s, s', w, v);
        }
      }
    }
    MoveKeepsInv(s, w, pc', s.g);
  }

  /** Steps that bump the epoch if anyone is idle, after which nobody's search is current. */
  lemma SignalStepKeepsInv(s: State, w: nat, pc: Pc, g: View, wake: nat)
    requires Inv(s) && w < s.n && !s.pcs[w].Waiting? && !s.pcs[w].Stealing? && !pc.Waiting?
    requires g.idle == s.g.idle && g.stopped == s.g.stopped && NoNulls(g.queue)
    requires s.g.epoch <= g.epoch && (s.g.idle > 0 ==> g.epoch > s.g.epoch || (g == s.g && pc == s.pcs[w]))
    requires One(pc) == One(s.pcs[w])
    requires Shaped(At(Signalled(s, (g, wake)), w, pc))
    requires OwnInv(At(Signalled(s, (g, wake)), w, pc), w)
    requires CtxOf(pc).Idle? ==> CtxOf(pc).e < g.epoch || !SearchedGlobal(pc)
    ensures Inv(At(Signalled(s, (g, wake)), w, pc))
  {
    var s' := At(Signalled(s, (g, wake)), w, pc);
    IdleFollows(s.pcs, w, pc);
    forall v | 0 <= v < s.n ensures DequeOk(s', v) {
      assert DequeOk(s, v);
    }
    forall v | 0 <= v < s.n ensures ThiefFits(s', w, v) {
      NoThiefPlace(s, w, v);
    }
    if g == s.g && pc == s.pcs[w] {
      assert s'.pcs == s.pcs;
      forall v | 0 <= v < s.n && Covered(s, v) ensures Covered(s', v) {
        CoverKept(s, s', w, v);
      }
    }
    AwakeFollows(s, s', w);
    WorkerKeepsInv(s, s', w);
  }

  lemma NotifyStepKeepsInv(s: State, w: nat, tick: bool, start: nat, act: Act)
    requires Inv(s) && w < s.n && (s.pcs[w].VictimNotify? || s.pcs[w].OwnNotify? || s.pcs[w].GlobalPush?)
    ensures Inv(WorkStep(s, w, tick, start, act))
  {
    var s' := WorkStep(s, w, tick, start, act);
    assert OwnInv(s, w);
    SignalStepKeepsInv(s, w, s'.pcs[w], s'.g, s'.signals - s.signals);
    assert s' == At(Signalled(s, (s'.g, s'.signals - s.signals)), w, s'.pcs[w]);
  }

  lemma BatchKeepsInv(s: State, w: nat, hs: seq<Handle>)
    requires Inv(s) && w < s.n && s.pcs[w].Running? && NoNulls(hs)
    ensures Inv(Signalled(s, PushBack(s.g, hs)))
  {
    var r := PushBack(s.g, hs);
    assert OwnInv(s, w);
    assert hs == [] ==> r.0.queue == s.g.queue;
    SignalStepKeepsInv(s, w, Running, r.0, r.1);
    assert Signalled(s, r) == At(Signalled(s, r), w, Running);
  }

  lemma RunningStepKeepsInv(s: State, w: nat, tick: bool, start: nat, act: Act)
    requires Inv(s) && w < s.n && s.pcs[w].Running?
    ensures Inv(WorkStep(s, w, tick, start, act))
  {
    match act
    case SubmitBatch(hs) =>
      if NoNulls(hs) {
        BatchKeepsInv(s, w, hs);
      }
    case Submit(h) =>
      if h != NULL {
        assert OwnInv(s, w);
        assert SignalsKept(s, w, LocalPush(h));
        MoveKeepsInv(s, w, LocalPush(h), s.g);
      }
    case Finish =>
      assert OwnInv(s, w);
      assert SignalsKept(s, w, Begin(Active));
      MoveKeepsInv(s, w, Begin(Active), s.g);
  }

  // ------------------------------------------------------------------ steps inside a deque

  /** Replacing deque `v`, with the worker elsewhere, keeps every cover that the backlog or
      somebody's pending signal provides. */
  lemma DequeCoverKept(s: State, s': State, w: nat, u: nat, v: nat)
    requires Shaped(s) && Shaped(s') && s'.n == s.n && w < s.n && u < s.n && v < s.n
    requires s'.deques == s.deques[v := s'.deques[v]] && s'.pcs == s.pcs[w := s'.pcs[w]]
    requires forall z :: 0 <= z < s.n ==> !WillSignal(s.pcs[w], w, z)
    requires Backlog(s'.deques[v]) <= Backlog(s.deques[v]) || Backlog(s'.deques[v]) <= 1 || WillSignal(s'.pcs[w], w, v)
    requires Covered(s, u)
    ensures Covered(s', u)
  {
    if Backlog(s.deques[u]) > 1 {
      var y :| 0 <= y < s.n && WillSignal(s.pcs[y], y, u);
      assert WillSignal(s'.pcs[y], y, u);
    } else if u == v && WillSignal(s'.pcs[w], w, v) {
      assert Covered(s', u);
    }
  }

  /** What an access by worker `w` to deque `d` of worker `v` leaves to the others. */
  ghost predicate Moved(d: D.State, d': D.State, w: nat, v: nat) {
    && DequeInv(d') && d.top <= d'.top
    && (v != w ==> d'.owner == d.owner && d'.bottom == d.bottom)
    && (forall t :: v == w || t != w ==> d'.Thief(t) == d.Thief(t))
  }

  /** The backlog of `v` does not grow unnoticed. */
  predicate Noticed(d: D.State, d': D.State, w: nat, v: nat, pc: Pc) {
    WillSignal(pc, w, v) || Backlog(d') <= 1 || (Backlog(d') <= Backlog(d) && d'.top == d.top)
  }

  lemma DequeMoveGuarantee(s: State, w: nat, v: nat, d: D.State, pc: Pc)
    requires Inv(s) && w < s.n && v < s.n && D.Shaped(d)
    requires s.pcs[w].LocalPop? || s.pcs[w].LocalPush? || s.pcs[w].Stealing?
    requires Moved(s.deques[v], d, w, v) && Noticed(s.deques[v], d, w, v, pc)
    requires Shaped(InDeque(s, w, v, d, pc))
    ensures Guarantee(s, InDeque(s, w, v, d, pc), w)
  {
    var s' := InDeque(s, w, v, d, pc);
    forall u | 0 <= u < s.n && (Covered(s, u) || s.deques[u].top < s'.deques[u].top) ensures Covered(s', u) {
      if Covered(s, u) {
        DequeCoverKept(s, s', w, u, v);
      } else if Backlog(d) > 1 {
        assert WillSignal(s'.pcs[w], w, u);
      }
    }
  }

  /** A step by worker `w` inside deque `v`. */
  lemma DequeMoveKeepsInv(s: State, w: nat, v: nat, d: D.State, pc: Pc)
    requires Inv(s) && w < s.n && v < s.n && D.Shaped(d)
    requires s.pcs[w].LocalPop? || s.pcs[w].LocalPush? || s.pcs[w].Stealing?
    requires Moved(s.deques[v], d, w, v) && Noticed(s.deques[v], d, w, v, pc)
    requires !pc.Waiting? && One(pc) == One(s.pcs[w])
    requires var s' := InDeque(s, w, v, d, pc);
             Shaped(s') && OwnInv(s', w) && SearchInv(s', w) && forall z :: 0 <= z < s.n ==> ThiefFits(s', w, z)
    ensures Inv(InDeque(s, w, v, d, pc))
  {
    var s' := InDeque(s, w, v, d, pc);
    DequeMoveGuarantee(s, w, v, d, pc);
    forall u | 0 <= u < s.n ensures DequeOk(s', u) {
      assert DequeOk(s, u);
    }
    IdleFollows(s.pcs, w, pc);
    AwakeFollows(s, s', w);
    WorkerKeepsInv(s, s', w);
  }

  /** Where the owner stands after one of its own accesses. */
  lemma OwnerAt(d: D.State, l: D.Label)
    requires l.Own? || (d.owner.Ready? && (l.Pop? || l.Push?))
    requires D.Shaped(d)
    ensures var (d', e) := D.Step(Exact, d, l);
            && (e.PopDone? || e.PushDone? ==> d'.owner.Ready?)
            && (l.Pop? ==> d'.owner.PopBottom? && e == D.Tau)
            && (l.Push? ==> d'.owner.PushTop? && d'.owner.h == l.h && e == D.Tau)
            && (l.Own? && e == D.Tau && !d.owner.Ready? ==>
                  && !d'.owner.Ready?
                  && (if D.Pushing(d.owner)
                      then D.Pushing(d'.owner) && d'.owner.h == d.owner.h
                      else !D.Pushing(d'.owner)))
            && (e == D.Tau || e.PopDone? || e.PushDone?)
            && (e.PopDone? ==> !D.Pushing(d.owner))
            && (e.PushDone? ==> D.Pushing(d.owner))
  {
  }

  lemma OwnerMoved(d: D.State, l: D.Label, w: nat)
    requires DequeInv(d) && (l.Own? || (d.owner.Ready? && (l.Pop? || (l.Push? && l.h != NULL))))
    requires D.Pushing(d.owner) ==> d.owner.h != NULL
    ensures var (d', e) := D.Step(Exact, d, l);
            && D.Shaped(d') && Moved(d, d', w, w)
            && (!(e.PushDone? && e.ok) ==> Backlog(d') <= 1 || (Backlog(d') <= Backlog(d) && d'.top == d.top))
            && (e.PopDone? && e.h == NULL ==> Backlog(d') <= 0)
  {
    DequeStep(d, l);
    DequeFrame(d, l);
  }

  lemma LocalPopMoves(s: State, w: nat, d: D.State, e: D.Event)
    requires Inv(s) && w < s.n && s.pcs[w].LocalPop? && D.Shaped(d) && Moved(s.deques[w], d, w, w)
    requires Noticed(s.deques[w], d, w, w, Running)
    requires (e.PopDone? ==> d.owner.Ready?) && !D.Pushing(d.owner) && (e.PopDone? && e.h == NULL ==> Backlog(d) <= 0)
    ensures Inv(InDeque(s, w, w, d, AfterPop(s.pcs[w].c, e)))
  {
    var pc := AfterPop(s.pcs[w].c, e);
    var s' := InDeque(s, w, w, d, pc);
    assert OwnInv(s, w);
    assert OwnInv(s', w) && SearchInv(s', w);
    forall z | 0 <= z < s.n ensures ThiefFits(s', w, z) {
      NoThiefPlace(s, w, z);
    }
    DequeMoveKeepsInv(s, w, w, d, pc);
  }

  lemma LocalPopKeepsInv(s: State, w: nat)
    requires Inv(s) && w < s.n && s.pcs[w].LocalPop?
    ensures Inv(LocalPopStep(s, w, s.pcs[w].c))
  {
    var d := s.deques[w];
    var l := if d.owner.Ready? then D.Pop else D.Own;
    assert OwnInv(s, w) && DequeOk(s, w);
    OwnerMoved(d, l, w);
    OwnerAt(d, l);
    var (d', e) := D.Step(Exact, d, l);
    LocalPopMoves(s, w, d', e);
  }

  lemma LocalPushMoves(s: State, w: nat, d: D.State, e: D.Event)
    requires Inv(s) && w < s.n && s.pcs[w].LocalPush? && D.Shaped(d) && Moved(s.deques[w], d, w, w)
    requires Noticed(s.deques[w], d, w, w, AfterPush(s.pcs[w].h, e))
    requires e.PushDone? ==> d.owner.Ready?
    requires !e.PushDone? ==> D.Pushing(d.owner) && d.owner.h == s.pcs[w].h
    ensures Inv(InDeque(s, w, w, d, AfterPush(s.pcs[w].h, e)))
  {
    var pc := AfterPush(s.pcs[w].h, e);
    var s' := InDeque(s, w, w, d, pc);
    assert OwnInv(s, w);
    assert OwnInv(s', w) && SearchInv(s', w);
    forall z | 0 <= z < s.n ensures ThiefFits(s', w, z) {
      NoThiefPlace(s, w, z);
    }
    DequeMoveKeepsInv(s, w, w, d, pc);
  }

  lemma LocalPushKeepsInv(s: State, w: nat)
    requires Inv(s) && w < s.n && s.pcs[w].LocalPush?
    ensures Inv(LocalPushStep(s, w, s.pcs[w].h))
  {
    var d, h := s.deques[w], s.pcs[w].h;
    var l := if d.owner.Ready? then D.Push(h) else D.Own;
    assert OwnInv(s, w) && DequeOk(s, w);
    OwnerMoved(d, l, w);
    OwnerAt(d, l);
    var (d', e) := D.Step(Exact, d, l);
    LocalPushMoves(s, w, d', e);
  }

  /** The worker has no place yet in the deque it turns to next. */
  lemma NextVictimFresh(s: State, w: nat, i: nat)
    requires Inv(s) && w < s.n && s.pcs[w].Stealing? && i == s.pcs[w].i + 1 < s.n
    ensures var v' := Target(s.n, s.pcs[w].start, i);
            v' != Target(s.n, s.pcs[w].start, s.pcs[w].i) && s.deques[v'].Thief(w).Away?
  {
    assert OwnInv(s, w);
    NoThiefPlace(s, w, Target(s.n, s.pcs[w].start, i));
  }

  /** Worker `w` is stealing from `v` and its place there moved on from `th` to that in `d`. */
  ghost predicate StealAccess(s: State, w: nat, v: nat, d: D.State, e: D.Event)
    requires Shaped(s) && w < s.n && v < s.n
  {
    var th, th' := s.deques[v].Thief(w), d.Thief(w);
    && s.pcs[w].Stealing? && s.pcs[w].i < s.n && v == Target(s.n, s.pcs[w].start, s.pcs[w].i) && v != w
    && D.Shaped(d) && Moved(s.deques[v], d, w, v)
    && (e == D.Tau || e.Stolen? || e.StealEmpty? || e.StealAbort?)
    && (e == D.Tau ==> d.top == s.deques[v].top && !th'.Away? && th'.tp == if th.Away? then d.top else th.tp)
    && (e != D.Tau ==> th'.Away? && !th.Away?)
    && (e.StealEmpty? ==> Backlog(d) <= 1)
    && (e.StealAbort? ==> d.top == s.deques[v].top && th.tp < d.top)
    && (!e.Stolen? ==> Backlog(d) <= 1 || (Backlog(d) <= Backlog(s.deques[v]) && d.top == s.deques[v].top))
  }

  lemma StealFits(s: State, w: nat, v: nat, d: D.State, e: D.Event, z: nat)
    requires Inv(s) && w < s.n && v < s.n && z < s.n && StealAccess(s, w, v, d, e)
    ensures var s' := InDeque(s, w, v, d, AfterSteal(s.pcs[w].c, s.pcs[w].start, s.pcs[w].i, v, e));
            Shaped(s') && ThiefFits(s', w, z)
  {
    if z != v {
      NoThiefPlace(s, w, z);
    }
  }

  /** What was covered before the access is covered after it. */
  lemma StealCoverKept(s: State, w: nat, v: nat, d: D.State, e: D.Event, u: nat)
    requires Inv(s) && w < s.n && v < s.n && u < s.n && StealAccess(s, w, v, d, e) && Covered(s, u)
    ensures var s' := InDeque(s, w, v, d, AfterSteal(s.pcs[w].c, s.pcs[w].start, s.pcs[w].i, v, e));
            Shaped(s') && Covered(s', u)
  {
    var s' := InDeque(s, w, v, d, AfterSteal(s.pcs[w].c, s.pcs[w].start, s.pcs[w].i, v, e));
    DequeCoverKept(s, s', w, u, v);
  }

  /** The access of a running steal: the victim stays covered if its top has moved. */
  lemma StealContinues(s: State, w: nat, v: nat, d: D.State)
    requires Inv(s) && w < s.n && v < s.n && StealAccess(s, w, v, d, D.Tau)
    ensures var s' := InDeque(s, w, v, d, s.pcs[w]);
            Shaped(s') && SearchInv(s', w)
  {
    var s' := InDeque(s, w, v, d, s.pcs[w]);
    var pc := s.pcs[w];
    assert SearchInv(s, w);
    if CtxOf(pc) == Idle(s.g.epoch) {
      forall u | 0 <= u < s.n && Covered(s, u) ensures Covered(s', u) {
        StealCoverKept(s, w, v, d, D.Tau, u);
      }
    }
  }

  /** A failed steal: an empty victim has no backlog, and after an abort whoever moved its
      top covers it. */
  lemma FailCovers(s: State, w: nat, v: nat, d: D.State, e: D.Event)
    requires Inv(s) && w < s.n && v < s.n && StealAccess(s, w, v, d, e) && (e.StealEmpty? || e.StealAbort?)
    requires CtxOf(s.pcs[w]) == Idle(s.g.epoch)
    ensures var s' := InDeque(s, w, v, d, Stealing(s.pcs[w].c, s.pcs[w].start, s.pcs[w].i + 1));
            Shaped(s') && Covered(s', v)
  {
    if e.StealAbort? {
      assert SearchInv(s, w);
      StealCoverKept(s, w, v, d, e, v);
    }
  }

  lemma StealFails(s: State, w: nat, v: nat, d: D.State, e: D.Event)
    requires Inv(s) && w < s.n && v < s.n && StealAccess(s, w, v, d, e) && (e.StealEmpty? || e.StealAbort?)
    ensures var s' := InDeque(s, w, v, d, Stealing(s.pcs[w].c, s.pcs[w].start, s.pcs[w].i + 1));
            Shaped(s') && SearchInv(s', w)
  {
    var pc := s.pcs[w];
    var s' := InDeque(s, w, v, d, Stealing(pc.c, pc.start, pc.i + 1));
    assert OwnInv(s, w) && SearchInv(s, w);
    forall u | 0 <= u < s.n && Covered(s, u) ensures Covered(s', u) {
      StealCoverKept(s, w, v, d, e, u);
    }
    if CtxOf(pc) == Idle(s.g.epoch) {
      FailCovers(s, w, v, d, e);
    }
    if pc.i + 1 < s.n {
      NextVictimFresh(s, w, pc.i + 1);
    }
    SearchMovesOn(s, s', w, v);
  }

  lemma StealKeepsOwn(s: State, w: nat, v: nat, d: D.State, e: D.Event)
    requires Inv(s) && w < s.n && v < s.n && StealAccess(s, w, v, d, e)
    ensures var s' := InDeque(s, w, v, d, AfterSteal(s.pcs[w].c, s.pcs[w].start, s.pcs[w].i, v, e));
            Shaped(s') && OwnInv(s', w)
  {
    assert OwnInv(s, w);
  }

  lemma StealKeepsSearch(s: State, w: nat, v: nat, d: D.State, e: D.Event)
    requires Inv(s) && w < s.n && v < s.n && StealAccess(s, w, v, d, e)
    ensures var s' := InDeque(s, w, v, d, AfterSteal(s.pcs[w].c, s.pcs[w].start, s.pcs[w].i, v, e));
            Shaped(s') && SearchInv(s', w)
  {
    if e == D.Tau {
      StealContinues(s, w, v, d);
    } else if !e.Stolen? {
      StealFails(s, w, v, d, e);
    }
  }

  lemma StealMoves(s: State, w: nat, v: nat, d: D.State, e: D.Event)
    requires Inv(s) && w < s.n && v < s.n && StealAccess(s, w, v, d, e)
    ensures Inv(InDeque(s, w, v, d, AfterSteal(s.pcs[w].c, s.pcs[w].start, s.pcs[w].i, v, e)))
  {
    var pc' := AfterSteal(s.pcs[w].c, s.pcs[w].start, s.pcs[w].i, v, e);
    var s' := InDeque(s, w, v, d, pc');
    forall z | 0 <= z < s.n ensures ThiefFits(s', w, z) {
      StealFits(s, w, v, d, e, z);
    }
    StealKeepsOwn(s, w, v, d, e);
    StealKeepsSearch(s, w, v, d, e);
    DequeMoveKeepsInv(s, w, v, d, pc');
  }

  lemma StealKeepsInv(s: State, w: nat)
    requires Inv(s) && w < s.n && s.pcs[w].Stealing? && s.pcs[w].i < s.n
    requires Target(s.n, s.pcs[w].start, s.pcs[w].i) != w
    ensures Inv(StealStep(s, w, s.pcs[w].c, s.pcs[w].start, s.pcs[w].i))
  {
    var v := Target(s.n, s.pcs[w].start, s.pcs[w].i);
    var d := s.deques[v];
    var l := if d.Thief(w).Away? then D.Steal(w) else D.Go(w);
    assert OwnInv(s, v) && DequeOk(s, v);
    DequeStep(d, l);
    DequeFrame(d, l);
    ThiefAt(d, w);
    var (d', e) := D.Step(Exact, d, l);
    StealMoves(s, w, v, d', e);
  }

  // ------------------------------------------------------------------ all steps

  /** The search for a task. */
  lemma SearchStepKeepsInv(s: State, w: nat, tick: bool, start: nat, act: Act)
    requires Inv(s) && w < s.n
    requires s.pcs[w].TickPop? || s.pcs[w].LocalPop? || s.pcs[w].GlobalPop? || s.pcs[w].Stealing?
    ensures Inv(WorkStep(s, w, tick, start, act))
  {
    if s.pcs[w].LocalPop? {
      LocalPopKeepsInv(s, w);
    } else if s.pcs[w].Stealing? {
      if s.pcs[w].i >= s.n {
        SearchEndKeepsInv(s, w);
      } else if Target(s.n, s.pcs[w].start, s.pcs[w].i) == w {
        SkipSelfKeepsInv(s, w);
      } else {
        StealKeepsInv(s, w);
      }
    } else {
      PopStepKeepsInv(s, w, tick, start, act);
    }
  }

  lemma LoopStepKeepsInv(s: State, w: nat, tick: bool, start: nat, act: Act)
    requires Inv(s) && w < s.n && (s.pcs[w].Begin? || s.pcs[w].Got? || s.pcs[w].Prepare?)
    ensures Inv(WorkStep(s, w, tick, start, act))
  {
    match s.pcs[w]
    case Begin(c) =>
      PlainStepKeepsInv(s, w, if c.Active? && !s.running then Exited else if tick then TickPop(c) else LocalPop(c), s.g);
    case Got(c, _) =>
      PlainStepKeepsInv(s, w, Running, s.g.(idle := s.g.idle - One(s.pcs[w])));
    case Prepare =>
      PlainStepKeepsInv(s, w, Begin(Idle(s.g.epoch)), s.g.(idle := s.g.idle + 1));
  }

  lemma WorkKeepsInv(s: State, w: nat, tick: bool, start: nat, act: Act)
    requires Inv(s) && w < s.n
    ensures Inv(WorkStep(s, w, tick, start, act))
  {
    var pc := s.pcs[w];
    if pc.Begin? || pc.Got? || pc.Prepare? {
      LoopStepKeepsInv(s, w, tick, start, act);
    } else if pc.TickPop? || pc.LocalPop? || pc.GlobalPop? || pc.Stealing? {
      SearchStepKeepsInv(s, w, tick, start, act);
    } else if pc.VictimTop? || pc.VictimBottom? || pc.OwnTop? || pc.OwnBottom? {
      CheckStepKeepsInv(s, w, tick, start, act);
    } else if pc.VictimNotify? || pc.OwnNotify? || pc.GlobalPush? {
      NotifyStepKeepsInv(s, w, tick, start, act);
    } else if pc.LocalPush? {
      LocalPushKeepsInv(s, w);
    } else if pc.Running? {
      RunningStepKeepsInv(s, w, tick, start, act);
    } else if pc.Park? {
      ParkStepKeepsInv(s, w, tick, start, act);
    }
  }

  /** Steps outside the workers: only the global queue, the flags and the signals change. */
  lemma OutsideKeepsInv(s: State, s': State)
    requires Inv(s) && s' == s.(g := s'.g, running := s'.running, signals := s'.signals, broadcast := s'.broadcast)
    requires s'.g.idle == s.g.idle && NoNulls(s'.g.queue) && s.g.epoch <= s'.g.epoch
    requires s.g.idle > 0 ==> s'.g.epoch > s.g.epoch || s'.g.queue == s.g.queue
    requires AwakeInv(s')
    ensures Inv(s')
  {
    forall v | 0 <= v < s.n && Covered(s, v) ensures Covered(s', v) {
      if Backlog(s.deques[v]) > 1 {
        var y :| 0 <= y < s.n && WillSignal(s.pcs[y], y, v);
        assert WillSignal(s'.pcs[y], y, v);
      }
    }
    forall v | 0 <= v < s.n ensures DequeOk(s', v) {
      assert DequeOk(s, v);
    }
    forall x | 0 <= x < s.n ensures OwnInv(s', x) && SearchInv(s', x) {
      OthersKeepInv(s, s', s.n, x);
    }
    forall x, v | 0 <= x < s.n && 0 <= v < s.n ensures ThiefFits(s', x, v) {
      OthersKeepInv(s, s', s.n, x);
    }
  }

  /** A waiter that wakes up only goes back to checking its condition. */
  lemma WakeKeepsInv(s: State, s': State, w: nat)
    requires Inv(s) && w < s.n && s.pcs[w].Waiting?
    requires s' == At(s, w, Woken(s.pcs[w])).(signals := s'.signals)
    ensures Inv(s')
  {
    assert OwnInv(s, w) && SearchInv(s, w);
    IdleFollows(s.pcs, w, s'.pcs[w]);
    forall v | 0 <= v < s.n ensures DequeOk(s', v) {
      assert DequeOk(s, v);
    }
    assert SignalsKept(s, w, s'.pcs[w]);
    forall v | 0 <= v < s.n && Covered(s, v) ensures Covered(s', v) {
      CoverKept(s, s', w, v);
    }
    forall v | 0 <= v < s.n ensures ThiefFits(s', w, v) {
      NoThiefPlace(s, w, v);
    }
    assert AwakeInv(s') by {
      if s'.g.stopped && exists x :: 0 <= x < s.n && s'.pcs[x].Waiting? {
        assert s.pcs[w].Waiting?;
      }
      assert !s'.pcs[w].Waiting?;
    }
    WorkerKeepsInv(s, s', w);
  }

  lemma {:induction false} BroadcastKeepsInv(s: State, k: nat)
    requires Inv(s) && k <= s.n
    ensures Inv(s.(pcs := FirstWoken(s.pcs, k)))
    decreases k
  {
    if k == 0 {
      assert FirstWoken(s.pcs, 0) == s.pcs;
    } else {
      BroadcastKeepsInv(s, k - 1);
      var t := s.(pcs := FirstWoken(s.pcs, k - 1));
      assert FirstWoken(s.pcs, k) == t.pcs[k - 1 := Woken(s.pcs[k - 1])];
      if s.pcs[k - 1].Waiting? {
        WakeKeepsInv(t, s.(pcs := FirstWoken(s.pcs, k)), k - 1);
      } else {
        assert FirstWoken(s.pcs, k) == t.pcs;
      }
    }
  }

  lemma DeliverKeepsInv(s: State, w: nat)
    requires Inv(s)
    ensures Inv(Step(s, Deliver(w)))
  {
    var s' := Step(s, Deliver(w));
    if s.signals > 0 && w < s.n && s.pcs[w].Waiting? {
      WakeKeepsInv(s, s', w);
    } else if s' != s {
      assert !s'.pcs[0].Waiting?;
      OutsideKeepsInv(s, s');
    }
  }

  lemma DeliverAllKeepsInv(s: State)
    requires Inv(s) && s.broadcast
    ensures Inv(Step(s, DeliverAll))
  {
    var s' := Step(s, DeliverAll);
    BroadcastKeepsInv(s, s.n);
    assert AwakeInv(s') by {
      assert !s'.pcs[0].Waiting?;
    }
    OutsideKeepsInv(s.(pcs := FirstWoken(s.pcs, s.n)), s');
  }

  lemma StepKeepsInv(s: State, l: Label)
    requires Inv(s)
    ensures Inv(Step(s, l))
  {
    match l
    case Work(w, tick, start, act) =>
      if w < s.n {
        WorkKeepsInv(s, w, tick, start, act);
      }
    case Inject(hs) =>
      assert hs == [] ==> PushBack(s.g, hs).0.queue == s.g.queue;
      OutsideKeepsInv(s, Step(s, l));
    case Deliver(w) => DeliverKeepsInv(s, w);
    case Spurious(w) =>
      if w < s.n {
        if s.pcs[w].Waiting? {
          WakeKeepsInv(s, Step(s, l), w);
        } else {
          assert Step(s, l).pcs == s.pcs;
        }
      }
    case DeliverAll =>
      if s.broadcast {
        DeliverAllKeepsInv(s);
      }
    case StopRunning => OutsideKeepsInv(s, Step(s, l));
    case StopQueue => OutsideKeepsInv(s, Step(s, l));
  }

  lemma InitInv(n: nat, capacity: nat)
    requires n > 0 && capacity > 0
    ensures Inv(Init(n, capacity))
  {
    var s := Init(n, capacity);
    D.InitInv(capacity);
    assert IdleWorkers(s.pcs) == {};
    assert !s.pcs[0].Waiting?;
  }

  lemma {:induction false} ExecKeepsInv(n: nat, capacity: nat, ls: seq<Label>)
    requires n > 0 && capacity > 0
    ensures Inv(Exec(Init(n, capacity), ls))
  {
    if ls == [] {
      InitInv(n, capacity);
    } else {
      ExecKeepsInv(n, capacity, ls[..|ls| - 1]);
      StepKeepsInv(Exec(Init(n, capacity), ls[..|ls| - 1]), ls[|ls| - 1]);
    }
  }

  // ------------------------------------------------------------------ what it guarantees

  lemma OwnDequeEmpty(s: State, x: nat)
    requires Inv(s) && x < s.n && (s.pcs[x].Park? || s.pcs[x].Waiting?)
    ensures D.Inv(s.deques[x]) && D.Contents(s.deques[x]) == []
  {
    assert OwnInv(s, x) && DequeOk(s, x);
  }

  /** At every moment of every run the idle count is the number of workers between
      `prepare_park` and leaving it, and a worker that waits with the current epoch waits
      rightly: the global queue and its own deque are empty. */
  lemma SleepingWorker(n: nat, capacity: nat, ls: seq<Label>, x: nat)
    requires n > 0 && capacity > 0 && x < n
    ensures var s := Exec(Init(n, capacity), ls);
            && s.g.idle == |IdleWorkers(s.pcs)|
            && D.Inv(s.deques[x])
            && (s.pcs[x] == Waiting(s.g.epoch) ==> s.g.queue == [] && D.Contents(s.deques[x]) == [])
  {
    ExecKeepsInv(n, capacity, ls);
    var s := Exec(Init(n, capacity), ls);
    assert DequeOk(s, x) && SearchInv(s, x);
    if s.pcs[x].Waiting? {
      OwnDequeEmpty(s, x);
    }
  }

  /** Somebody has yet to look at the backlog of worker `v` and signal it; or at most one task
      waits there, and a second one exactly if `v` has lowered `bottom_` to pop it and one is
      left below. */
  ghost predicate Attended(s: State, v: nat)
    requires Shaped(s) && v < s.n && D.Inv(s.deques[v])
  {
    var d := s.deques[v];
    || (exists y :: 0 <= y < s.n && WillSignal(s.pcs[y], y, v))
    || (|D.Contents(d)| <= 2 && (|D.Contents(d)| <= 1 <==> !(D.Popping(d.owner) && Backlog(d) == 1)))
  }

  /** Work-conserving sleep: once a worker's search after `prepare_park` has failed and as
      long as the epoch stands, every other worker is attended to.  Searches that ended in
      `kAbort` included. */
  lemma SleepIsWorkConserving(n: nat, capacity: nat, ls: seq<Label>, x: nat, v: nat)
    requires n > 0 && capacity > 0 && x < n && v < n && v != x
    ensures var s := Exec(Init(n, capacity), ls);
            && D.Inv(s.deques[v])
            && (s.pcs[x] == Park(s.g.epoch) || s.pcs[x] == Waiting(s.g.epoch) ==> Attended(s, v))
  {
    ExecKeepsInv(n, capacity, ls);
    IdleAttends(Exec(Init(n, capacity), ls), x, v);
  }

  lemma IdleAttends(s: State, x: nat, v: nat)
    requires Inv(s) && x < s.n && v < s.n && v != x
    ensures D.Inv(s.deques[v])
    ensures s.pcs[x] == Park(s.g.epoch) || s.pcs[x] == Waiting(s.g.epoch) ==> Attended(s, v)
  {
    assert DequeOk(s, v) && SearchInv(s, x);
    if s.pcs[x] == Park(s.g.epoch) || s.pcs[x] == Waiting(s.g.epoch) {
      assert Covered(s, v);
      SmallBacklog(s.deques[v]);
    }
  }

  /** What a small difference of the counters says about the tasks held, exactly. */
  lemma SmallBacklog(d: D.State)
    requires D.Inv(d)
    ensures Backlog(d) <= 1 ==> |D.Contents(d)| <= 2
    ensures Backlog(d) <= 1 ==> (|D.Contents(d)| == 2 <==> D.Popping(d.owner) && Backlog(d) == 1)
  {
  }

  /** Quiescence: if every worker is in the wait set and no signal is on its way, there is no
      work anywhere, even though a signal may have gone to a waiter that could not use it. */
  lemma Quiescent(n: nat, capacity: nat, ls: seq<Label>)
    requires n > 0 && capacity > 0
    ensures var s := Exec(Init(n, capacity), ls);
            && (forall v :: 0 <= v < n ==> D.Inv(s.deques[v]))
            && ((forall x :: 0 <= x < n ==> s.pcs[x].Waiting?) && s.signals == 0 && !s.broadcast ==>
                  s.g.queue == [] && forall v :: 0 <= v < n ==> D.Contents(s.deques[v]) == [])
  {
    ExecKeepsInv(n, capacity, ls);
    var s := Exec(Init(n, capacity), ls);
    forall v | 0 <= v < n ensures D.Inv(s.deques[v]) {
      assert DequeOk(s, v);
    }
    if (forall x :: 0 <= x < n ==> s.pcs[x].Waiting?) && s.signals == 0 && !s.broadcast {
      var x :| 0 <= x < s.n && s.pcs[x] == Waiting(s.g.epoch);
      assert SearchInv(s, x);
      forall v | 0 <= v < n ensures D.Contents(s.deques[v]) == [] {
        OwnDequeEmpty(s, v);
      }
    }
  }
}
