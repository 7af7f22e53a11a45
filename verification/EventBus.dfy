/** The event bus under concurrency: a routing table guarded by a mutex, a version counter that
    publishers read without it, and one cached copy of the table per thread. */
module EventBus {
  import opened Options
  import opened RouteTable

  type Tid = nat
  type Box = nat

  /** A change of the table. */
  datatype Op = Sub(ty: EventType, b: Box) | Unsub(ty: EventType, b: Box)

  datatype Cache = Cache(table: Table<Box>, version: nat)

  /** Program counter of a thread.  `seen` is the version a publisher has read. */
  datatype Pc =
    | Away
    | Lock(op: Op)
    | Change(op: Op)
    | Count(op: Op)
    | Erase(op: Op)
    | LoadVersion(ty: EventType)
    | SyncLock(ty: EventType, seen: nat)
    | Copy(ty: EventType, seen: nat)
    | Stamp(ty: EventType, seen: nat)
    | Deliver(ty: EventType, seen: nat)

  /** `ops` is history: the changes that took effect, one per version. */
  datatype State = State(
    table: Table<Box>,
    version: nat,
    owner: Option<Tid>,
    pcs: map<Tid, Pc>,
    locals: map<Tid, Cache>,
    ops: seq<Op>)
  {
    function Pc(t: Tid): Pc {
      if t in pcs then pcs[t] else Away
    }

    function Local(t: Tid): Cache {
      if t in locals then locals[t] else Cache(map[], 0)
    }
  }

  /** A delivery: the type, the mailboxes and the version used. */
  datatype Event = Tau | Delivered(t: Tid, ty: EventType, boxes: seq<Box>, used: nat)

  datatype Label = Call(t: Tid, op: Op) | Publish(t: Tid, ty: EventType) | Go(t: Tid)

  function Init(): State {
    State(map[], 0, None, map[], map[], [])
  }

  function Set(s: State, t: Tid, pc: Pc): State {
    s.(pcs := s.pcs[t := pc])
  }

  /** The table while the lock is held: edited, an emptied list not yet erased. */
  function Edited(table: Table<Box>, op: Op): Table<Box> {
    if op.Sub? then Subscribed(table, op.ty, op.b)
    else if op.b in Subscribers(table, op.ty) then
      table[op.ty := SwapRemove(table[op.ty], IndexOf(table[op.ty], op.b))]
    else table
  }

  function Tidied(table: Table<Box>, op: Op): Table<Box> {
    if op.Unsub? && op.ty in table && table[op.ty] == [] then table - {op.ty} else table
  }

  function Step(s: State, l: Label): (State, Event) {
    match l
    case Call(t, op) => if s.Pc(t).Away? then (Set(s, t, Lock(op)), Tau) else (s, Tau)
    case Publish(t, ty) => if s.Pc(t).Away? then (Set(s, t, LoadVersion(ty)), Tau) else (s, Tau)
    case Go(t) =>
      match s.Pc(t)
      case Away => (s, Tau)
      case Lock(op) => if s.owner.None? then (Set(s, t, Change(op)).(owner := Some(t)), Tau) else (s, Tau)
      case Change(op) =>
        if op.Sub? || op.b in Subscribers(s.table, op.ty) then
          (Set(s, t, Count(op)).(table := Edited(s.table, op)), Tau)
        else (Set(s, t, Away).(owner := None), Tau)
      case Count(op) =>
        var s' := s.(version := s.version + 1, ops := s.ops + [op]);
        if op.Sub? then (Set(s', t, Away).(owner := None), Tau) else (Set(s', t, Erase(op)), Tau)
      case Erase(op) =>
        (Set(s, t, Away).(owner := None, table := Tidied(s.table, op)), Tau)
      case LoadVersion(ty) =>
        (Set(s, t, if s.Local(t).version < s.version then SyncLock(ty, s.version) else Deliver(ty, s.version)), Tau)
      case SyncLock(ty, seen) => if s.owner.None? then (Set(s, t, Copy(ty, seen)).(owner := Some(t)), Tau) else (s, Tau)
      case Copy(ty, seen) =>
        (Set(s, t, Stamp(ty, seen)).(locals := s.locals[t := s.Local(t).(table := s.table)]), Tau)
      case Stamp(ty, seen) =>
        (Set(s, t, Deliver(ty, seen)).(owner := None, locals := s.locals[t := s.Local(t).(version := s.version)]), Tau)
      case Deliver(ty, _) =>
        (Set(s, t, Away), Delivered(t, ty, Subscribers(s.Local(t).table, ty), s.Local(t).version))
  }

  function Exec(ls: seq<Label>): State {
    if ls == [] then Init() else Step(Exec(ls[..|ls| - 1]), ls[|ls| - 1]).0
  }

  // ------------------------------------------------------------------ meaning of versions

  /** The table after the given changes. */
  function TableAfter(ops: seq<Op>): Table<Box> {
    if ops == [] then map[]
    else
      var table, op := TableAfter(ops[..|ops| - 1]), ops[|ops| - 1];
      if op.Sub? then Subscribed(table, op.ty, op.b) else Unsubscribed(table, op.ty, op.b)
  }

  /** The subscriptions to `ty` after the given changes, counted from the changes alone. */
  function Wanted(ops: seq<Op>, ty: EventType): multiset<Box> {
    if ops == [] then multiset{}
    else
      var before, op := Wanted(ops[..|ops| - 1], ty), ops[|ops| - 1];
      if op.ty != ty then before
      else if op.Sub? then before + multiset{op.b}
      else before - multiset{op.b}
  }

  lemma {:induction false} TableMeaning(ops: seq<Op>, ty: EventType)
    ensures NoEmptyList(TableAfter(ops))
    ensures multiset(Subscribers(TableAfter(ops), ty)) == Wanted(ops, ty)
  {
    if ops != [] {
      var ops0, op := ops[..|ops| - 1], ops[|ops| - 1];
      TableMeaning(ops0, ty);
      if op.Sub? {
        SubscribeMeaning(TableAfter(ops0), op.ty, op.b, ty);
      } else {
        UnsubscribeMeaning(TableAfter(ops0), op.ty, op.b, ty);
      }
    }
  }

  // ------------------------------------------------------------------ invariant

  predicate Locked(pc: Pc) {
    pc.Change? || pc.Count? || pc.Erase? || pc.Copy? || pc.Stamp?
  }

  /** The table that the first `v` changes left. */
  function AsOf(s: State, v: nat): Table<Box>
    requires v <= |s.ops|
  {
    TableAfter(s.ops[..v])
  }

  /** How the shared table relates to the changes counted so far, by what the lock holder is
      doing. */
  ghost predicate TableInv(s: State) {
    match (if s.owner.Some? then s.Pc(s.owner.value) else Away)
    case Count(op) =>
      s.table == Edited(AsOf(s, |s.ops|), op) && (op.Unsub? ==> op.b in Subscribers(AsOf(s, |s.ops|), op.ty))
    case Erase(op) => AsOf(s, |s.ops|) == Tidied(s.table, op)
    case _ => s.table == AsOf(s, |s.ops|)
  }

  ghost predicate LocalInv(s: State, t: Tid) {
    var pc, local := s.Pc(t), s.Local(t);
    && local.version <= s.version == |s.ops|
    && local.table == AsOf(s, if pc.Stamp? then s.version else local.version)
    && (pc.SyncLock? || pc.Copy? || pc.Stamp? || pc.Deliver? ==> pc.seen <= s.version)
    && (pc.Deliver? ==> pc.seen <= local.version)
  }

  ghost predicate Inv(s: State) {
    && s.version == |s.ops|
    && (forall t: Tid :: Locked(s.Pc(t)) <==> s.owner == Some(t))
    && TableInv(s)
    && (forall t: Tid :: LocalInv(s, t))
  }

  lemma AsOfExtends(s: State, op: Op, v: nat)
    requires v <= |s.ops|
    ensures AsOf(s.(ops := s.ops + [op]), v) == AsOf(s, v)
    ensures AsOf(s.(ops := s.ops + [op]), |s.ops| + 1) == Tidied(Edited(AsOf(s, |s.ops|), op), op)
  {
    assert (s.ops + [op])[..v] == s.ops[..v];
    assert (s.ops + [op])[..|s.ops| + 1] == s.ops + [op];
    assert (s.ops + [op])[..|s.ops|] == s.ops == s.ops[..|s.ops|];
    if op.Sub? {
      assert Tidied(Edited(TableAfter(s.ops), op), op) == Subscribed(TableAfter(s.ops), op.ty, op.b);
    } else {
      TableMeaning(s.ops, op.ty);
    }
  }

  lemma InitInv()
    ensures Inv(Init())
  {
  }

  /** Counting a change is the one step that creates a version. */
  lemma CountKeepsInv(s: State, t: Tid)
    requires Inv(s) && s.Pc(t).Count?
    ensures Inv(Step(s, Go(t)).0)
  {
    var s', op := Step(s, Go(t)).0, s.Pc(t).op;
    assert s.owner == Some(t);
    AsOfExtends(s, op, |s.ops|);
    assert op.Sub? ==> s'.table == AsOf(s', |s'.ops|);
    forall u ensures LocalInv(s', u) {
      assert LocalInv(s, u) && (s.Pc(u).Stamp? ==> Locked(s.Pc(u)));
      AsOfExtends(s, op, s.Local(u).version);
    }
  }

  /** Whoever did not move keeps its part, as no version was created. */
  lemma OthersKeepInv(s: State, s': State, t: Tid)
    requires Inv(s) && s'.ops == s.ops && s'.version == s.version && LocalInv(s', t)
    requires forall u: Tid :: u != t ==> s'.Pc(u) == s.Pc(u) && s'.Local(u) == s.Local(u)
    ensures forall u: Tid :: LocalInv(s', u)
  {
    forall u: Tid ensures LocalInv(s', u) {
      assert LocalInv(s, u);
    }
  }

  lemma ChangeKeepsInv(s: State, t: Tid)
    requires Inv(s) && (s.Pc(t).Lock? || s.Pc(t).Change? || s.Pc(t).Erase?)
    ensures Inv(Step(s, Go(t)).0)
  {
    var s' := Step(s, Go(t)).0;
    assert LocalInv(s, t) && (Locked(s.Pc(t)) <==> s.owner == Some(t));
    assert LocalInv(s', t);
    OthersKeepInv(s, s', t);
  }

  lemma PublishKeepsInv(s: State, t: Tid)
    requires Inv(s) && !s.Pc(t).Lock? && !s.Pc(t).Change? && !s.Pc(t).Count? && !s.Pc(t).Erase?
    ensures Inv(Step(s, Go(t)).0)
  {
    var s' := Step(s, Go(t)).0;
    assert LocalInv(s, t) && (Locked(s.Pc(t)) <==> s.owner == Some(t));
    assert LocalInv(s', t);
    OthersKeepInv(s, s', t);
  }

  lemma StepKeepsInv(s: State, l: Label)
    requires Inv(s)
    ensures Inv(Step(s, l).0)
  {
    if l.Go? {
      if s.Pc(l.t).Count? {
        CountKeepsInv(s, l.t);
      } else if s.Pc(l.t).Lock? || s.Pc(l.t).Change? || s.Pc(l.t).Erase? {
        ChangeKeepsInv(s, l.t);
      } else {
        PublishKeepsInv(s, l.t);
      }
    } else {
      assert LocalInv(s, l.t) && (Locked(s.Pc(l.t)) <==> s.owner == Some(l.t));
      OthersKeepInv(s, Step(s, l).0, l.t);
    }
  }

  lemma {:induction false} ExecKeepsInv(ls: seq<Label>)
    ensures Inv(Exec(ls))
  {
    if ls == [] {
      InitInv();
    } else {
      ExecKeepsInv(ls[..|ls| - 1]);
      StepKeepsInv(Exec(ls[..|ls| - 1]), ls[|ls| - 1]);
    }
  }

  // ------------------------------------------------------------------ what it guarantees

  /** Cache coherence over every run: outside the few steps of a synchronization, each thread's
      copy is the shared table as of its version, whose lists are never empty; and with the
      lock free the shared table is the newest version. */
  lemma CacheCoherent(ls: seq<Label>, t: Tid)
    ensures var s := Exec(ls);
            && s.Local(t).version <= s.version == |s.ops|
            && (!s.Pc(t).Stamp? ==> s.Local(t).table == AsOf(s, s.Local(t).version))
            && NoEmptyList(s.Local(t).table)
            && (s.owner.None? ==> s.table == AsOf(s, s.version) && NoEmptyList(s.table))
  {
    ExecKeepsInv(ls);
    var s := Exec(ls);
    assert LocalInv(s, t);
    TableMeaning(s.ops[..if s.Pc(t).Stamp? then s.version else s.Local(t).version], 0);
    TableMeaning(s.ops[..s.version], 0);
  }

  /** Thread `t` is publishing an event of type `ty` and has read version `v`. */
  predicate Publishing(s: State, t: Tid, ty: EventType, v: nat) {
    var pc := s.Pc(t);
    (pc.SyncLock? || pc.Copy? || pc.Stamp? || pc.Deliver?) && pc.ty == ty && pc.seen == v
  }

  lemma PublishingStep(s: State, l: Label, t: Tid, ty: EventType, v: nat)
    requires Publishing(s, t, ty, v)
    ensures var (s', e) := Step(s, l);
            if e.Delivered? && e.t == t then e.ty == ty && l == Go(t) && s.Pc(t).Deliver? else Publishing(s', t, ty, v)
  {
  }

  predicate DeliversAt(ls: seq<Label>, t: Tid, k: nat)
    requires k < |ls|
  {
    var e := Step(Exec(ls[..k]), ls[k]).1;
    e.Delivered? && e.t == t
  }

  lemma {:induction false} StillPublishing(ls: seq<Label>, i: nat, j: nat, t: Tid, ty: EventType, v: nat)
    requires i <= j <= |ls| && Publishing(Exec(ls[..i]), t, ty, v)
    requires forall k :: i <= k < j ==> !DeliversAt(ls, t, k)
    ensures Publishing(Exec(ls[..j]), t, ty, v)
    decreases j
  {
    if i < j {
      StillPublishing(ls, i, j - 1, t, ty, v);
      PublishingAt(ls, j - 1, t, ty, v);
    }
  }

  lemma PublishingAt(ls: seq<Label>, k: nat, t: Tid, ty: EventType, v: nat)
    requires k < |ls| && Publishing(Exec(ls[..k]), t, ty, v) && !DeliversAt(ls, t, k)
    ensures Publishing(Exec(ls[..k + 1]), t, ty, v)
  {
    assert ls[..k + 1][..k] == ls[..k];
    PublishingStep(Exec(ls[..k]), ls[k], t, ty, v);
  }

  /** Every delivery of every run.  If thread `t`, publishing an event of type `ty`, loads the
      version at step `i`, and step `j` is its next delivery, then it delivers events of that
      type to exactly the subscriptions that the first `used` changes left, and these include
      all changes that had been counted by step `i`. */
  lemma DeliveryIsExact(ls: seq<Label>, i: nat, j: nat, t: Tid, ty: EventType)
    requires i < j < |ls| && ls[i] == Go(t) && Exec(ls[..i]).Pc(t) == LoadVersion(ty)
    requires DeliversAt(ls, t, j) && forall k :: i < k < j ==> !DeliversAt(ls, t, k)
    ensures var s := Exec(ls[..j]);
            var e := Step(s, ls[j]).1;
            && e.ty == ty && |Exec(ls[..i]).ops| <= e.used <= |s.ops|
            && multiset(e.boxes) == Wanted(s.ops[..e.used], ty)
  {
    var v := |Exec(ls[..i]).ops|;
    ExecKeepsInv(ls[..i]);
    assert ls[..i + 1][..i] == ls[..i];
    StillPublishing(ls, i + 1, j, t, ty, v);
    var s := Exec(ls[..j]);
    PublishingStep(s, ls[j], t, ty, v);
    ExecKeepsInv(ls[..j]);
    assert LocalInv(s, t);
    TableMeaning(s.ops[..s.Local(t).version], ty);
  }

  // ------------------------------------------------------------------ calls that nobody interrupts

  /** `r` holds of whatever thread `t` alone makes of its states. */
  ghost predicate Closed(r: State -> bool, t: Tid) {
    forall s {:trigger Step(s, Go(t))} :: r(s) ==> r(Step(s, Go(t)).0)
  }

  lemma Advance(r: State -> bool, s: State, t: Tid) returns (s': State)
    requires Closed(r, t) && r(s) && Inv(s)
    ensures r(s') && s' == Step(s, Go(t)).0 && Inv(s')
  {
    s' := Step(s, Go(t)).0;
    StepKeepsInv(s, Go(t));
  }

  /** Nobody holds the lock and thread `t` is outside. */
  ghost predicate Quiet(s: State, t: Tid) {
    Inv(s) && s.owner.None? && s.Pc(t).Away?
  }

  lemma CallTrack(r: State -> bool, s: State, t: Tid, op: Op) returns (s': State)
    requires Closed(r, t) && r(s) && Inv(s) && s.owner.None? && s.Pc(t) == Lock(op)
    ensures r(s') && Quiet(s', t)
    ensures s'.ops == if op.Sub? || op.b in Subscribers(s.table, op.ty) then s.ops + [op] else s.ops
  {
    s' := Advance(r, s, t);
    assert s'.Pc(t) == Change(op) && s'.table == s.table && s'.ops == s.ops;
    s' := Advance(r, s', t);
    if op.Sub? || op.b in Subscribers(s.table, op.ty) {
      assert s'.Pc(t) == Count(op) && s'.ops == s.ops;
      s' := Advance(r, s', t);
      if op.Unsub? {
        s' := Advance(r, s', t);
      }
    }
  }

  /** A publication comes to its delivery with the newest table. */
  lemma SyncTrack(r: State -> bool, s: State, t: Tid, ty: EventType) returns (s': State)
    requires Closed(r, t) && r(s) && Inv(s) && s.owner.None? && s.Pc(t) == LoadVersion(ty)
    ensures r(s') && Inv(s') && s'.owner.None? && s'.Pc(t).Deliver? && s'.Pc(t).ty == ty
    ensures s'.ops == s.ops && s'.Local(t).version == |s.ops|
  {
    assert LocalInv(s, t);
    s' := Advance(r, s, t);
    if s.Local(t).version < s.version {
      assert s'.Pc(t) == SyncLock(ty, s.version) && s'.ops == s.ops && s'.version == s.version;
      s' := Advance(r, s', t);
      assert s'.Pc(t) == Copy(ty, s.version) && s'.ops == s.ops && s'.version == s.version;
      s' := Advance(r, s', t);
      assert s'.Pc(t) == Stamp(ty, s.version) && s'.ops == s.ops && s'.version == s.version;
      s' := Advance(r, s', t);
    }
  }

  function After(s: State, t: Tid, n: nat): State {
    if n == 0 then s else Step(After(s, t, n - 1), Go(t)).0
  }

  lemma AfterIsClosed(s: State, t: Tid)
    ensures var r := s' => exists n: nat :: After(s, t, n) == s'; r(s) && Closed(r, t)
  {
    assert After(s, t, 0) == s;
    forall s1 | exists n: nat :: After(s, t, n) == s1 ensures exists n: nat :: After(s, t, n) == Step(s1, Go(t)).0 {
      var n: nat :| After(s, t, n) == s1;
      assert After(s, t, n + 1) == Step(s1, Go(t)).0;
    }
  }

  /** An uninterrupted call takes effect as one change, unless it unsubscribes who is not
      subscribed; and then the lock is free again. */
  lemma CallAlone(s: State, t: Tid, op: Op) returns (n: nat)
    requires Quiet(s, t)
    ensures var s' := After(Step(s, Call(t, op)).0, t, n);
            && Quiet(s', t)
            && s'.ops == if op.Sub? || op.b in Subscribers(s.table, op.ty) then s.ops + [op] else s.ops
  {
    var s0 := Step(s, Call(t, op)).0;
    StepKeepsInv(s, Call(t, op));
    AfterIsClosed(s0, t);
    var s' := CallTrack(s' => exists n: nat :: After(s0, t, n) == s', s0, t, op);
    n :| After(s0, t, n) == s';
  }

  /** An uninterrupted publication delivers to exactly the present subscriptions. */
  lemma PublishAlone(s: State, t: Tid, ty: EventType) returns (n: nat)
    requires Quiet(s, t)
    ensures var s' := After(Step(s, Publish(t, ty)).0, t, n);
            var (s'', e) := Step(s', Go(t));
            && Quiet(s'', t) && s''.ops == s.ops
            && e.Delivered? && e.t == t && e.ty == ty && multiset(e.boxes) == Wanted(s.ops, ty)
  {
    var s0 := Step(s, Publish(t, ty)).0;
    StepKeepsInv(s, Publish(t, ty));
    AfterIsClosed(s0, t);
    var s' := SyncTrack(s' => exists n: nat :: After(s0, t, n) == s', s0, t, ty);
    n :| After(s0, t, n) == s';
    DeliverNow(s', t, ty);
  }

  lemma DeliverNow(s: State, t: Tid, ty: EventType)
    requires Inv(s) && s.owner.None? && s.Pc(t).Deliver? && s.Pc(t).ty == ty && s.Local(t).version == |s.ops|
    ensures var (s', e) := Step(s, Go(t));
            && Quiet(s', t) && s'.ops == s.ops
            && e.Delivered? && e.t == t && e.ty == ty && multiset(e.boxes) == Wanted(s.ops, ty)
  {
    StepKeepsInv(s, Go(t));
    assert LocalInv(s, t);
    assert s.ops[..|s.ops|] == s.ops;
    TableMeaning(s.ops, ty);
  }
}
