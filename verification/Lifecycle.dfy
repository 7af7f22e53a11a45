/** Whole runs of the supervisor together with the actors it launches.

    An actor runs until it ends and then posts one exit notice, which a full mailbox may drop;
    crash reports and commands may arrive at any time, in any order and number. */
module Lifecycle {
  import opened ActorManager

  /** `live` holds one entry per running coroutine, `notices` one per exit notice not yet
      handled; `latched` counts the latch. */
  datatype World = World(t: Tables, live: multiset<Id>, notices: multiset<Id>, latched: nat, ended: bool)

  datatype Step =
    | Receive(i: Input)
    | ActorEnds(id: Id, dropped: bool)
    | Shutdown

  /** The supervisor after start-up has loaded the configured modules. */
  function Init(config: seq<string>, ok: set<string>): World {
    var e := Load(Tables(map[], {}, {}, {}, false, true, 1, config), config, ok);
    World(e.t, multiset(e.launched), multiset{}, 0, false)
  }

  /** A step that cannot happen in `w` does nothing. */
  ghost function Next(w: World, s: Step): World {
    match s
    case Receive(i) =>
      if w.ended || !WellFormed(i) || (i.event.ModuleExited? && i.event.sender !in w.notices) then w
      else
        var e := Handle(w.t, i);
        var end := Ends(w.t, i);
        World(e.t, w.live + multiset(e.launched),
              if i.event.ModuleExited? then w.notices - multiset{i.event.sender} else w.notices,
              if end then w.latched + 1 else w.latched, end)
    case ActorEnds(id, dropped) =>
      if id !in w.live then w
      else w.(live := w.live - multiset{id}, notices := if dropped then w.notices else w.notices + multiset{id})
    case Shutdown => w.(t := w.t.(running := false))
  }

  ghost function Run(w: World, ss: seq<Step>): World {
    if ss == [] then w else Next(Run(w, ss[..|ss| - 1]), ss[|ss| - 1])
  }

  /** Coroutines and outstanding notices of one actor. */
  function Incarnations(w: World, id: Id): nat {
    w.live[id] + w.notices[id]
  }

  predicate Single(w: World, id: Id) {
    Incarnations(w, id) <= 1 && (Incarnations(w, id) > 0 ==> id in w.t.children)
  }

  /** While a reload of all modules waits for exits, every child it no longer waits for is
      dead. */
  ghost predicate ReloadAllWaits(w: World) {
    w.t.reloadAll && w.t.reload != {} ==>
      forall id :: id in w.t.children && id !in w.t.reload ==> Incarnations(w, id) == 0
  }

  ghost predicate Inv(w: World) {
    && Disciplined(w.t)
    && (forall id :: Single(w, id))
    && ReloadAllWaits(w)
    && w.latched == (if w.ended then 1 else 0)
    && (w.ended ==> w.t.children == map[])
  }

  lemma {:induction false} CountOnce(ids: seq<Id>)
    requires forall i, j :: 0 <= i < j < |ids| ==> ids[i] != ids[j]
    ensures forall id :: multiset(ids)[id] <= 1 && (multiset(ids)[id] > 0 <==> id in ids)
  {
    if ids != [] {
      var rest := ids[..|ids| - 1];
      CountOnce(rest);
      assert ids == rest + [ids[|ids| - 1]];
      assert ids[|ids| - 1] !in rest;
    }
  }

  lemma InitInv(config: seq<string>, ok: set<string>)
    requires DistinctNames(config)
    ensures Inv(Init(config, ok))
  {
    var t := Tables(map[], {}, {}, {}, false, true, 1, config);
    LoadLaunches(t, config, ok);
    CountOnce(Load(t, config, ok).launched);
    forall id ensures Single(Init(config, ok), id) {
    }
  }

  /** Launching dead actors, each once, keeps one incarnation per actor. */
  lemma LaunchKeeps(w: World, e: Effect, t: Tables, names: seq<string>, id: Id)
    requires Disciplined(t) && Launches(t, e, names) && Incarnations(w, id) == 0
    ensures Single(w.(t := e.t, live := w.live + multiset(e.launched)), id)
  {
    CountOnce(e.launched);
  }

  lemma LaunchOneKeeps(w: World, t: Tables, x: Id, id: Id)
    requires Single(w, id) && Incarnations(w, x) == 0 && x in t.children
    requires id in w.t.children ==> id in t.children
    ensures Single(w.(t := t, live := w.live + multiset([x])), id)
  {
    assert multiset([x])[id] == if id == x then 1 else 0;
  }

  lemma ReloadKeepsInv(w: World, i: Input)
    requires Inv(w) && !w.ended && WellFormed(i) && i.event.CmdReload?
    ensures Inv(Next(w, Receive(i)))
  {
    HandleKeepsDiscipline(w.t, i);
    var w' := Next(w, Receive(i));
    forall id ensures Single(w', id) {
      ReloadKeepsSingle(w, i, id);
    }
    assert ReloadAllWaits(w') by {
      if i.event.update.None? {
        assert w.live + multiset([]) == w.live;
        forall id ensures Incarnations(w', id) == Incarnations(w, id) {
        }
      } else if i.event.name == "all" {
        MarkedAll(w.t, i);
      }
    }
  }

  /** After a command to reload everything, either nobody is waited for or everybody is. */
  lemma MarkedAll(t: Tables, i: Input)
    requires Disciplined(t) && WellFormed(i) && i.event.CmdReload? && i.event.update.Some? && i.event.name == "all"
    ensures var t' := Handle(t, i).t; t'.reload == {} || t'.children.Keys <= t'.reload
  {
    var t2 := t.(config := i.event.update.value, reloadAll := true, reload := t.reload + t.children.Keys,
                 restart := t.restart - t.children.Keys);
    if t2.reload == {} {
      assert t.children.Keys == {};
      LoadLaunches(t2, t2.config, i.ok);
    }
  }

  lemma ReloadKeepsSingle(w: World, i: Input, id: Id)
    requires Inv(w) && !w.ended && WellFormed(i) && i.event.CmdReload?
    ensures Single(Next(w, Receive(i)), id)
  {
    assert Single(w, id) && Single(w, w.t.nextId);
    var t := w.t;
    if i.event.update.Some? {
      var t1 := t.(config := i.event.update.value, reloadAll := i.event.name == "all");
      if i.event.name == "all" {
        var t2 := t1.(reload := t.reload + t.children.Keys, restart := t.restart - t.children.Keys);
        if t2.reload == {} {
          assert t.children.Keys == {};
          LoadLaunches(t2, t2.config, i.ok);
          LaunchKeeps(w, Load(t2, t2.config, i.ok), t2, t2.config, id);
        } else {
          assert w.live + multiset([]) == w.live;
        }
      } else if !Named(t.children, i.event.name) {
        var e := ReloadOne(t1, NO_ID, i.event.name, i.ok);
        if e.launched != [] {
          assert e.launched == [t.nextId];
          LaunchOneKeeps(w, e.t, t.nextId, id);
        } else {
          assert w.live + multiset([]) == w.live;
        }
      }
    }
  }

  /** The key case: when the last exit of a reload of all modules is handled, no child is
      live, so relaunching them all doubles nobody. */
  lemma LastExitFindsAllDead(w: World, id: Id, x: Id)
    requires Inv(w) && id in w.notices && w.t.reloadAll && w.t.reload == {id}
    ensures Incarnations(w.(notices := w.notices - multiset{id}), x) == 0
  {
    assert Single(w, id) && Single(w, x);
  }

  /** The tables once an exit notice has been taken off the pending sets. */
  function Unpend(t: Tables, id: Id): Tables {
    t.(reload := t.reload - {id}, stop := t.stop - {id}, restart := t.restart - {id})
  }

  lemma RelaunchKeepsSingle(w: World, id: Id, ok: set<string>, x: Id)
    requires Inv(w) && id in w.notices && w.t.running && w.t.reloadAll && w.t.reload == {id}
    ensures var e := Relaunch(Unpend(w.t, id), w.t.config, ok);
            Single(w.(t := e.t, live := w.live + multiset(e.launched), notices := w.notices - multiset{id}), x)
  {
    var t1 := Unpend(w.t, id);
    LastExitFindsAllDead(w, id, x);
    RelaunchLaunches(t1, t1.config, ok);
    LaunchKeeps(w.(notices := w.notices - multiset{id}), Relaunch(t1, t1.config, ok), t1, t1.config, x);
  }

  /** Apart from the relaunch of all, an exit launches at most the actor that has just ended. */
  lemma ExitedLaunches(t: Tables, id: Id, shutdown: bool, ok: set<string>)
    requires Disciplined(t) && id in t.children && !(t.running && t.reloadAll && t.reload == {id})
    ensures var e := OnExited(t, id, shutdown, ok);
            && (e.launched == [] || (e.launched == [id] && e.t.children == t.children))
            && (e.t.children == t.children || e.t.children == t.children - {id})
            && e.t.reload == t.reload - {id} && e.t.reloadAll == t.reloadAll
            && (id in t.reload && t.reloadAll && t.running ==> e.launched == [])
  {
    assert id in t.reload && t.reload - {id} == {} ==> t.reload == {id};
  }

  lemma ExitedKeepsSingle(w: World, i: Input, x: Id)
    requires Inv(w) && !w.ended && i.event.ModuleExited? && i.event.sender in w.notices
    ensures Single(Next(w, Receive(i)), x)
  {
    var id, t := i.event.sender, w.t;
    assert Single(w, id) && Single(w, x);
    if t.running && t.reloadAll && t.reload == {id} {
      RelaunchKeepsSingle(w, id, i.ok, x);
    } else {
      ExitedLaunches(t, id, i.event.shutdown, i.ok);
      ExitOfOneKeepsSingle(w, id, OnExited(t, id, i.event.shutdown, i.ok), x);
    }
  }

  /** The notice is gone, and with it the actor, unless that one is launched again. */
  lemma ExitOfOneKeepsSingle(w: World, id: Id, e: Effect, x: Id)
    requires Inv(w) && id in w.notices
    requires e.launched == [] || (e.launched == [id] && e.t.children == w.t.children)
    requires e.t.children == w.t.children || e.t.children == w.t.children - {id}
    ensures Single(w.(t := e.t, live := w.live + multiset(e.launched), notices := w.notices - multiset{id}), x)
  {
    assert Single(w, id) && Single(w, x);
    if e.launched == [id] {
      LaunchOneKeeps(w.(notices := w.notices - multiset{id}), e.t, id, x);
    } else {
      assert w.live + multiset(e.launched) == w.live;
    }
  }

  lemma ExitedKeepsInv(w: World, i: Input)
    requires Inv(w) && !w.ended && i.event.ModuleExited? && i.event.sender in w.notices
    ensures Inv(Next(w, Receive(i)))
  {
    HandleKeepsDiscipline(w.t, i);
    var id, t, w' := i.event.sender, w.t, Next(w, Receive(i));
    forall x ensures Single(w', x) {
      ExitedKeepsSingle(w, i, x);
    }
    assert ReloadAllWaits(w') by {
      if w'.t.reloadAll && w'.t.reload != {} {
        ExitedKeepsWaiting(w, i);
      }
    }
  }

  /** While the wait goes on, the child whose notice was handled joins the dead. */
  lemma ExitedKeepsWaiting(w: World, i: Input)
    requires Inv(w) && !w.ended && i.event.ModuleExited? && i.event.sender in w.notices
    requires var t := Next(w, Receive(i)).t; t.reloadAll && t.reload != {}
    ensures ReloadAllWaits(Next(w, Receive(i)))
  {
    var id, t, w' := i.event.sender, w.t, Next(w, Receive(i));
    assert Single(w, id) && Incarnations(w, id) == 1;
    if t.running && t.reloadAll && t.reload == {id} {
      RelaunchLaunches(Unpend(t, id), t.config, i.ok);
    } else {
      ExitedLaunches(t, id, i.event.shutdown, i.ok);
      assert id in t.reload;
      forall x | x in w'.t.children && x !in w'.t.reload ensures Incarnations(w', x) == 0 {
        ExitedWaitingStep(w, i, x);
      }
    }
  }

  lemma ExitedWaitingStep(w: World, i: Input, x: Id)
    requires Inv(w) && !w.ended && i.event.ModuleExited? && i.event.sender in w.notices
    requires w.t.reloadAll && i.event.sender in w.t.reload && w.t.reload != {i.event.sender}
    ensures Incarnations(Next(w, Receive(i)), x) == Incarnations(w, x) - if x == i.event.sender then 1 else 0
  {
    var id := i.event.sender;
    assert Single(w, id);
    ExitedLaunches(w.t, id, i.event.shutdown, i.ok);
    if w.t.running {
      assert w.live + multiset(OnExited(w.t, id, i.event.shutdown, i.ok).launched) == w.live;
    }
  }

  lemma EndsKeepsInv(w: World, id: Id, dropped: bool)
    requires Inv(w) && id in w.live
    ensures Inv(Next(w, ActorEnds(id, dropped)))
  {
    var w' := Next(w, ActorEnds(id, dropped));
    forall x ensures Single(w', x) && Incarnations(w', x) <= Incarnations(w, x) {
      assert Single(w, x);
    }
    if w.t.reloadAll && w.t.reload != {} {
      forall x | x in w.t.children && x !in w.t.reload ensures Incarnations(w', x) == 0 {
        assert Incarnations(w, x) == 0;
      }
    }
  }

  /** Messages that launch nobody and handle no notice. */
  lemma QuietKeepsInv(w: World, i: Input)
    requires Inv(w) && !w.ended && WellFormed(i) && !i.event.CmdReload? && !i.event.ModuleExited?
    ensures Inv(Next(w, Receive(i)))
  {
    HandleKeepsDiscipline(w.t, i);
    var w' := Next(w, Receive(i));
    assert w'.live == w.live;
    forall x ensures Single(w', x) && Incarnations(w', x) == Incarnations(w, x) {
      assert Single(w, x);
    }
  }

  lemma NextKeepsInv(w: World, s: Step)
    requires Inv(w)
    ensures Inv(Next(w, s))
  {
    match s
    case Receive(i) =>
      if !w.ended && WellFormed(i) {
        match i.event
        case CmdReload(_, _) => ReloadKeepsInv(w, i);
        case ModuleExited(id, _) =>
          if id in w.notices {
            ExitedKeepsInv(w, i);
          }
        case _ => QuietKeepsInv(w, i);
      }
    case ActorEnds(id, dropped) =>
      if id in w.live {
        EndsKeepsInv(w, id, dropped);
      }
    case Shutdown =>
      var w' := Next(w, s);
      forall x ensures Single(w', x) && Incarnations(w', x) == Incarnations(w, x) {
        assert Single(w, x);
      }
  }

  lemma {:induction false} RunKeepsInv(config: seq<string>, ok: set<string>, ss: seq<Step>)
    requires DistinctNames(config)
    ensures Inv(Run(Init(config, ok), ss))
  {
    if ss == [] {
      InitInv(config, ok);
    } else {
      RunKeepsInv(config, ok, ss[..|ss| - 1]);
      NextKeepsInv(Run(Init(config, ok), ss[..|ss| - 1]), ss[|ss| - 1]);
    }
  }

  /** One incarnation per actor, over every run: an id has at most one coroutine or unhandled
      exit notice, and whoever has one is registered. */
  lemma OneIncarnation(config: seq<string>, ok: set<string>, ss: seq<Step>, id: Id)
    requires DistinctNames(config)
    ensures var w := Run(Init(config, ok), ss);
            Incarnations(w, id) <= 1 && (Incarnations(w, id) == 1 ==> id in w.t.children)
  {
    RunKeepsInv(config, ok, ss);
    assert Single(Run(Init(config, ok), ss), id);
  }

  /** The pending sets stay within the children and child names stay distinct, over every
      run. */
  lemma AlwaysDisciplined(config: seq<string>, ok: set<string>, ss: seq<Step>)
    requires DistinctNames(config)
    ensures Disciplined(Run(Init(config, ok), ss).t)
  {
    RunKeepsInv(config, ok, ss);
  }

  /** Safe shutdown: over every run the latch is counted down at most once, and once it is,
      no actor coroutine is live and no exit notice is outstanding. */
  lemma LatchIsSafe(config: seq<string>, ok: set<string>, ss: seq<Step>)
    requires DistinctNames(config)
    ensures var w := Run(Init(config, ok), ss);
            w.latched <= 1 && (w.latched == 1 ==> w.live == multiset{} && w.notices == multiset{})
  {
    RunKeepsInv(config, ok, ss);
    var w := Run(Init(config, ok), ss);
    if w.latched == 1 {
      forall id ensures w.live[id] == 0 && w.notices[id] == 0 {
        assert Single(w, id);
      }
    }
  }

  // ------------------------------------------------------------------ shutdown

  /** Steps of a supervisor that is shutting down and gets no further reload command. */
  predicate Winding(s: Step) {
    s.Receive? ==> !s.i.event.CmdReload?
  }

  predicate RemovesChild(w: World, s: Step) {
    s.Receive? && s.i.event.ModuleExited? && s.i.event.sender in w.notices && s.i.event.sender in w.t.children
  }

  /** An exit notice during shutdown removes its child and launches nobody. */
  lemma ExitedWhileDown(t: Tables, id: Id, shutdown: bool, ok: set<string>)
    requires !t.running
    ensures var e := OnExited(t, id, shutdown, ok);
            && e.launched == [] && !e.t.running && e.t.children == t.children - {id}
  {
  }

  /** So does its step: it takes the notice off and ends the loop with the last child. */
  lemma ShutdownExit(w: World, i: Input)
    requires Inv(w) && !w.t.running && !w.ended && i.event.ModuleExited? && i.event.sender in w.notices
    ensures var w' := Next(w, Receive(i));
            && !w'.t.running && w'.live == w.live && i.event.sender in w.t.children
            && w'.t.children == w.t.children - {i.event.sender} && w'.ended == (w'.t.children == map[])
  {
    assert Single(w, i.event.sender);
    ExitedWhileDown(w.t, i.event.sender, i.event.shutdown, i.ok);
  }

  /** Commands and reports during shutdown leave the children alone. */
  lemma ShutdownQuiet(w: World, i: Input)
    requires !w.t.running && !w.ended && WellFormed(i) && !i.event.CmdReload? && !i.event.ModuleExited?
    ensures var w' := Next(w, Receive(i));
            && !w'.t.running && w'.live == w.live && w'.t.children == w.t.children
            && w'.ended == (i.event.CmdExit? && w.t.children == map[])
  {
    assert Handle(w.t, i).launched == [];
  }

  /** Every step of a shutdown either removes exactly the child whose notice it handles or
      leaves the children alone, launches nobody, and ends the loop exactly when it handles
      the last notice, or an exit command that finds no children. */
  lemma ShutdownStep(w: World, s: Step)
    requires Inv(w) && !w.t.running && !w.ended && Winding(s)
    ensures var w' := Next(w, s);
            && !w'.t.running && w'.live <= w.live
            && w'.t.children == (if RemovesChild(w, s) then w.t.children - {s.i.event.sender} else w.t.children)
            && (w'.ended <==> w'.t.children == map[] && (RemovesChild(w, s) || (s.Receive? && s.i.event.CmdExit?)))
  {
    if s.Receive? && WellFormed(s.i) {
      if !s.i.event.ModuleExited? {
        ShutdownQuiet(w, s.i);
      } else if s.i.event.sender in w.notices {
        ShutdownExit(w, s.i);
      }
    }
  }

  /** How many exit notices of registered children a run handles. */
  ghost function Removals(w: World, ss: seq<Step>): nat {
    if ss == [] then 0
    else
      var w0 := Run(w, ss[..|ss| - 1]);
      Removals(w, ss[..|ss| - 1]) + if !w0.ended && RemovesChild(w0, ss[|ss| - 1]) then 1 else 0
  }

  /** Shutdown progress: with children present and no further reload command, each handled
      notice of a registered child removes exactly one, nothing is launched, and, in whatever
      order the notices come, the loop ends exactly with the last child. */
  lemma {:induction false} ShutdownEndsWithLastChild(w: World, ss: seq<Step>)
    requires Inv(w) && !w.t.running && !w.ended && w.t.children != map[]
    requires forall i :: 0 <= i < |ss| ==> Winding(ss[i])
    ensures var w' := Run(w, ss);
            && Inv(w') && !w'.t.running && w'.live <= w.live
            && w'.t.children.Keys <= w.t.children.Keys
            && |w'.t.children| + Removals(w, ss) == |w.t.children|
            && (w'.ended <==> w'.t.children == map[])
  {
    if ss != [] {
      var ss0, s := ss[..|ss| - 1], ss[|ss| - 1];
      ShutdownEndsWithLastChild(w, ss0);
      var w0, w' := Run(w, ss0), Run(w, ss);
      NextKeepsInv(w0, s);
      if !w0.ended {
        ShutdownStep(w0, s);
        if RemovesChild(w0, s) {
          assert w'.t.children.Keys == w0.t.children.Keys - {s.i.event.sender};
          assert |w'.t.children.Keys| == |w0.t.children.Keys| - 1;
        }
      }
    }
  }
}
