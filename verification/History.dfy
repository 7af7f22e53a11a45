/** What the supervisor does, told from the messages it has handled.

    The pending sets, the flag for reloading everything and the configuration are functions of
    the commands, reports and notices handled so far, and with them the fate of an actor whose
    exit notice arrives is decided. */
module History {
  import opened Options
  import opened ActorManager
  import opened Lifecycle

  /** The step is a message that the supervisor handles in `w`. */
  predicate Handled(w: World, s: Step) {
    && s.Receive? && !w.ended && WellFormed(s.i)
    && (s.i.event.ModuleExited? ==> s.i.event.sender in w.notices)
  }

  /** The message is a reload command, with a readable configuration, that concerns child `id`. */
  predicate OrdersReload(t: Tables, e: Event, id: Id) {
    && e.CmdReload? && e.update.Some? && id in t.children
    && (e.name == "all" || t.children[id] == e.name)
  }

  /** It is a command to stop child `id`, for good or with all others. */
  predicate OrdersStop(t: Tables, e: Event, id: Id) {
    id in t.children && (e.CmdExit? || (e.CmdRemove? && t.children[id] == e.name))
  }

  /** What is to become of one actor when it ends. */
  datatype Mark = Mark(reload: bool, stop: bool, restart: bool)

  const UNMARKED: Mark := Mark(false, false, false)

  /** An order to reload or stop overrides a crash; a crash counts for an actor that is neither
      to be reloaded nor stopped, while the supervisor is not shutting down; its exit notice
      settles everything. */
  function Remark(t: Tables, e: Event, id: Id, m: Mark): Mark {
    if e.ModuleExited? && e.sender == id then UNMARKED
    else if OrdersReload(t, e, id) then m.(reload := true, restart := false)
    else if OrdersStop(t, e, id) then m.(stop := true, restart := false)
    else if e == CrashReport(id) && id in t.children && t.running && !m.reload && !m.stop then m.(restart := true)
    else m
  }

  ghost function MarkOf(w: World, ss: seq<Step>, id: Id): Mark {
    if ss == [] then UNMARKED
    else
      var ss0, s := ss[..|ss| - 1], ss[|ss| - 1];
      if Handled(Run(w, ss0), s) then Remark(Run(w, ss0).t, s.i.event, id, MarkOf(w, ss0, id)) else MarkOf(w, ss0, id)
  }

  /** The last reload command with a readable configuration, if any. */
  ghost function LastReload(w: World, ss: seq<Step>): Option<Event> {
    if ss == [] then None
    else
      var ss0, s := ss[..|ss| - 1], ss[|ss| - 1];
      if Handled(Run(w, ss0), s) && s.i.event.CmdReload? && s.i.event.update.Some? then Some(s.i.event)
      else LastReload(w, ss0)
  }

  /** The tables say of `id` what its mark says. */
  predicate Agrees(t: Tables, id: Id, m: Mark) {
    (m.reload <==> id in t.reload) && (m.stop <==> id in t.stop) && (m.restart <==> id in t.restart)
  }

  lemma SetsOfLaunch(t: Tables, names: seq<string>, ok: set<string>)
    requires Disciplined(t) && DistinctNames(names)
    ensures var e := Relaunch(t, names, ok); e.t == t.(children := e.t.children, nextId := e.t.nextId)
    ensures t.children == map[] ==> var e := Load(t, names, ok); e.t == t.(children := e.t.children, nextId := e.t.nextId)
  {
    RelaunchLaunches(t, names, ok);
    if t.children == map[] {
      LoadLaunches(t, names, ok);
    }
  }

  lemma ReloadRemarks(t: Tables, i: Input, id: Id, m: Mark)
    requires Disciplined(t) && WellFormed(i) && i.event.CmdReload? && Agrees(t, id, m)
    ensures Agrees(Handle(t, i).t, id, Remark(t, i.event, id, m))
  {
    var name, update := i.event.name, i.event.update;
    if update.Some? {
      var t1 := t.(config := update.value, reloadAll := name == "all");
      if name == "all" {
        var t2 := t1.(reload := t.reload + t.children.Keys, restart := t.restart - t.children.Keys);
        if t2.reload == {} {
          assert t.children.Keys == {};
          SetsOfLaunch(t2, t2.config, i.ok);
        }
      } else if Named(t.children, name) {
        assert id in t.children && t.children[id] == name <==> id == IdOf(t.children, name);
      }
    }
  }

  lemma ExitRemarks(t: Tables, i: Input, id: Id, m: Mark)
    requires Disciplined(t) && i.event.ModuleExited? && Agrees(t, id, m)
    ensures Agrees(Handle(t, i).t, id, Remark(t, i.event, id, m))
  {
    var t1 := Unpend(t, i.event.sender);
    SetsOfLaunch(t1, t1.config, i.ok);
  }

  lemma HandleRemarks(t: Tables, i: Input, id: Id, m: Mark)
    requires Disciplined(t) && WellFormed(i) && Agrees(t, id, m)
    ensures Agrees(Handle(t, i).t, id, Remark(t, i.event, id, m))
  {
    if i.event.CmdReload? {
      ReloadRemarks(t, i, id, m);
    } else if i.event.ModuleExited? {
      ExitRemarks(t, i, id, m);
    } else if i.event.CmdRemove? && Named(t.children, i.event.name) {
      assert id in t.children && t.children[id] == i.event.name <==> id == IdOf(t.children, i.event.name);
    }
  }

  /** The pending sets are what the handled messages say, over every run and for every id. */
  lemma {:induction false} MarksArePending(config: seq<string>, ok: set<string>, ss: seq<Step>, id: Id)
    requires DistinctNames(config)
    ensures var w := Init(config, ok); Agrees(Run(w, ss).t, id, MarkOf(w, ss, id))
  {
    var w := Init(config, ok);
    if ss == [] {
      var t := Tables(map[], {}, {}, {}, false, true, 1, config);
      SetsOfLaunch(t, config, ok);
    } else {
      var ss0, s := ss[..|ss| - 1], ss[|ss| - 1];
      MarksArePending(config, ok, ss0, id);
      RunKeepsInv(config, ok, ss0);
      if Handled(Run(w, ss0), s) {
        HandleRemarks(Run(w, ss0).t, s.i, id, MarkOf(w, ss0, id));
      }
    }
  }

  /** No shutdown has been requested so far. */
  ghost function StillUp(w: World, ss: seq<Step>): bool {
    if ss == [] then true
    else
      var ss0, s := ss[..|ss| - 1], ss[|ss| - 1];
      && StillUp(w, ss0) && !s.Shutdown?
      && !(Handled(Run(w, ss0), s) && s.i.event.ModuleExited? && s.i.event.shutdown)
  }

  /** The settings are what the last reload command and the shutdown requests say. */
  ghost predicate Settled(w: World, ss: seq<Step>, config: seq<string>) {
    var t, last := Run(w, ss).t, LastReload(w, ss);
    && (t.running <==> StillUp(w, ss))
    && (t.reloadAll <==> last.Some? && last.value.CmdReload? && last.value.name == "all")
    && t.config == if last.Some? && last.value.CmdReload? && last.value.update.Some? then last.value.update.value else config
  }

  lemma HandleSettles(t: Tables, i: Input)
    requires Disciplined(t) && WellFormed(i)
    ensures var t', e := Handle(t, i).t, i.event;
            && t'.running == (t.running && !(e.ModuleExited? && e.shutdown))
            && (if e.CmdReload? && e.update.Some? then t'.reloadAll == (e.name == "all") && t'.config == e.update.value
                else t'.reloadAll == t.reloadAll && t'.config == t.config)
  {
    if i.event.CmdReload? && i.event.update.Some? && i.event.name == "all" {
      var t2 := t.(config := i.event.update.value, reloadAll := true, reload := t.reload + t.children.Keys,
                   restart := t.restart - t.children.Keys);
      if t2.reload == {} {
        assert t.children.Keys == {};
        SetsOfLaunch(t2, t2.config, i.ok);
      }
    } else if i.event.ModuleExited? {
      var t1 := Unpend(t, i.event.sender);
      SetsOfLaunch(t1, t1.config, i.ok);
    }
  }

  lemma {:induction false} SettingsFollow(config: seq<string>, ok: set<string>, ss: seq<Step>)
    requires DistinctNames(config)
    ensures Settled(Init(config, ok), ss, config)
  {
    var w := Init(config, ok);
    if ss == [] {
      SetsOfLaunch(Tables(map[], {}, {}, {}, false, true, 1, config), config, ok);
    } else {
      var ss0, s := ss[..|ss| - 1], ss[|ss| - 1];
      SettingsFollow(config, ok, ss0);
      RunKeepsInv(config, ok, ss0);
      if Handled(Run(w, ss0), s) {
        HandleSettles(Run(w, ss0).t, s.i);
      }
    }
  }

  // ------------------------------------------------------------------ the fate of an actor

  /** Its end: to be reloaded alone, to be reloaded with all others, to be restarted, or gone. */
  datatype Fate = ReloadAlone | ReloadAll | Restart | Gone

  function FateOf(up: bool, all: bool, m: Mark): Fate {
    if up && m.reload then (if all then ReloadAll else ReloadAlone)
    else if up && m.restart && !m.stop then Restart
    else Gone
  }

  /** What handling its exit notice does.  A reload of one module launches it under its old id
      if the configuration names it and its library loads.  A reload of all launches exactly the
      loadable modules once nobody else is waited for, and nobody before.  A restart launches
      the actor again.  Otherwise it is unregistered; in the other cases nobody is. */
  ghost predicate Decides(t: Tables, id: Id, ok: set<string>, e: Effect, fate: Fate)
    requires id in t.children
  {
    match fate
    case ReloadAlone =>
      && e.t.children == t.children
      && e.launched == if t.children[id] in t.config && t.children[id] in ok then [id] else []
    case ReloadAll =>
      if t.reload == {id} then
        && (forall x :: x in t.children ==> x in e.t.children && e.t.children[x] == t.children[x])
        && NamesOf(e.t.children, e.launched) == Loadable(t.config, ok)
      else e.t.children == t.children && e.launched == []
    case Restart => e.t.children == t.children && e.launched == [id]
    case Gone => e.t.children == t.children - {id} && e.launched == []
  }

  lemma ExitDecides(t: Tables, i: Input, m: Mark)
    requires Disciplined(t) && i.event.ModuleExited? && i.event.sender in t.children && Agrees(t, i.event.sender, m)
    ensures Decides(t, i.event.sender, i.ok, Handle(t, i), FateOf(t.running, t.reloadAll, m))
  {
    var id := i.event.sender;
    var t1 := Unpend(t, id);
    if t.running && m.reload && t.reloadAll {
      assert t1.reload == {} <==> t.reload == {id};
      if t1.reload == {} {
        RelaunchLaunches(t1, t1.config, i.ok);
        RelaunchesExactly(t1, t1.config, i.ok);
      }
    }
  }

  /** Over every run: what becomes of an actor whose exit notice is handled is decided by the
      messages handled before.  In particular it is restarted if and only if no shutdown has
      been requested, a crash of it was reported since its last end while it was to be neither
      reloaded nor stopped, and no command to reload or stop it has been handled since. */
  lemma ExitFate(config: seq<string>, ok: set<string>, ss: seq<Step>, i: Input)
    requires DistinctNames(config)
    requires Handled(Run(Init(config, ok), ss), Receive(i)) && i.event.ModuleExited?
    ensures var w0 := Init(config, ok);
            var w, id, last := Run(w0, ss), i.event.sender, LastReload(w0, ss);
            var w' := Next(w, Receive(i));
            var all := last.Some? && last.value.CmdReload? && last.value.name == "all";
            && id in w.t.children
            && Decides(w.t, id, i.ok, Handle(w.t, i), FateOf(StillUp(w0, ss), all, MarkOf(w0, ss, id)))
            && w'.live == w.live + multiset(Handle(w.t, i).launched)
  {
    var w0, w := Init(config, ok), Run(Init(config, ok), ss);
    RunKeepsInv(config, ok, ss);
    SettingsFollow(config, ok, ss);
    MarksArePending(config, ok, ss, i.event.sender);
    assert Single(w, i.event.sender);
    ExitDecides(w.t, i, MarkOf(w0, ss, i.event.sender));
  }

  /** What a reload command launches at once: a module that no child has, under a fresh id, if it
      is configured and loads; or, if there are no children, all loadable modules. */
  lemma ReloadStarts(t: Tables, i: Input)
    requires Disciplined(t) && WellFormed(i) && i.event.CmdReload?
    ensures var e, name, update := Handle(t, i), i.event.name, i.event.update;
            if update.None? then e == Effect(t, [])
            else if name == "all" && t.children == map[] then
              NamesOf(e.t.children, e.launched) == Loadable(update.value, i.ok)
            else if name != "all" && !Named(t.children, name) && name in update.value && name in i.ok then
              |e.launched| == 1 && e.launched[0] !in t.children && e.t.children == t.children[e.launched[0] := name]
            else e.launched == [] && e.t.children == t.children
  {
    var name, update := i.event.name, i.event.update;
    if update.Some? && name == "all" {
      var t2 := t.(config := update.value, reloadAll := true, reload := t.reload + t.children.Keys,
                   restart := t.restart - t.children.Keys);
      if t.children == map[] {
        LoadsExactly(t2, update.value, i.ok);
      } else {
        var id :| id in t.children;
        assert id in t2.reload;
      }
    }
  }

  /** Start-up launches exactly the loadable modules. */
  lemma StartUp(config: seq<string>, ok: set<string>)
    requires DistinctNames(config)
    ensures var w := Init(config, ok);
            exists ids: seq<Id> :: w.live == multiset(ids) && NamesOf(w.t.children, ids) == Loadable(config, ok)
  {
    var t := Tables(map[], {}, {}, {}, false, true, 1, config);
    LoadsExactly(t, config, ok);
    var e := Load(t, config, ok);
    assert Init(config, ok).live == multiset(e.launched);
  }
}
