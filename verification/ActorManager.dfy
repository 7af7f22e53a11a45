/** The supervisor: which actors exist, which are waiting to be reloaded, stopped or restarted,
    and when the program may end.

    First the effect of every handler on the supervisor's tables, then the class whose methods
    are the source's handlers, proved to have that effect. */
module ActorManager {
  import opened Options
  import Refs = MessageRefs

  type Id = nat
  const NO_ID: Id := 0

  /** `config` is the plugin manager's current list of module names. */
  datatype Tables = Tables(
    children: map<Id, string>,
    reload: set<Id>,
    stop: set<Id>,
    restart: set<Id>,
    reloadAll: bool,
    running: bool,
    nextId: Id,
    config: seq<string>)

  /** New tables and the actors launched, in order. */
  datatype Effect = Effect(t: Tables, launched: seq<Id>)

  predicate DistinctNames(config: seq<string>) {
    forall i, j :: 0 <= i < j < |config| ==> config[i] != config[j]
  }

  ghost predicate Named(children: map<Id, string>, name: string) {
    exists id :: id in children && children[id] == name
  }

  ghost function IdOf(children: map<Id, string>, name: string): (id: Id)
    requires Named(children, name)
    ensures id in children && children[id] == name
  {
    var id :| id in children && children[id] == name;
    id
  }

  /** Child names are pairwise distinct. */
  ghost predicate OneChildPerName(children: map<Id, string>) {
    forall a, b :: a in children && b in children && children[a] == children[b] ==> a == b
  }

  /** What every handler keeps. */
  ghost predicate Disciplined(t: Tables) {
    && t.reload <= t.children.Keys && t.stop <= t.children.Keys && t.restart <= t.children.Keys
    && t.restart !! t.reload && t.restart !! t.stop
    && OneChildPerName(t.children) && DistinctNames(t.config)
    && t.nextId > NO_ID && forall id :: id in t.children ==> NO_ID < id < t.nextId
  }

  function AddChild(e: Effect, name: string): Effect {
    Effect(e.t.(children := e.t.children[e.t.nextId := name], nextId := e.t.nextId + 1), e.launched + [e.t.nextId])
  }

  /** Launches every configured module whose library loads (`ok`). */
  function Load(t: Tables, names: seq<string>, ok: set<string>): Effect {
    if names == [] then Effect(t, [])
    else
      var e := Load(t, names[..|names| - 1], ok);
      if names[|names| - 1] in ok then AddChild(e, names[|names| - 1]) else e
  }

  /** Relaunches every configured module that loads, under its old id if it has one. */
  ghost function Relaunch(t: Tables, names: seq<string>, ok: set<string>): Effect {
    if names == [] then Effect(t, [])
    else
      var e := Relaunch(t, names[..|names| - 1], ok);
      var name := names[|names| - 1];
      if name !in ok then e
      else if Named(e.t.children, name) then e.(launched := e.launched + [IdOf(e.t.children, name)])
      else AddChild(e, name)
  }

  /** Reloads one module: a new child if `id` is `NO_ID`, else the old one in place. */
  function ReloadOne(t: Tables, id: Id, name: string, ok: set<string>): Effect {
    if name !in t.config || name !in ok then Effect(t, [])
    else if id == NO_ID then AddChild(Effect(t, []), name)
    else if id in t.children then Effect(t, [id])
    else Effect(t, [])
  }

  /** Marks the named child, or all children, for reloading; `true` if the command is dealt
      with. */
  ghost function MarkReload(t: Tables, name: string, ok: set<string>): (Effect, bool) {
    var t1 := t.(reloadAll := name == "all");
    if name == "all" then
      var t2 := t1.(reload := t.reload + t.children.Keys, restart := t.restart - t.children.Keys);
      (if t2.reload == {} then Load(t2, t2.config, ok) else Effect(t2, []), true)
    else if Named(t.children, name) then
      var id := IdOf(t.children, name);
      (Effect(t1.(reload := t.reload + {id}, restart := t.restart - {id}), []), true)
    else (Effect(t1, []), false)
  }

  ghost function OnReload(t: Tables, name: string, update: Option<seq<string>>, ok: set<string>): Effect {
    if update.None? then Effect(t, [])
    else
      var t1 := t.(config := update.value);
      var (e, dealt) := MarkReload(t1, name, ok);
      if dealt then e else ReloadOne(e.t, NO_ID, name, ok)
  }

  ghost function OnRemove(t: Tables, name: string): Tables {
    if Named(t.children, name) then
      var id := IdOf(t.children, name);
      t.(stop := t.stop + {id}, restart := t.restart - {id})
    else t
  }

  function OnExitCommand(t: Tables): Tables {
    t.(stop := t.stop + t.children.Keys, restart := t.restart - t.children.Keys)
  }

  function OnCrash(t: Tables, id: Id): Tables {
    if id in t.children && t.running && id !in t.reload && id !in t.stop then t.(restart := t.restart + {id}) else t
  }

  /** `shutdown` says that a shutdown request comes between the two reads of `is_running_`. */
  ghost function OnExited(t: Tables, id: Id, shutdown: bool, ok: set<string>): Effect {
    var e := OnExitedAt(t, id, ok);
    if shutdown then e.(t := e.t.(running := false)) else e
  }

  /** The effect as the first read decides it. */
  ghost function OnExitedAt(t: Tables, id: Id, ok: set<string>): Effect {
    var t1 := t.(reload := t.reload - {id}, stop := t.stop - {id}, restart := t.restart - {id});
    if id !in t.children then Effect(t1, [])
    else if t.running && id in t.reload then
      if t.reloadAll then (if t1.reload == {} then Relaunch(t1, t1.config, ok) else Effect(t1, []))
      else ReloadOne(t1, id, t.children[id], ok)
    else if t.running && id in t.restart && id !in t.stop then Effect(t1, [id])
    else Effect(t1.(children := t1.children - {id}), [])
  }

  /** The loop ends here: at an exit command without children, or at the exit notice that
      removes the last child of a supervisor that is, by then, shutting down. */
  predicate EndsAtExited(before: Tables, after: Tables, id: Id) {
    id in before.children && !after.running && after.children == map[]
  }

  /** A message in the supervisor's mailbox, with the outcome of the foreign calls made while
      handling it: the re-read configuration, and which libraries load. */
  datatype Event =
    | CmdExit
    | CmdReload(name: string, update: Option<seq<string>>)
    | CmdRemove(name: string)
    | ModuleExited(sender: Id, shutdown: bool)
    | CrashReport(sender: Id)
    | Unsupported

  datatype Input = Input(event: Event, ok: set<string>)

  predicate WellFormed(i: Input) {
    i.event.CmdReload? && i.event.update.Some? ==> DistinctNames(i.event.update.value)
  }

  ghost function Handle(t: Tables, i: Input): Effect {
    match i.event
    case CmdExit => Effect(if t.children == map[] then t else OnExitCommand(t), [])
    case CmdReload(name, update) => OnReload(t, name, update, i.ok)
    case CmdRemove(name) => Effect(OnRemove(t, name), [])
    case ModuleExited(id, shutdown) => OnExited(t, id, shutdown, i.ok)
    case CrashReport(id) => Effect(OnCrash(t, id), [])
    case Unsupported => Effect(t, [])
  }

  ghost predicate Ends(t: Tables, i: Input) {
    || (i.event.CmdExit? && t.children == map[])
    || (i.event.ModuleExited? && EndsAtExited(t, Handle(t, i).t, i.event.sender))
  }

  /** Handling a whole mailbox: stops at the first message that ends the loop. */
  ghost function HandleAll(t: Tables, mail: seq<Input>): (r: (Effect, nat))
    ensures r.1 <= |mail|
    decreases |mail|
  {
    if mail == [] then (Effect(t, []), 0)
    else
      var e := Handle(t, mail[0]);
      if Ends(t, mail[0]) then (e, 1)
      else
        var (rest, n) := HandleAll(e.t, mail[1..]);
        (Effect(rest.t, e.launched + rest.launched), n + 1)
  }

  lemma HandleFirst(t: Tables, mail: seq<Input>)
    requires mail != []
    ensures var e, all := Handle(t, mail[0]), HandleAll(t, mail);
            if Ends(t, mail[0]) then all == (e, 1)
            else var (rest, n) := HandleAll(e.t, mail[1..]); all == (Effect(rest.t, e.launched + rest.launched), n + 1)
  {
  }

  // ------------------------------------------------------------------ discipline

  lemma AddChildKeeps(e: Effect, name: string)
    requires Disciplined(e.t) && !Named(e.t.children, name)
    ensures Disciplined(AddChild(e, name).t)
  {
  }

  /** Loading and relaunching add fresh children under names that had none, and launch each
      id at most once. */
  ghost predicate Launches(t: Tables, e: Effect, names: seq<string>) {
    && Disciplined(e.t) && e.t == t.(children := e.t.children, nextId := e.t.nextId) && t.nextId <= e.t.nextId
    && (forall id :: id in t.children ==> id in e.t.children && e.t.children[id] == t.children[id])
    && (forall id :: id in e.t.children && id !in t.children ==> t.nextId <= id)
    && (forall i :: 0 <= i < |e.launched| ==>
          && e.launched[i] in e.t.children && e.t.children[e.launched[i]] in names)
    && (forall i, j :: 0 <= i < j < |e.launched| ==> e.launched[i] != e.launched[j])
    && (forall id :: id in e.t.children && id !in t.children ==> id in e.launched && e.t.children[id] in names)
  }

  lemma AddLaunches(t: Tables, e: Effect, names: seq<string>, name: string)
    requires Launches(t, e, names) && !Named(e.t.children, name)
    ensures Launches(t, AddChild(e, name), names + [name])
  {
    AddChildKeeps(e, name);
  }

  lemma AgainLaunches(t: Tables, e: Effect, names: seq<string>, name: string)
    requires Launches(t, e, names) && name !in names
    ensures Launches(t, e, names + [name])
    ensures Named(e.t.children, name) ==> Launches(t, e.(launched := e.launched + [IdOf(e.t.children, name)]), names + [name])
  {
    assert forall n :: n in names ==> n in names + [name];
  }

  lemma {:induction false} RelaunchLaunches(t: Tables, names: seq<string>, ok: set<string>)
    requires Disciplined(t) && DistinctNames(names)
    ensures Launches(t, Relaunch(t, names, ok), names)
  {
    if names != [] {
      var names0, name := names[..|names| - 1], names[|names| - 1];
      RelaunchLaunches(t, names0, ok);
      var e := Relaunch(t, names0, ok);
      assert name !in names0 && names == names0 + [name];
      if name !in ok || Named(e.t.children, name) {
        AgainLaunches(t, e, names0, name);
      } else {
        AddLaunches(t, e, names0, name);
      }
    }
  }

  lemma {:induction false} LoadLaunches(t: Tables, names: seq<string>, ok: set<string>)
    requires Disciplined(t) && DistinctNames(names) && t.children == map[]
    ensures Launches(t, Load(t, names, ok), names)
  {
    if names != [] {
      var names0, name := names[..|names| - 1], names[|names| - 1];
      LoadLaunches(t, names0, ok);
      var e := Load(t, names0, ok);
      assert name !in names0 && names == names0 + [name];
      if name in ok {
        assert !Named(e.t.children, name);
        AddLaunches(t, e, names0, name);
      } else {
        AgainLaunches(t, e, names0, name);
      }
    }
  }

  /** The configured modules whose libraries load, in their order. */
  function Loadable(names: seq<string>, ok: set<string>): seq<string> {
    if names == [] then []
    else Loadable(names[..|names| - 1], ok) + if names[|names| - 1] in ok then [names[|names| - 1]] else []
  }

  function NameOf(children: map<Id, string>, id: Id): string {
    if id in children then children[id] else ""
  }

  /** The names under which actors are registered. */
  function NamesOf(children: map<Id, string>, ids: seq<Id>): (names: seq<string>)
    ensures |names| == |ids|
  {
    seq(|ids|, i requires 0 <= i < |ids| => NameOf(children, ids[i]))
  }

  lemma AddNames(t: Tables, e: Effect, names: seq<string>, name: string)
    requires Launches(t, e, names)
    ensures var e' := AddChild(e, name);
            NamesOf(e'.t.children, e'.launched) == NamesOf(e.t.children, e.launched) + [name]
  {
    var e' := AddChild(e, name);
    forall i | 0 <= i < |e.launched| ensures NameOf(e'.t.children, e.launched[i]) == NameOf(e.t.children, e.launched[i]) {
      assert e.launched[i] in e.t.children;
    }
  }

  lemma AgainNames(e: Effect, id: Id, name: string)
    requires id in e.t.children && e.t.children[id] == name
    ensures NamesOf(e.t.children, e.launched + [id]) == NamesOf(e.t.children, e.launched) + [name]
  {
  }

  /** Relaunching launches exactly the configured modules whose libraries load, in the order of
      the configuration, each under the id of the child of that name if there is one. */
  lemma {:induction false} RelaunchesExactly(t: Tables, names: seq<string>, ok: set<string>)
    requires Disciplined(t) && DistinctNames(names)
    ensures var e := Relaunch(t, names, ok); NamesOf(e.t.children, e.launched) == Loadable(names, ok)
  {
    if names != [] {
      var names0, name := names[..|names| - 1], names[|names| - 1];
      RelaunchesExactly(t, names0, ok);
      RelaunchLaunches(t, names0, ok);
      var e := Relaunch(t, names0, ok);
      if name in ok {
        if Named(e.t.children, name) {
          AgainNames(e, IdOf(e.t.children, name), name);
        } else {
          AddNames(t, e, names0, name);
        }
      }
    }
  }

  lemma {:induction false} LoadsExactly(t: Tables, names: seq<string>, ok: set<string>)
    requires Disciplined(t) && DistinctNames(names) && t.children == map[]
    ensures var e := Load(t, names, ok); NamesOf(e.t.children, e.launched) == Loadable(names, ok)
  {
    if names != [] {
      var names0, name := names[..|names| - 1], names[|names| - 1];
      LoadsExactly(t, names0, ok);
      LoadLaunches(t, names0, ok);
      if name in ok {
        AddNames(t, Load(t, names0, ok), names0, name);
      }
    }
  }

  /** Every handler keeps the discipline: the pending sets stay within the children, a child
      to be restarted is neither to be reloaded nor stopped, and names stay distinct. */
  lemma HandleKeepsDiscipline(t: Tables, i: Input)
    requires Disciplined(t) && WellFormed(i)
    ensures Disciplined(Handle(t, i).t)
  {
    match i.event
    case CmdReload(name, update) =>
      if update.Some? {
        ReloadKeepsDiscipline(t, name, update.value, i.ok);
      }
    case ModuleExited(id, shutdown) => ExitedKeepsDiscipline(t, id, shutdown, i.ok);
    case _ =>
  }

  lemma ReloadKeepsDiscipline(t: Tables, name: string, config: seq<string>, ok: set<string>)
    requires Disciplined(t) && DistinctNames(config)
    ensures Disciplined(OnReload(t, name, Some(config), ok).t)
  {
    var t1 := t.(config := config, reloadAll := name == "all");
    if name == "all" {
      var t2 := t1.(reload := t.reload + t.children.Keys, restart := t.restart - t.children.Keys);
      if t2.reload == {} {
        assert t2.children.Keys == {};
        LoadLaunches(t2, config, ok);
      }
    } else if !Named(t.children, name) {
      AddChildKeeps(Effect(t1, []), name);
    }
  }

  lemma ExitedKeepsDiscipline(t: Tables, id: Id, shutdown: bool, ok: set<string>)
    requires Disciplined(t)
    ensures Disciplined(OnExited(t, id, shutdown, ok).t)
  {
    var t1 := t.(reload := t.reload - {id}, stop := t.stop - {id}, restart := t.restart - {id});
    if t1.reload == {} {
      RelaunchLaunches(t1, t1.config, ok);
    }
  }

  // ------------------------------------------------------------------ the class

  class ActorManager {
    var childrens: map<Id, string>
    var pendingReload: set<Id>
    var pendingStop: set<Id>
    var pendingRestart: set<Id>
    var reloadAllFlag: bool
    var isRunning: bool
    var nextId: Id
    var config: seq<string>
    var launched: seq<Id>

    ghost function Now(): Tables
      reads this
    {
      Tables(childrens, pendingReload, pendingStop, pendingRestart, reloadAllFlag, isRunning, nextId, config)
    }

    /** `launched` grew by what the effect launches. */
    ghost predicate Did(e: Effect, before: seq<Id>)
      reads this
    {
      Now() == e.t && launched == before + e.launched
    }

    constructor ()
      ensures Now() == Tables(map[], {}, {}, {}, false, false, 1, []) && launched == []
    {
      childrens, pendingReload, pendingStop, pendingRestart := map[], {}, {}, {};
      reloadAllFlag, isRunning, nextId, config, launched := false, false, 1, [], [];
    }

    method NewChild(name: string)
      modifies this
      ensures Did(AddChild(Effect(old(Now()), []), name), old(launched))
    {
      childrens := childrens[nextId := name];
      launched := launched + [nextId];
      nextId := nextId + 1;
    }

    method LoadModules(ok: set<string>)
      modifies this
      ensures Did(Load(old(Now()), old(config), ok), old(launched))
    {
      for i := 0 to |config|
        invariant config == old(config) && Did(Load(old(Now()), config[..i], ok), old(launched))
      {
        assert config[..i + 1][..i] == config[..i];
        if config[i] in ok {
          NewChild(config[i]);
        }
      }
      assert config[..|config|] == config;
    }

    /** Looks the name up by walking the children. */
    method FindChild(name: string) returns (found: Option<Id>)
      ensures found.None? <==> !Named(childrens, name)
      ensures found.Some? ==> found.value in childrens && childrens[found.value] == name
    {
      var todo := childrens.Keys;
      while todo != {}
        invariant todo <= childrens.Keys
        invariant forall id :: id in childrens && id !in todo ==> childrens[id] != name
        decreases todo
      {
        var id :| id in todo;
        if childrens[id] == name {
          return Some(id);
        }
        todo := todo - {id};
      }
      return None;
    }

    method ReloadModule(id: Id, name: string, ok: set<string>)
      modifies this
      ensures Did(ReloadOne(old(Now()), id, name, ok), old(launched))
    {
      for i := 0 to |config|
        invariant Now() == old(Now()) && launched == old(launched) && name !in config[..i]
      {
        if config[i] == name {
          assert name in config;
          if name in ok {
            if id == NO_ID {
              NewChild(name);
            } else if id in childrens {
              launched := launched + [id];
            }
          }
          return;
        }
      }
    }

    method ReloadAllModules(ok: set<string>)
      requires Disciplined(Now())
      modifies this
      ensures Did(Relaunch(old(Now()), old(config), ok), old(launched))
    {
      for i := 0 to |config|
        invariant config == old(config) && Did(Relaunch(old(Now()), config[..i], ok), old(launched))
        invariant Disciplined(Now())
      {
        assert config[..i + 1][..i] == config[..i];
        if config[i] in ok {
          var cached := FindChild(config[i]);
          if cached.Some? {
            launched := launched + [cached.value];
          } else {
            NewChild(config[i]);
          }
        }
      }
      assert config[..|config|] == config;
    }

    /** Marks what a reload command asks for and sends the stop message, created with `refs`
        references.  Every reference is used up, as a broadcast of `sent` sends uses it: by its
        sends, or by a release if there are none. */
    method SearchModuleAndRemove(name: string, ok: set<string>)
      returns (dealt: bool, refs: nat, sent: nat, released: nat)
      requires Disciplined(Now())
      modifies this
      ensures Did(MarkReload(old(Now()), name, ok).0, old(launched)) && dealt == MarkReload(old(Now()), name, ok).1
      ensures refs == Refs.BroadcastRefs(sent) == sent + released && released == if sent == 0 then 1 else 0
    {
      reloadAllFlag := name == "all";
      refs, sent, released := if reloadAllFlag && |childrens| > 1 then |childrens| else 1, 0, 0;
      if !reloadAllFlag {
        var found := FindChild(name);
        if found.Some? {
          sent := 1;
          pendingReload := pendingReload + {found.value};
          pendingRestart := pendingRestart - {found.value};
          return true, refs, sent, released;
        }
        return false, refs, 0, 1;
      }
      sent := MarkAll();
      if pendingReload == {} {
        released := 1;
        LoadModules(ok);
      }
      return true, refs, sent, released;
    }

    /** Inserts every child into the reload set and out of the restart set, one send each. */
    method MarkAll() returns (sent: nat)
      modifies this`pendingReload, this`pendingRestart
      ensures pendingReload == old(pendingReload) + childrens.Keys && pendingRestart == old(pendingRestart) - childrens.Keys
      ensures sent == |childrens|
    {
      sent := 0;
      var todo := childrens.Keys;
      ghost var done: set<Id> := {};
      while todo != {}
        invariant done + todo == childrens.Keys && done !! todo && sent == |done|
        invariant pendingReload == old(pendingReload) + done
        invariant pendingRestart == old(pendingRestart) - done
        decreases todo
      {
        var id :| id in todo;
        sent := sent + 1;
        pendingReload := pendingReload + {id};
        pendingRestart := pendingRestart - {id};
        todo, done := todo - {id}, done + {id};
      }
    }

    /** Inserts every child into the stop set and out of the restart set, one send each. */
    method StopAll() returns (sent: nat)
      modifies this`pendingStop, this`pendingRestart
      ensures pendingStop == old(pendingStop) + childrens.Keys && pendingRestart == old(pendingRestart) - childrens.Keys
      ensures sent == |childrens|
    {
      sent := 0;
      var todo := childrens.Keys;
      ghost var done: set<Id> := {};
      while todo != {}
        invariant done + todo == childrens.Keys && done !! todo && sent == |done|
        invariant pendingStop == old(pendingStop) + done
        invariant pendingRestart == old(pendingRestart) - done
        decreases todo
      {
        var id :| id in todo;
        pendingStop := pendingStop + {id};
        pendingRestart := pendingRestart - {id};
        sent := sent + 1;
        todo, done := todo - {id}, done + {id};
      }
    }

    /** The exit command: ends the loop at once if there are no children, else stops them all
        with one message of as many references as there are children. */
    method HandleCmdExit() returns (end: bool, refs: nat, sent: nat)
      modifies this
      ensures Now() == (if end then old(Now()) else OnExitCommand(old(Now()))) && launched == old(launched)
      ensures end <==> old(childrens) == map[]
      ensures refs == sent == |old(childrens)| && (!end ==> refs == Refs.BroadcastRefs(sent))
    {
      if childrens == map[] {
        return true, 0, 0;
      }
      refs, end := |childrens|, false;
      sent := StopAll();
    }

    method HandleCmdReload(name: string, update: Option<seq<string>>, ok: set<string>)
      requires Disciplined(Now()) && (update.Some? ==> DistinctNames(update.value))
      modifies this
      ensures Did(OnReload(old(Now()), name, update, ok), old(launched))
    {
      if update.None? {
        return;
      }
      config := update.value;
      var dealt, refs, sent, released := SearchModuleAndRemove(name, ok);
      if !dealt {
        ReloadModule(NO_ID, name, ok);
      }
    }

    method HandleCmdRemove(name: string)
      requires Disciplined(Now())
      modifies this
      ensures Now() == OnRemove(old(Now()), name) && launched == old(launched)
    {
      var found := FindChild(name);
      if found.Some? {
        pendingStop := pendingStop + {found.value};
        pendingRestart := pendingRestart - {found.value};
      }
    }

    /** An exit notice.  `is_running_` is read twice; `shutdown` says that a shutdown request
        clears it in between, which counts for the second read only. */
    method HandleEventExit(sender: Id, shutdown: bool, ok: set<string>) returns (end: bool)
      requires Disciplined(Now())
      modifies this
      ensures Did(OnExited(old(Now()), sender, shutdown, ok), old(launched))
      ensures end == EndsAtExited(old(Now()), Now(), sender)
    {
      var reloadFlag, stopFlag, restartFlag := sender in pendingReload, sender in pendingStop, sender in pendingRestart;
      pendingReload, pendingStop, pendingRestart := pendingReload - {sender}, pendingStop - {sender}, pendingRestart - {sender};
      end := false;
      if sender in childrens {
        if isRunning && reloadFlag {
          if reloadAllFlag {
            if pendingReload == {} {
              RelaunchLaunches(Now(), config, ok);
              ReloadAllModules(ok);
            }
          } else {
            ReloadModule(sender, childrens[sender], ok);
          }
        } else if isRunning && restartFlag && !stopFlag {
          launched := launched + [sender];
        } else {
          childrens := childrens - {sender};
          isRunning := isRunning && !shutdown;
          end := !isRunning && childrens == map[];
        }
      }
      isRunning := isRunning && !shutdown;
    }

    method HandleEventCrash(sender: Id)
      modifies this
      ensures Now() == OnCrash(old(Now()), sender) && launched == old(launched)
    {
      if sender in childrens {
        if isRunning && sender !in pendingReload && sender !in pendingStop {
          pendingRestart := pendingRestart + {sender};
        }
      }
    }

    /** One turn of the dispatch. */
    method Dispatch(m: Input) returns (end: bool)
      requires Disciplined(Now()) && WellFormed(m)
      modifies this
      ensures Disciplined(Now()) && Did(Handle(old(Now()), m), old(launched))
      ensures end == Ends(old(Now()), m)
    {
      end := false;
      HandleKeepsDiscipline(Now(), m);
      match m.event {
        case CmdExit =>
          var refs, sent;
          end, refs, sent := HandleCmdExit();
        case CmdReload(name, update) =>
          HandleCmdReload(name, update, m.ok);
        case CmdRemove(name) =>
          HandleCmdRemove(name);
        case ModuleExited(sender, shutdown) =>
          end := HandleEventExit(sender, shutdown, m.ok);
        case CrashReport(sender) =>
          HandleEventCrash(sender);
        case Unsupported =>
      }
    }

    /** The dispatch loop over the messages in the mailbox; `end` is the point where the latch
        is counted down and the coroutine returns. */
    method RunCoroutine(mail: seq<Input>) returns (end: bool, handled: nat)
      requires Disciplined(Now()) && forall i :: 0 <= i < |mail| ==> WellFormed(mail[i])
      modifies this
      ensures Disciplined(Now())
      ensures Did(HandleAll(old(Now()), mail).0, old(launched)) && handled == HandleAll(old(Now()), mail).1
      ensures end ==> childrens == map[]
    {
      end, handled := false, 0;
      ghost var all := HandleAll(Now(), mail);
      while handled < |mail| && !end
        invariant 0 <= handled <= |mail| && Disciplined(Now())
        invariant end ==> childrens == map[]
        invariant Remaining(all, old(launched), mail[handled..], handled, end)
        decreases |mail| - handled, !end
      {
        HandleFirst(Now(), mail[handled..]);
        assert mail[handled..][1..] == mail[handled + 1..];
        end := Dispatch(mail[handled]);
        handled := handled + 1;
      }
    }

    /** What is left to do, on top of what has been done, adds up to `all`. */
    ghost predicate Remaining(all: (Effect, nat), before: seq<Id>, rest: seq<Input>, handled: nat, end: bool)
      reads this
    {
      if end then Did(all.0, before) && handled == all.1
      else
        var (e, n) := HandleAll(Now(), rest);
        all.0.t == e.t && all.1 == handled + n && before + all.0.launched == launched + e.launched
    }
  }
}
