/** Whether a shutdown can end at all.

    A child that is registered and neither runs nor has an exit notice under way is lost: nobody
    will ever report its end, and the supervisor waits for it.  A reload that fails leaves one
    behind, and so does a dropped notice. */
module Shutdown {
  import opened ActorManager
  import opened Options
  import opened Lifecycle

  predicate AllWinding(ss: seq<Step>) {
    forall i :: 0 <= i < |ss| ==> Winding(ss[i])
  }

  /** The supervisor is shutting down and still at work. */
  ghost predicate Down(w: World) {
    Inv(w) && !w.t.running && !w.ended
  }

  predicate Lost(w: World, id: Id) {
    id in w.t.children && Incarnations(w, id) == 0
  }

  lemma LostStays(w: World, s: Step, id: Id)
    requires Down(w) && Winding(s) && Lost(w, id)
    ensures Down(Next(w, s)) && Lost(Next(w, s), id)
  {
    NextKeepsInv(w, s);
    ShutdownStep(w, s);
    assert Single(w, id);
    StaysGone(w, s, id);
    assert id in Next(w, s).t.children;
  }

  /** Nobody is launched, and a notice comes from a coroutine. */
  lemma StaysGone(w: World, s: Step, id: Id)
    requires Down(w) && Winding(s) && Incarnations(w, id) == 0
    ensures Incarnations(Next(w, s), id) == 0
  {
    ShutdownStep(w, s);
    assert Next(w, s).live[id] <= w.live[id];
  }

  /** One lost child keeps the loop from ending, whatever else happens. */
  lemma {:induction false} LostForever(w: World, ss: seq<Step>, id: Id)
    requires Down(w) && AllWinding(ss) && Lost(w, id)
    ensures Down(Run(w, ss)) && Lost(Run(w, ss), id)
  {
    if ss != [] {
      LostForever(w, ss[..|ss| - 1], id);
      LostStays(Run(w, ss[..|ss| - 1]), ss[|ss| - 1], id);
    }
  }

  /** `w'` is `w` without child `id`. */
  ghost predicate Without(w: World, w': World, id: Id) {
    && Inv(w') && !w'.t.running && w'.t.children == w.t.children - {id} && w'.ended == (w'.t.children == map[])
    && forall x :: x != id ==> Incarnations(w', x) == Incarnations(w, x)
  }

  lemma NoticeRemoves(w: World, id: Id)
    requires Down(w) && id in w.notices
    ensures Without(w, Next(w, Receive(Input(ModuleExited(id, false), {}))), id)
  {
    var i := Input(ModuleExited(id, false), {});
    NextKeepsInv(w, Receive(i));
    ShutdownExit(w, i);
    var w' := Next(w, Receive(i));
    assert w'.notices == w.notices - multiset{id};
  }

  /** The end of child `id`: of its coroutine, if that still runs, and then its notice. */
  lemma Farewell(w: World, id: Id) returns (w1: World, w2: World)
    requires Down(w) && Incarnations(w, id) == 1
    ensures w1 == w || w1 == Next(w, ActorEnds(id, false))
    ensures w2 == Next(w1, Receive(Input(ModuleExited(id, false), {}))) && Without(w, w2, id)
  {
    w1 := w;
    if id in w.live {
      w1 := Next(w, ActorEnds(id, false));
      NextKeepsInv(w, ActorEnds(id, false));
      assert w1.notices == w.notices + multiset{id} && w1.live == w.live - multiset{id};
    }
    w2 := Next(w1, Receive(Input(ModuleExited(id, false), {})));
    NoticeRemoves(w1, id);
  }

  lemma RunTwo(w: World, s: Step, s': Step)
    ensures Run(w, [s]) == Next(w, s) && Run(w, [s, s']) == Next(Next(w, s), s')
  {
    assert [s][..0] == [] && [s, s'][..1] == [s];
    assert Run(w, []) == w;
  }

  lemma {:induction false} RunAppend(w: World, ss: seq<Step>, more: seq<Step>)
    ensures Run(w, ss + more) == Run(Run(w, ss), more)
    decreases |more|
  {
    if more == [] {
      assert ss + more == ss;
    } else {
      RunAppend(w, ss, more[..|more| - 1]);
      assert (ss + more)[..|ss + more| - 1] == ss + more[..|more| - 1];
    }
  }

  lemma RunPrepend(w: World, s: Step, ss: seq<Step>)
    ensures Run(w, [s] + ss) == Run(Next(w, s), ss)
  {
    RunTwo(w, s, s);
    RunAppend(w, [s], ss);
  }

  ghost predicate NobodyLost(w: World) {
    forall id :: id in w.t.children ==> !Lost(w, id)
  }

  lemma StillNobodyLost(w: World, w': World, id: Id)
    requires Without(w, w', id) && NobodyLost(w) && id in w.t.children
    ensures NobodyLost(w') && |w'.t.children| < |w.t.children|
  {
    forall x | x in w'.t.children ensures !Lost(w', x) {
      assert !Lost(w, x);
    }
    assert w'.t.children.Keys == w.t.children.Keys - {id};
    assert |w'.t.children.Keys| == |w.t.children.Keys| - 1;
  }

  /** Without a further reload command the loop can still end. */
  ghost predicate CanEnd(w: World) {
    exists ss :: AllWinding(ss) && Run(w, ss).ended
  }

  lemma CanEndLater(w: World, s: Step)
    requires Winding(s) && CanEnd(Next(w, s))
    ensures CanEnd(w)
  {
    var ss :| AllWinding(ss) && Run(Next(w, s), ss).ended;
    RunPrepend(w, s, ss);
    WindingPrepend(s, ss);
  }

  lemma WindingPrepend(s: Step, ss: seq<Step>)
    requires Winding(s) && AllWinding(ss)
    ensures AllWinding([s] + ss)
  {
  }

  lemma EndedCanEnd(w: World)
    requires w.ended
    ensures CanEnd(w)
  {
    assert AllWinding([]) && Run(w, []).ended;
  }

  lemma ExitCommandEnds(w: World)
    requires Down(w) && w.t.children == map[]
    ensures CanEnd(w)
  {
    var s := Receive(Input(CmdExit, {}));
    EndedCanEnd(Next(w, s));
    CanEndLater(w, s);
  }

  /** With nobody lost the children can all be seen off. */
  lemma {:induction false} SeeOff(w: World)
    requires Down(w) && NobodyLost(w)
    ensures CanEnd(w)
    decreases |w.t.children|
  {
    if w.t.children == map[] {
      ExitCommandEnds(w);
    } else {
      var id :| id in w.t.children;
      assert Single(w, id) && !Lost(w, id);
      var w1, w2 := Farewell(w, id);
      StillNobodyLost(w, w2, id);
      if w2.ended {
        EndedCanEnd(w2);
      } else {
        SeeOff(w2);
      }
      CanEndLater(w1, Receive(Input(ModuleExited(id, false), {})));
      if w1 != w {
        CanEndLater(w, ActorEnds(id, false));
      }
    }
  }

  /** The loop of a supervisor that is shutting down can still end, without a further reload
      command, exactly if no child is lost. */
  lemma EndsExactlyIfNobodyIsLost(w: World)
    requires Down(w)
    ensures CanEnd(w) <==> NobodyLost(w)
  {
    if NobodyLost(w) {
      SeeOff(w);
    } else {
      var id :| id in w.t.children && Lost(w, id);
      forall ss | AllWinding(ss) ensures !Run(w, ss).ended {
        LostForever(w, ss, id);
      }
    }
  }

  /** Children do get lost: reloaded under a configuration that no longer names it, a child is
      stopped, reports its end, is not launched again, and stays registered. */
  lemma ReloadLosesAChild()
    ensures var reload := Receive(Input(CmdReload("a", Some([])), {}));
            var notice := Receive(Input(ModuleExited(1, false), {}));
            var w := Run(Init(["a"], {"a"}), [reload, ActorEnds(1, false), notice, Step.Shutdown]);
            Down(w) && Lost(w, 1)
  {
    var reload := Receive(Input(CmdReload("a", Some([])), {}));
    var notice := Receive(Input(ModuleExited(1, false), {}));
    var w := Init(["a"], {"a"});
    var all := [reload, ActorEnds(1, false), notice, Step.Shutdown];
    RunKeepsInv(["a"], {"a"}, all);
    StartsWithOne();
    ReloadMarks();
    RunTwo(w, reload, ActorEnds(1, false));
    RunTwo(Run(w, [reload, ActorEnds(1, false)]), notice, Step.Shutdown);
    RunAppend(w, [reload, ActorEnds(1, false)], [notice, Step.Shutdown]);
    assert all == [reload, ActorEnds(1, false)] + [notice, Step.Shutdown];
    NoticeForgets();
  }

  /** The supervisor with its one child before and after it handles the reload command. */
  function OneChild(config: seq<string>, reload: set<Id>, live: multiset<Id>, notices: multiset<Id>): World {
    World(Tables(map[1 := "a"], reload, {}, {}, false, true, 2, config), live, notices, 0, false)
  }

  lemma StartsWithOne()
    ensures Init(["a"], {"a"}) == OneChild(["a"], {}, multiset{1}, multiset{})
  {
    var t := Tables(map[], {}, {}, {}, false, true, 1, ["a"]);
    assert ["a"][..0] == [] && Load(t, [], {"a"}) == Effect(t, []);
    assert Load(t, ["a"], {"a"}) == AddChild(Effect(t, []), "a");
    assert t.children[1 := "a"] == map[1 := "a"];
  }

  lemma ReloadMarks()
    ensures Next(OneChild(["a"], {}, multiset{1}, multiset{}), Receive(Input(CmdReload("a", Some([])), {})))
         == OneChild([], {1}, multiset{1}, multiset{})
  {
    var children: map<Id, string> := map[1 := "a"];
    assert children[1] == "a" && Named(children, "a") && IdOf(children, "a") == 1;
  }

  lemma NoticeForgets()
    ensures Next(OneChild([], {1}, multiset{1}, multiset{}), ActorEnds(1, false)) == OneChild([], {1}, multiset{}, multiset{1})
    ensures Next(OneChild([], {1}, multiset{}, multiset{1}), Receive(Input(ModuleExited(1, false), {})))
         == OneChild([], {}, multiset{}, multiset{})
  {
  }
}
