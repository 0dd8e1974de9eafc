/** The guard the operator puts on an application, and one whole life of an application under the protocol. */
module Lifecycle {
  import opened Types
  import opened Daemons
  import opened Application
  import opened Operator
  import opened Pass
  import opened Protocol
  import opened Witnesses

  // ---- the guard ----

  /** Lists the operator may read of the nodes in `ns`. */
  lemma {:induction false} ListsExist(w: World, name: string, ns: set<string>) returns (nodes: seq<string>, views: seq<StateView>)
    requires ns <= w.agents.Keys
    ensures forall n :: n in nodes <==> n in ns
    ensures forall v :: v in views ==> Shows(w, name, v)
    ensures forall n :: n in ns && name in w.agents[n].node.states ==> Covered(n, views)
    decreases ns
  {
    nodes, views := [], [];
    if ns != {} {
      var n :| n in ns;
      var ns', vs := ListsExist(w, name, ns - {n});
      nodes, views := [n] + ns', vs;
      if name in w.agents[n].node.states {
        var st := w.agents[n].node.states[name];
        var v := StateView(name, n, st.finalizer, st.status.conditions);
        assert Shows(w, name, v);
        views := [v] + vs;
        assert v in views;
      }
      forall m | m in ns && name in w.agents[m].node.states ensures Covered(m, views) {
        if m != n {
          var v :| v in vs && v.node == m;
          assert v in views;
        }
      }
    }
  }

  /**
   Wherever the operator has read an application without its finalizer, an accepted write guards the application,
   unless it is gone or being deleted by then, changes nothing else of it, and makes way for its deletion.
   */
  lemma WriteGuards(w: World, name: string, now: nat)
    requires name in w.readings && !w.readings[name].guarded && name in w.apps && !w.apps[name].app.deleting
    ensures var write := OperatorWrites(name, now, true);
            && Allowed(w, write)
            && var w' := After(w, write);
            && w'.apps == w.apps[name := w.apps[name].(guarded := true)]
            && w'.agents == w.agents && w'.readings == w.readings - {name}
            && Allowed(w', UserDeletes(name))
  {
    var r := w.readings[name];
    GuardFirst(r.deleting, Some(r.nodes), Some(r.views));
  }

  /** In every world the operator can read a stored application; if it is live and unguarded, it then guards it. */
  lemma Guards(w: World, name: string, now: nat) returns (read: Step)
    requires name in w.apps && !w.apps[name].app.deleting && !w.apps[name].guarded
    ensures read.OperatorReads? && read.name == name && Allowed(w, read)
    ensures var write := OperatorWrites(name, now, true);
            && Allowed(After(w, read), write)
            && var w' := After(After(w, read), write);
            && w'.apps == w.apps[name := w.apps[name].(guarded := true)] && w'.agents == w.agents
            && Allowed(w', UserDeletes(name))
  {
    hide Decide;
    var nodes, views := ListsExist(w, name, w.agents.Keys);
    read := OperatorReads(name, nodes, views);
    WriteGuards(After(w, read), name, now);
  }

  /** The operator's finalizer comes before any condition and before any deletion, and only goes with the application. */
  ghost predicate GuardedFirst(w: World) {
    && (forall a :: a in w.apps && !w.apps[a].guarded ==> w.apps[a].conditions == [] && !w.apps[a].app.deleting)
    && (forall a :: a in w.apps && a in w.readings && w.readings[a].guarded ==> w.apps[a].guarded)
  }

  lemma StepGuardsFirst(w: World, s: Step)
    requires GuardedFirst(w) && Allowed(w, s)
    ensures GuardedFirst(After(w, s))
  {
    hide Current;
  }

  lemma {:induction false} GuardOverRuns(w: World, steps: seq<Step>)
    requires Initial(w) && Run(w, steps)
    ensures GuardedFirst(AfterRun(w, steps))
    decreases |steps|
  {
    if steps != [] {
      GuardOverRuns(w, steps[..|steps| - 1]);
      StepGuardsFirst(AfterRun(w, steps[..|steps| - 1]), steps[|steps| - 1]);
    }
  }

  // ---- one whole life ----

  const App0 := AppWith(Anywhere, [Plain])
  const Dying := App0.(deleting := true)
  const Reported := [AppCondition(AppSuccess, 3)]
  const Gone := Prog.(programId := None)
  const Emptied := Daemon(map[], 1, 0, [LoadCall(["pass"]), UnloadCall(0)], {})

  /** The node after unloading, after giving up the finalizer, and after the state object is collected. */
  const Unloaded3 := AppStatus(AppUnLoadSuccess, 3, [Gone], [Condition(CondUnloaded, 4)])
  const Node3 := Node(map["a" := AppState(true, Unloaded3)], Emptied, 0)
  const Node4 := Node(map["a" := AppState(false, Unloaded3)], Emptied, 0)
  const Node5 := Node(map[], Emptied, 0)

  function ViewOf(st: AppState): StateView {
    StateView("a", "n", st.finalizer, st.status.conditions)
  }

  function Reads(node: Node): Step
    requires "a" in node.states
  {
    OperatorReads("a", ["n"], [ViewOf(node.states["a"])])
  }

  function WorldOf(stored: Stored, node: Node, listed: seq<App>): World {
    TheWorld(map["a" := stored], node, listed)
  }

  const Fresh := Stored(App0, false, [])
  const Guarded := Stored(App0, true, [])
  const Succeeded := Stored(App0, true, Reported)
  const Leaving := Stored(Dying, true, Reported)

  /** Created and loaded, guarded, reported as a success, deleted, unloaded, given up, released and collected. */
  function Life(): seq<Step> {
    Steps(App0)[..5] +
    [ Reads(Node2), OperatorWrites("a", 2, true), Reads(Node2), OperatorWrites("a", 3, true), UserDeletes("a"),
      AgentLists("n", ["a"]), AgentPasses("n", At(4, true)), AgentLists("n", ["a"]), AgentPasses("n", At(5, true)),
      Reads(Node4), OperatorWrites("a", 6, true), Collect("n", "a") ]
  }

  lemma OperatorStep(stored: Stored, node: Node, now: nat)
    requires "a" in node.states
    ensures var w, read, write := WorldOf(stored, node, []), Reads(node), OperatorWrites("a", now, true);
            && Allowed(w, read) && Allowed(After(w, read), write)
            && var d := Decide(stored.guarded, stored.app.deleting, Some(["n"]), Some([ViewOf(node.states["a"])]));
            After(After(w, read), write) == Decided(w, "a", d, now, true)
  {
    hide Decide, Decided;
    var w, read := WorldOf(stored, node, []), Reads(node);
    var v := ViewOf(node.states["a"]);
    assert Shows(w, "a", v) && [v][0] in [v];
    assert Covered("n", [v]);
    assert forall n :: n in w.agents <==> n == "n";
    var w1 := After(w, read);
    assert w1.(readings := w1.readings - {"a"}) == w;
  }

  /** The operator reads and writes as steps k and k + 1 of `steps`. */
  lemma OperatorLeads(w: World, steps: seq<Step>, k: nat, stored: Stored, node: Node, now: nat, w': World)
    requires "a" in node.states && k + 1 < |steps| && Leads(w, steps[..k], WorldOf(stored, node, []))
    requires steps[k] == Reads(node) && steps[k + 1] == OperatorWrites("a", now, true)
    requires var d := Decide(stored.guarded, stored.app.deleting, Some(["n"]), Some([ViewOf(node.states["a"])]));
             Decided(WorldOf(stored, node, []), "a", d, now, true) == w'
    ensures Leads(w, steps[..k + 2], w')
  {
    hide Allowed, After, Decide, Decided, Leads, WorldOf, Reads;
    OperatorStep(stored, node, now);
    var w1 := After(WorldOf(stored, node, []), steps[k]);
    LeadsOn(w, steps, k, WorldOf(stored, node, []), w1);
    LeadsOn(w, steps, k + 1, w1, w');
  }

  lemma ListsStored(stored: Stored, node: Node)
    ensures var w, list := WorldOf(stored, node, []), AgentLists("n", ["a"]);
            Allowed(w, list) && After(w, list) == WorldOf(stored, node, [stored.app])
  {
    var w, list := WorldOf(stored, node, []), AgentLists("n", ["a"]);
    assert forall n :: n in ["a"] <==> n in w.apps.Keys;
    assert After(w, list).agents["n"].listed == [stored.app];
  }

  /** The agent lists and passes as steps k and k + 1 of `steps`. */
  lemma AgentLeads(w: World, steps: seq<Step>, k: nat, stored: Stored, node: Node, inp: Inputs, node': Node)
    requires k + 1 < |steps| && Leads(w, steps[..k], WorldOf(stored, node, []))
    requires steps[k] == AgentLists("n", ["a"]) && steps[k + 1] == AgentPasses("n", inp)
    requires OnePass([stored.app], node, inp).node == node'
    ensures Leads(w, steps[..k + 2], WorldOf(stored, node', []))
  {
    hide Allowed, After, OnePass, Leads;
    ListsStored(stored, node);
    LeadsOn(w, steps, k, WorldOf(stored, node, []), WorldOf(stored, node, [stored.app]));
    PassesOne(map["a" := stored], node, stored.app, inp, node');
    LeadsOn(w, steps, k + 1, WorldOf(stored, node, [stored.app]), WorldOf(stored, node', []));
  }

  lemma UnloadsDying()
    ensures OnePass([Dying], Node2, At(4, true)) == Result(Node3, StatusWritten(0))
  {
    AnywhereSelects();
    assert UnloadUpTo([Prog], 0, Node2.daemon) == ([Prog], Node2.daemon);
    assert UnloadOne(Prog, Node2.daemon) == (Gone, Emptied) by {
      assert map[0 := NoLinks] - {0} == map[];
      assert [LoadCall(["pass"])] + [UnloadCall(0)] == Emptied.log;
    }
    assert [Prog][0 := Gone] == [Gone];
    assert UnloadUpTo([Prog], 1, Node2.daemon) == ([Gone], Emptied);
    var v := Visit(Dying, Node2.states["a"].status, Node2.daemon, Env0, 0, 4);
    assert v.status == Unloaded3.(updateCount := 2);
  }

  lemma GivesUpDying()
    ensures OnePass([Dying], Node3, At(5, true)) == Result(Node4, FinalizerRemoved(0))
  {
    AnywhereSelects();
    assert UnloadUpTo([Gone], 0, Emptied) == ([Gone], Emptied);
    assert [Gone][0 := Gone] == [Gone];
    var v := Visit(Dying, Unloaded3, Emptied, Env0, 0, 5);
    assert v.status == Unloaded3;
  }

  lemma Decisions()
    ensures Decide(false, false, Some(["n"]), Some([ViewOf(Node2.states["a"])])) == AddFinalizer
    ensures Decide(true, false, Some(["n"]), Some([ViewOf(Node2.states["a"])])) == SetStatus(AppSuccess, [])
    ensures Decide(true, true, Some(["n"]), Some([ViewOf(Node4.states["a"])])) == RemoveFinalizer
  {
    var views2, views4 := [ViewOf(Node2.states["a"])], [ViewOf(Node4.states["a"])];
    assert views2[0] in views2 && Covered("n", views2);
    Ranking(false, ["n"], views2);
    Ranking(true, ["n"], views4);
  }

  lemma DeletesAndCollects()
    ensures var w, s := WorldOf(Succeeded, Node2, []), UserDeletes("a");
            Allowed(w, s) && After(w, s) == WorldOf(Leaving, Node2, [])
    ensures var w, s := TheWorld(map[], Node4, []), Collect("n", "a");
            Allowed(w, s) && After(w, s) == TheWorld(map[], Node5, [])
  {
    assert Node4.states - {"a"} == map[];
  }

  lemma Writes()
    ensures Decided(WorldOf(Fresh, Node2, []), "a", AddFinalizer, 2, true) == WorldOf(Guarded, Node2, [])
    ensures Decided(WorldOf(Guarded, Node2, []), "a", SetStatus(AppSuccess, []), 3, true) == WorldOf(Succeeded, Node2, [])
    ensures Decided(WorldOf(Leaving, Node4, []), "a", RemoveFinalizer, 6, true) == TheWorld(map[], Node4, [])
  {
    var apps := map["a" := Leaving];
    assert apps - {"a"} == map[];
  }

  /** Created and loaded as in ReachesLoaded, guarded, and reported as a success. */
  lemma ReachesSuccess()
    ensures Leads(TheWorld(map[], Node0, []), Life()[..9], WorldOf(Succeeded, Node2, []))
  {
    hide Allowed, After, OnePass, Leads, Initial, Decide, Decided, Reads, ViewOf;
    var w, steps := TheWorld(map[], Node0, []), Life();
    ReachesLoaded(App0);
    assert steps[..5] == Steps(App0)[..5];
    Decisions();
    Writes();
    OperatorLeads(w, steps, 5, Fresh, Node2, 2, WorldOf(Guarded, Node2, []));
    OperatorLeads(w, steps, 7, Guarded, Node2, 3, WorldOf(Succeeded, Node2, []));
  }

  /** Deleted, unloaded, let go by the agent, released by the operator, and collected. */
  lemma LeavesNothing()
    ensures Leads(TheWorld(map[], Node0, []), Life(), TheWorld(map[], Node5, []))
  {
    hide Allowed, After, OnePass, Leads, Initial, TheWorld, WorldOf, Decide, Decided, Reads, ViewOf;
    var w, steps := TheWorld(map[], Node0, []), Life();
    ReachesSuccess();
    Decisions();
    Writes();
    DeletesAndCollects();
    LeadsOn(w, steps, 9, WorldOf(Succeeded, Node2, []), WorldOf(Leaving, Node2, []));
    UnloadsDying();
    AgentLeads(w, steps, 10, Leaving, Node2, At(4, true), Node3);
    GivesUpDying();
    AgentLeads(w, steps, 12, Leaving, Node3, At(5, true), Node4);
    OperatorLeads(w, steps, 14, Leaving, Node4, 6, TheWorld(map[], Node4, []));
    LeadsOn(w, steps, 16, TheWorld(map[], Node4, []), TheWorld(map[], Node5, []));
    assert steps[..17] == steps;
  }

  /**
   One run of a cluster of one node without applications: after nine steps an application is loaded, guarded and
   reported as a success, and after eight more neither the API server nor the node knows anything of it.
   */
  lemma WholeLife()
    ensures var w := TheWorld(map[], Node0, []);
            && Initial(w) && Run(w, Life()) && AfterRun(w, Life()) == TheWorld(map[], Node5, [])
            && Run(w, Life()[..9]) && AfterRun(w, Life()[..9]) == WorldOf(Succeeded, Node2, [])
  {
    hide Allowed, After, Run, AfterRun, Leads, Initial, WorldOf, TheWorld, StoredAs;
    ReachesLoaded(App0);
    ReachesSuccess();
    LeavesNothing();
    LeadsMeans(TheWorld(map[], Node0, []), Life()[..9], WorldOf(Succeeded, Node2, []));
    LeadsMeans(TheWorld(map[], Node0, []), Life(), TheWorld(map[], Node5, []));
  }
}
