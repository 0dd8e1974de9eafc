/** What every run of the protocol keeps, and what the cluster's Success means. */
module ProtocolProofs {
  import opened Types
  import opened Daemons
  import opened Application
  import opened ApplicationProofs
  import opened VisitProofs
  import opened Operator
  import opened Pass
  import opened PassProofs
  import opened LostWrites
  import opened Protocol

  // ---- what a pass can do to a state object ----

  /** From node to node', a pass over `listed` has treated application `a` as the protocol relies on. */
  ghost predicate Moves(listed: seq<App>, a: string, node: Node, node': Node) {
    && (a in node.states ==> a in node'.states)
    && (a !in node.states && a in node'.states ==>
          Mentions(listed, a, false) && node'.states[a].finalizer && RecordedIds(Record(node', a)) == {})
    && (a in node.states ==>
          && (node'.states[a].finalizer ==> node.states[a].finalizer)
          && (|| node'.states[a].finalizer == node.states[a].finalizer
              || (Mentions(listed, a, true) && RecordedIds(Record(node', a)) == {}))
          && (RecordedIds(Record(node', a)) <= RecordedIds(Record(node, a)) || Mentions(listed, a, false)))
  }

  lemma {:induction false} PassMoves(listed: seq<App>, i: nat, a: string, node: Node, inp: Inputs)
    requires i <= |listed|
    ensures Moves(listed, a, node, PassFrom(listed, i, node, inp).node)
    decreases |listed| - i
  {
    hide Visit;
    if i < |listed| {
      var app := listed[i];
      assert app.name == a ==> Mentions(listed, a, app.deleting);
      if app.name !in node.states {
        if app.deleting {
          PassMoves(listed, i + 1, a, node, inp);
        } else {
          CreateMoves(app, node, inp);
        }
      } else {
        var st := node.states[app.name];
        var v := Visit(app, st.status, node.daemon, inp.env, node.uuid, inp.now);
        if app.deleting {
          VisitReleases(app, st.status, node.daemon, inp.env, node.uuid, inp.now);
        }
        PassMoves(listed, i + 1, a, node.(daemon := v.daemon, uuid := v.uuid), inp);
      }
    }
  }

  lemma CreateMoves(app: App, node: Node, inp: Inputs)
    requires app.name !in node.states
    ensures var node' := CreateState(app, node, inp);
            app.name in node'.states ==> node'.states[app.name].finalizer && RecordedIds(Record(node', app.name)) == {}
  {
    var n := |app.programs|;
    if InitialPrograms(app.programs, n).Some? {
      InitialFacts(app.programs, n);
      var ps := InitialPrograms(app.programs, n).value;
      forall x | x in RecordedIds(ps) ensures false {
        RecordedHas(ps, x);
      }
    }
  }

  // ---- teardown safety ----

  /** The application is being deleted or gone, and every pass still to run on it knows. */
  ghost predicate Doomed(w: World, n: string, a: string)
    requires n in w.agents
  {
    (a in w.apps ==> w.apps[a].app.deleting) && !Mentions(w.agents[n].listed, a, false)
  }

  ghost predicate WellNamed(w: World) {
    forall a :: a in w.apps ==> w.apps[a].app.name == a
  }

  /** The operator has read what makes it let the application go, and has not done so yet. */
  predicate Releasing(w: World, a: string) {
    a in w.readings && DecisionOf(w.readings[a]) == RemoveFinalizer
  }

  /** What the protocol keeps about one application on one node. */
  ghost predicate Safe(w: World, n: string, a: string)
    requires n in w.agents
  {
    var node := w.agents[n].node;
    && (a in node.states && (a !in w.apps || !node.states[a].finalizer || Releasing(w, a)) ==>
          RecordedIds(Record(node, a)) == {} && Doomed(w, n, a))
    && ((Mentions(w.agents[n].listed, a, true) || Releasing(w, a)) && a in w.apps ==> w.apps[a].app.deleting)
  }

  /**
   The operator decides to let an application go only if it is being deleted and no state object of it carries
   the agent's finalizer, as they stand when it reads them.
   */
  lemma Releases(w: World, s: Step, n: string)
    requires s.OperatorReads? && Allowed(w, s) && Releasing(After(w, s), s.name) && n in w.agents
    ensures w.apps[s.name].app.deleting
    ensures s.name in w.agents[n].node.states ==> !w.agents[n].node.states[s.name].finalizer
  {
    var stored := w.apps[s.name];
    Ranking(stored.app.deleting, s.nodes, s.views);
    if s.name in w.agents[n].node.states {
      var v :| v in s.views && v.node == n;
      assert Shows(w, s.name, v);
    }
  }

  lemma ReadSafe(w: World, s: Step, n: string, a: string)
    requires s.OperatorReads? && Allowed(w, s) && n in w.agents && Safe(w, n, a)
    ensures n in After(w, s).agents && Safe(After(w, s), n, a)
  {
    hide Decide;
    if a == s.name && Releasing(After(w, s), a) {
      Releases(w, s, n);
    }
  }

  lemma WriteSafe(w: World, s: Step, n: string, a: string)
    requires s.OperatorWrites? && Allowed(w, s) && n in w.agents && Safe(w, n, a)
    ensures n in After(w, s).agents && Safe(After(w, s), n, a)
  {
    hide Decide;
  }

  lemma PassSafe(w: World, s: Step, n: string, a: string)
    requires s.AgentPasses? && Allowed(w, s) && n in w.agents && Safe(w, n, a)
    ensures n in After(w, s).agents && Safe(After(w, s), n, a)
  {
    hide PassFrom;
    var agent := w.agents[n];
    if n == s.at {
      PassMoves(agent.listed, 0, a, agent.node, s.inp);
    }
  }

  lemma StepSafe(w: World, s: Step, n: string, a: string)
    requires Allowed(w, s) && n in w.agents && WellNamed(w) && Safe(w, n, a)
    ensures n in After(w, s).agents && Safe(After(w, s), n, a)
  {
    hide Decide, PassFrom;
    match s
    case OperatorReads(_, _, _) => ReadSafe(w, s, n, a);
    case OperatorWrites(_, _, _) => WriteSafe(w, s, n, a);
    case AgentPasses(_, _) => PassSafe(w, s, n, a);
    case AgentLists(_, _) => ListSafe(w, s, n, a);
    case _ =>
  }

  lemma ListSafe(w: World, s: Step, n: string, a: string)
    requires s.AgentLists? && Allowed(w, s) && n in w.agents && WellNamed(w) && Safe(w, n, a)
    ensures n in After(w, s).agents && Safe(After(w, s), n, a)
  {
    hide Decide;
    if n == s.at {
      forall i | 0 <= i < |s.order|
        ensures After(w, s).agents[n].listed[i] == w.apps[s.order[i]].app && s.order[i] in w.apps
      {
        assert s.order[i] in s.order;
      }
    }
  }

  lemma StepWellNamed(w: World, s: Step)
    requires Allowed(w, s) && WellNamed(w)
    ensures WellNamed(After(w, s))
  {
  }

  /** The protocol's invariant is kept by every run from a world that has it. */
  lemma {:induction false} SafeAfter(w: World, steps: seq<Step>, n: string, a: string)
    requires n in w.agents && WellNamed(w) && Safe(w, n, a) && Run(w, steps)
    ensures var w' := AfterRun(w, steps); n in w'.agents && WellNamed(w') && Safe(w', n, a)
  {
    hide Allowed, Safe;
    if steps != [] {
      var init, s := steps[..|steps| - 1], steps[|steps| - 1];
      SafeAfter(w, init, n, a);
      StepSafe(AfterRun(w, init), s, n, a);
      StepWellNamed(AfterRun(w, init), s);
    }
  }

  lemma RunSafe(w: World, steps: seq<Step>, n: string, a: string)
    requires Initial(w) && Run(w, steps) && n in w.agents
    ensures var w' := AfterRun(w, steps); n in w'.agents && WellNamed(w') && Safe(w', n, a)
  {
    InitialSafe(w, n, a);
    SafeAfter(w, steps, n, a);
  }

  lemma InitialSafe(w: World, n: string, a: string)
    requires Initial(w) && n in w.agents
    ensures WellNamed(w) && Safe(w, n, a)
  {
  }

  /**
   Teardown safety, over every interleaving of users, operator and agents and whatever API writes and daemon
   calls fail: an application that the operator has released has no recorded program on any node, and no pass
   that is still to run takes it for a live one.
   */
  lemma TeardownSafety(w: World, steps: seq<Step>, n: string, a: string)
    requires Initial(w) && Run(w, steps) && n in w.agents
    ensures var w' := AfterRun(w, steps);
            && n in w'.agents
            && (a !in w'.apps && a in w'.agents[n].node.states ==>
                  && RecordedIds(Record(w'.agents[n].node, a)) == {}
                  && !Mentions(w'.agents[n].listed, a, false))
  {
    RunSafe(w, steps, n, a);
  }

  // ---- accounting ----

  /**
   The step leaves nothing attached without a record, and where `loads` matters nothing loaded either: a pass has
   its status written or was not going to attach or load at the application where it stops, and the daemon does
   not lose just some of its programs.
   */
  ghost predicate HarmlessStep(w: World, s: Step, loads: bool) {
    && (s.AgentPasses? && s.at in w.agents ==> Harmless(w.agents[s.at].listed, w.agents[s.at].node, s.inp, loads))
    && (loads ==> !s.Lost?)
  }

  ghost predicate HarmlessRun(w: World, steps: seq<Step>, loads: bool)
    requires Run(w, steps)
    decreases |steps|
  {
    steps != [] ==>
      var init := steps[..|steps| - 1];
      HarmlessRun(w, init, loads) && HarmlessStep(AfterRun(w, init), steps[|steps| - 1], loads)
  }

  predicate DistinctListed(listed: seq<App>) {
    forall i :: 0 <= i < |listed| ==> DistinctSpecs(listed[i].programs)
  }

  ghost predicate WellFormed(w: World) {
    && (forall a :: a in w.apps ==> DistinctSpecs(w.apps[a].app.programs))
    && (forall n :: n in w.agents ==> DistinctListed(w.agents[n].listed))
  }

  lemma StepWellFormed(w: World, s: Step)
    requires Allowed(w, s) && WellFormed(w)
    ensures WellFormed(After(w, s))
  {
    hide Decide, OnePass;
    var w' := After(w, s);
    if s.AgentLists? {
      forall i | 0 <= i < |s.order| ensures DistinctSpecs(w'.agents[s.at].listed[i].programs) {
        assert s.order[i] in s.order;
      }
    }
  }

  /** What the agents' own objects and daemons keep. */
  ghost predicate Kept(w: World, noneLost: bool) {
    forall n :: n in w.agents ==> NodeInv(w.agents[n].node) && (noneLost ==> NodeNoneLost(w.agents[n].node))
  }

  lemma LoseInv(node: Node, ids: set<nat>)
    requires NodeInv(node)
    ensures NodeInv(Lose(node, ids))
  {
  }

  lemma RestartNoneLost(node: Node)
    ensures NodeNoneLost(Lose(node, node.daemon.programs.Keys))
  {
  }

  lemma CollectInv(node: Node, a: string, noneLost: bool)
    requires NodeInv(node) && a in node.states && RecordedIds(Record(node, a)) == {}
    requires noneLost ==> NodeNoneLost(node)
    ensures var node' := node.(states := node.states - {a}); NodeInv(node') && (noneLost ==> NodeNoneLost(node'))
  {
    hide AppInv, Valid, AllOrNone;
    var node' := node.(states := node.states - {a});
    if noneLost {
      forall p | p in node'.daemon.programs ensures exists b :: b in node'.states && p in RecordedIds(Record(node', b)) {
        var b :| b in node.states && p in RecordedIds(Record(node, b));
        assert Record(node', b) == Record(node, b);
      }
    }
  }

  lemma StepKept(w: World, s: Step, noneLost: bool)
    requires Allowed(w, s) && WellFormed(w) && Kept(w, noneLost) && HarmlessStep(w, s, noneLost)
    requires s.Collect? ==> Safe(w, s.at, s.name)
    ensures Kept(After(w, s), noneLost)
  {
    hide NodeInv, NodeNoneLost, Decide, OnePass, Harmless;
    match s
    case AgentPasses(at, inp) => HarmlessPass(w.agents[at].listed, w.agents[at].node, inp, noneLost);
    case Collect(at, a) => CollectInv(w.agents[at].node, a, noneLost);
    case Lost(at, ids) => LoseInv(w.agents[at].node, ids);
    case Restarted(at) => {
      LoseInv(w.agents[at].node, w.agents[at].node.daemon.programs.Keys);
      RestartNoneLost(w.agents[at].node);
    }
    case _ =>
  }

  lemma InitialKept(w: World)
    requires Initial(w)
    ensures Kept(w, true) && WellFormed(w)
  {
  }

  lemma {:induction false} RunKept(w: World, steps: seq<Step>, noneLost: bool)
    requires Initial(w) && Run(w, steps) && HarmlessRun(w, steps, noneLost)
    ensures Kept(AfterRun(w, steps), noneLost) && WellFormed(AfterRun(w, steps))
    ensures AfterRun(w, steps).agents.Keys == w.agents.Keys
  {
    hide Initial, Allowed, Safe, Kept, WellFormed, After, HarmlessStep;
    InitialKept(w);
    if steps == [] {
      KeptWeaker(w, noneLost);
    } else {
      var init, s := steps[..|steps| - 1], steps[|steps| - 1];
      var w1 := AfterRun(w, init);
      RunKept(w, init, noneLost);
      if s.Collect? {
        CollectAllowed(w1, s);
        RunSafe(w, init, s.at, s.name);
      }
      StepKept(w1, s, noneLost);
      StepWellFormed(w1, s);
      SameAgents(w1, s);
    }
  }

  lemma KeptWeaker(w: World, noneLost: bool)
    requires Kept(w, true)
    ensures Kept(w, noneLost)
  {
  }

  lemma CollectAllowed(w: World, s: Step)
    requires Allowed(w, s) && s.Collect?
    ensures s.at in w.agents
  {
  }

  lemma SameAgents(w: World, s: Step)
    requires Allowed(w, s)
    ensures After(w, s).agents.Keys == w.agents.Keys
  {
  }

  /**
   Link accounting over every run, with refused status writes as long as the pass was not going to attach where it
   stopped: on every node, every link the daemon holds for a recorded program is recorded by exactly one entry of
   that program.
   */
  lemma AccountingOverRuns(w: World, steps: seq<Step>, n: string)
    requires Initial(w) && Run(w, steps) && HarmlessRun(w, steps, false) && n in w.agents
    ensures n in AfterRun(w, steps).agents && NodeInv(AfterRun(w, steps).agents[n].node)
  {
    hide Initial, Run, NodeInv, HarmlessRun;
    RunKept(w, steps, false);
    assert n in AfterRun(w, steps).agents.Keys;
  }

  /**
   Teardown reaches the daemon: in such a run in which no status write is refused after a load either, and the
   daemon never loses just some of its programs, every program loaded on a node is recorded for an application
   that is still stored.
   */
  lemma NothingLeftLoaded(w: World, steps: seq<Step>, n: string, p: nat)
    requires Initial(w) && Run(w, steps) && HarmlessRun(w, steps, true) && n in w.agents
    ensures var w' := AfterRun(w, steps);
            && n in w'.agents
            && (p in w'.agents[n].node.daemon.programs ==>
                  exists a :: a in w'.apps && a in w'.agents[n].node.states && p in RecordedIds(Record(w'.agents[n].node, a)))
  {
    hide Initial, Run, NodeInv, HarmlessRun;
    RunKept(w, steps, true);
    var w' := AfterRun(w, steps);
    assert n in w'.agents.Keys;
    var node := w'.agents[n].node;
    if p in node.daemon.programs {
      var a :| a in node.states && p in RecordedIds(Record(node, a));
      TeardownSafety(w, steps, n, a);
    }
  }

  // ---- what the cluster's Success means ----

  lemma SuccessMeans(w: World, s: Step)
    requires s.OperatorReads? && Allowed(w, s)
    requires var stored := w.apps[s.name];
             Decide(stored.guarded, stored.app.deleting, Some(s.nodes), Some(s.views)) == SetStatus(AppSuccess, [])
    ensures !w.apps[s.name].app.deleting
    ensures forall n :: n in w.agents ==> Covered(n, s.views)
    ensures forall v :: v in s.views ==> !IsFailure(v.conditions) && !IsPending(v.conditions)
  {
  }
}
