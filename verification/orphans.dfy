/**
 State objects that outlive their application: the agent finds no application for them, so their finalizer is
 never removed.
 */
module Orphans {
  import opened Types
  import opened Application
  import opened Operator
  import opened Pass
  import opened Protocol
  import opened ProtocolProofs

  /** The application is gone, its state object carries the finalizer, and no pass is still to visit it. */
  ghost predicate Orphan(w: World, n: string, a: string) {
    && n in w.agents && a !in w.apps
    && a in w.agents[n].node.states && w.agents[n].node.states[a].finalizer
    && !Mentions(w.agents[n].listed, a, true) && !Mentions(w.agents[n].listed, a, false)
  }

  lemma PassLeaves(w: World, s: Step, n: string, a: string)
    requires s.AgentPasses? && s.at == n && Allowed(w, s) && Orphan(w, n, a)
    ensures Orphan(After(w, s), n, a)
  {
    hide PassFrom;
    PassMoves(w.agents[n].listed, 0, a, w.agents[n].node, s.inp);
  }

  lemma ListLeaves(w: World, s: Step, n: string, a: string)
    requires s.AgentLists? && s.at == n && Allowed(w, s) && WellNamed(w) && Orphan(w, n, a)
    ensures Orphan(After(w, s), n, a)
  {
    forall i | 0 <= i < |s.order| ensures After(w, s).agents[n].listed[i].name != a {
      assert s.order[i] in s.order;
    }
  }

  lemma StepLeaves(w: World, s: Step, n: string, a: string)
    requires Allowed(w, s) && WellNamed(w) && Orphan(w, n, a)
    ensures Orphan(After(w, s), n, a)
  {
    hide Decide, OnePass;
    if s.AgentPasses? && s.at == n {
      PassLeaves(w, s, n, a);
    } else if s.AgentLists? && s.at == n {
      ListLeaves(w, s, n, a);
    }
  }

  /** Whatever the users, the operator and the agents do, an orphan stays one, and its name can never be used again. */
  lemma {:induction false} OrphansStay(w: World, steps: seq<Step>, n: string, a: string)
    requires WellNamed(w) && Orphan(w, n, a) && Run(w, steps)
    ensures WellNamed(AfterRun(w, steps)) && Orphan(AfterRun(w, steps), n, a) && !Unused(AfterRun(w, steps), a)
  {
    hide Allowed, After, Orphan, WellNamed;
    if steps != [] {
      var init, s := steps[..|steps| - 1], steps[|steps| - 1];
      OrphansStay(w, init, n, a);
      StepLeaves(AfterRun(w, init), s, n, a);
      StepWellNamed(AfterRun(w, init), s);
    }
    NotUnused(AfterRun(w, steps), n, a);
  }

  lemma NotUnused(w: World, n: string, a: string)
    requires Orphan(w, n, a)
    ensures !Unused(w, a)
  {
  }

  // ---- how they come about ----

  /** A pass creates a state object exactly if it stops at a live application that has none and the creation is accepted. */
  lemma {:induction false} PassCreatesIff(listed: seq<App>, i: nat, a: string, node: Node, inp: Inputs)
    requires i <= |listed| && a !in node.states
    ensures var r := PassFrom(listed, i, node, inp);
            a in r.node.states <==> r.stop.Created? && r.stop.at < |listed| && listed[r.stop.at].name == a && inp.createOk
    decreases |listed| - i
  {
    hide Visit;
    if i < |listed| {
      var app := listed[i];
      if app.name !in node.states {
        PassCreatesIff(listed, i + 1, a, node, inp);
      } else {
        var v := Visit(app, node.states[app.name].status, node.daemon, inp.env, node.uuid, inp.now);
        PassCreatesIff(listed, i + 1, a, node.(daemon := v.daemon, uuid := v.uuid), inp);
      }
    }
  }

  /**
   A pass over a list read before the release makes an orphan exactly if it stops at the application by creating
   its state object.
   */
  lemma OrphanByPass(w: World, s: Step, a: string)
    requires s.AgentPasses? && Allowed(w, s) && a !in w.apps && a !in w.agents[s.at].node.states
    ensures var agent := w.agents[s.at];
            var r := OnePass(agent.listed, agent.node, s.inp);
            Orphan(After(w, s), s.at, a) <==>
              r.stop.Created? && r.stop.at < |agent.listed| && agent.listed[r.stop.at].name == a && s.inp.createOk
  {
    hide PassFrom;
    var agent := w.agents[s.at];
    PassCreatesIff(agent.listed, 0, a, agent.node, s.inp);
    PassMoves(agent.listed, 0, a, agent.node, s.inp);
  }

  /**
   The operator's release makes an orphan exactly if, when it writes, a state object with the finalizer exists that
   no pass is about to visit.
   */
  lemma OrphanByRelease(w: World, s: Step, n: string)
    requires s.OperatorWrites? && Allowed(w, s) && s.name in w.apps && n in w.agents && !Orphan(w, n, s.name)
    ensures var agent := w.agents[n];
            Orphan(After(w, s), n, s.name) <==>
              && s.ok && Releasing(w, s.name)
              && s.name in agent.node.states && agent.node.states[s.name].finalizer
              && !Mentions(agent.listed, s.name, true) && !Mentions(agent.listed, s.name, false)
  {
    hide Decide;
  }

  /** The step is a pass on node n that stops by creating the state object of `a`. */
  ghost predicate Creates(w: World, s: Step, n: string, a: string) {
    && s.AgentPasses? && s.at == n && n in w.agents && a !in w.agents[n].node.states && s.inp.createOk
    && var listed := w.agents[n].listed;
    var stop := OnePass(listed, w.agents[n].node, s.inp).stop;
    stop.Created? && stop.at < |listed| && listed[stop.at].name == a
  }

  /** Some step of the run does. */
  ghost predicate CreatedIn(w: World, steps: seq<Step>, n: string, a: string)
    requires Run(w, steps)
    decreases |steps|
  {
    steps != [] &&
    var init := steps[..|steps| - 1];
    Creates(AfterRun(w, init), steps[|steps| - 1], n, a) || CreatedIn(w, init, n, a)
  }

  /** Node n has a state object of `a` with the finalizer. */
  ghost predicate Guarded(w: World, n: string, a: string) {
    n in w.agents && a in w.agents[n].node.states && w.agents[n].node.states[a].finalizer
  }

  lemma StepGuards(w: World, s: Step, n: string, a: string)
    requires Allowed(w, s) && !Guarded(w, n, a) && Guarded(After(w, s), n, a)
    ensures Creates(w, s, n, a)
  {
    hide Decide, PassFrom;
    if s.AgentPasses? && s.at == n {
      PassMoves(w.agents[n].listed, 0, a, w.agents[n].node, s.inp);
      if a !in w.agents[n].node.states {
        PassCreatesIff(w.agents[n].listed, 0, a, w.agents[n].node, s.inp);
      }
    }
  }

  lemma {:induction false} GuardedIsCreated(w: World, steps: seq<Step>, n: string, a: string)
    requires Run(w, steps) && !Guarded(w, n, a) && Guarded(AfterRun(w, steps), n, a)
    ensures CreatedIn(w, steps, n, a)
  {
    hide Allowed, After, Guarded, Creates;
    if steps != [] {
      var init, s := steps[..|steps| - 1], steps[|steps| - 1];
      if Guarded(AfterRun(w, init), n, a) {
        GuardedIsCreated(w, init, n, a);
      } else {
        StepGuards(AfterRun(w, init), s, n, a);
      }
    }
  }

  /**
   If the operator has read what makes it let an application go, a state object with the finalizer that is there
   when it writes was created by a pass in between, whatever happened meanwhile.
   */
  lemma OrphanIsCreatedMeanwhile(w: World, read: Step, steps: seq<Step>, n: string)
    requires read.OperatorReads? && Allowed(w, read) && Releasing(After(w, read), read.name) && n in w.agents
    requires Run(After(w, read), steps) && Guarded(AfterRun(After(w, read), steps), n, read.name)
    ensures CreatedIn(After(w, read), steps, n, read.name)
  {
    hide Run, CreatedIn, Releasing;
    Releases(w, read, n);
    GuardedIsCreated(After(w, read), steps, n, read.name);
  }
}
