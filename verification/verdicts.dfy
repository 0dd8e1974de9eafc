/** What stands behind the conditions the operator reads: the pass that wrote the record left the daemon as it says. */
module Verdicts {
  import opened Types
  import opened Daemons
  import opened Application
  import opened ApplicationProofs
  import opened VisitProofs
  import opened Operator
  import opened Pass
  import opened PassProofs
  import opened Protocol
  import opened ProtocolProofs

  /** Neither failing nor pending nor of empty type. */
  predicate Proper(conditions: seq<Condition>) {
    !IsFailure(conditions) && !IsPending(conditions) && conditions[0].kind != CondEmpty
  }

  /** The daemon holds exactly the expected links, or nothing is recorded, as the application calls for. */
  ghost predicate Truthful(app: App, ps: seq<ProgState>, d: Daemon, env: Env) {
    if Selected(app.selector, env.labels) == Some(true) && !app.deleting then
      forall s :: s in app.programs ==> ProgramExact(s, ps, d, env)
    else RecordedIds(ps) == {}
  }

  lemma UnselectedTruthful(app: App, status: AppStatus, d: Daemon, env: Env, uuid: nat, now: nat)
    requires Valid(d) && AppInv(status.programs, d) && Selected(app.selector, env.labels) == Some(false)
    requires !Visit(app, status, d, env, uuid, now).panicked
    ensures RecordedIds(Visit(app, status, d, env, uuid, now).status.programs) == {}
  {
    hide AppAccounted, ProgsStanding;
    UnloadKeys(status.programs, d);
    LoadProgress(app, status, d, env);
    var l := ReconcileLoad(app, status, d, env);
    ReconcileProgsStanding(app.programs, l.status.programs, l.daemon, env, uuid);
    var r := ReconcileProgs(app.programs, l.status.programs, l.daemon, env, uuid);
    StandingAccounted(l.status.programs, l.daemon, r.programs, r.daemon);
  }

  lemma ProperIsSuccess(app: App, status: AppStatus, d: Daemon, env: Env, uuid: nat, now: nat)
    requires Valid(d) && AppInv(status.programs, d)
    requires Selected(app.selector, env.labels) == Some(true) && !app.deleting
    requires Proper(Visit(app, status, d, env, uuid, now).status.conditions)
    ensures HasCondition(Visit(app, status, d, env, uuid, now).status.conditions, CondSuccess)
  {
    hide AppInv, ProgramListMatches, IsLoaded, Settles, AllFound, GoodLoad;
    if ReconcileLoad(app, status, d, env).ok {
      LoopFacts(app, status, d, env, uuid);
      LoadedOrNone(app, status, d, env);
    }
  }

  /** A visit that ends in a proper condition leaves record and daemon as the application calls for. */
  lemma VisitTruthful(app: App, status: AppStatus, d: Daemon, env: Env, uuid: nat, now: nat)
    requires Valid(d) && AppInv(status.programs, d)
    ensures var v := Visit(app, status, d, env, uuid, now);
            !v.panicked && Proper(v.status.conditions) ==> Truthful(app, v.status.programs, v.daemon, env)
  {
    hide Visit, AppInv, ProgramExact, Valid, Proper;
    var v := Visit(app, status, d, env, uuid, now);
    if !v.panicked && Proper(v.status.conditions) {
      if app.deleting {
        DeletingTruthful(app, status, d, env, uuid, now);
      } else if Selected(app.selector, env.labels) == Some(true) {
        ProperIsSuccess(app, status, d, env, uuid, now);
        SuccessIsExact(app, status, d, env, uuid, now);
      } else {
        Unparsable(app, status, d, env, uuid, now);
        UnselectedTruthful(app, status, d, env, uuid, now);
      }
    }
  }

  lemma DeletingTruthful(app: App, status: AppStatus, d: Daemon, env: Env, uuid: nat, now: nat)
    requires app.deleting && Proper(Visit(app, status, d, env, uuid, now).status.conditions)
    ensures RecordedIds(Visit(app, status, d, env, uuid, now).status.programs) == {}
  {
    VisitReleases(app, status, d, env, uuid, now);
  }

  lemma Unparsable(app: App, status: AppStatus, d: Daemon, env: Env, uuid: nat, now: nat)
    requires Proper(Visit(app, status, d, env, uuid, now).status.conditions)
    ensures Selected(app.selector, env.labels).Some?
  {
  }

  /** Where a visit would change nothing and the condition is proper, record and daemon are as they should be already. */
  lemma QuietIsTruthful(app: App, status: AppStatus, d: Daemon, env: Env, uuid: nat, now: nat)
    requires Valid(d) && AppInv(status.programs, d) && Proper(status.conditions)
    ensures var v := Visit(app, status, d, env, uuid, now);
            !v.panicked && !v.mustWrite && v.status == status ==> Truthful(app, status.programs, d, env)
  {
    hide Visit, AppInv, ProgramExact, Valid, Proper;
    var v := Visit(app, status, d, env, uuid, now);
    if !v.panicked && !v.mustWrite && v.status == status {
      VisitTruthful(app, status, d, env, uuid, now);
      UnchangedVisit(app, status, d, env, uuid, now);
      forall s | ProgramExact(s, status.programs, v.daemon, env) ensures ProgramExact(s, status.programs, d, env) {
        SameExact(s, status.programs, v.daemon, d, env);
      }
    }
  }

  lemma SameExact(s: ProgSpec, ps: seq<ProgState>, d: Daemon, d': Daemon, env: Env)
    requires SameHoldings(d', d) && ProgramExact(s, ps, d, env)
    ensures ProgramExact(s, ps, d', env)
  {
  }

  // ---- passes ----

  /** The pass over `listed` has written the record of `a`, and truthfully. */
  ghost predicate WroteTruth(listed: seq<App>, a: string, node': Node, env: Env) {
    && a in node'.states
    && exists k :: 0 <= k < |listed| && listed[k].name == a &&
                   Truthful(listed[k], Record(node', a), node'.daemon, env)
  }

  lemma {:induction false} PassTruthful(listed: seq<App>, i: nat, a: string, node: Node, inp: Inputs)
    requires i <= |listed| && NodeInv(node)
    ensures var node' := PassFrom(listed, i, node, inp).node;
            a in node'.states && Proper(node'.states[a].status.conditions) ==>
              || (a in node.states && node'.states[a].status == node.states[a].status)
              || WroteTruth(listed, a, node', inp.env)
    decreases |listed| - i
  {
    hide NodeInv, AppInv, Visit, Valid, Truthful, Progress;
    if i < |listed| {
      var app := listed[i];
      var r := PassFrom(listed, i, node, inp);
      if app.name !in node.states {
        if app.deleting {
          PassTruthful(listed, i + 1, a, node, inp);
        }
      } else {
        var st := node.states[app.name];
        var v := Visit(app, st.status, node.daemon, inp.env, node.uuid, inp.now);
        var node' := node.(daemon := v.daemon, uuid := v.uuid);
        NodeInvAt(node, app.name);
        if !v.panicked && (v.mustWrite || v.status != st.status) {
          VisitTruthful(app, st.status, node.daemon, inp.env, node.uuid, inp.now);
          if inp.statusWriteOk && a == app.name && Proper(r.node.states[a].status.conditions) {
            assert Truthful(listed[i], Record(r.node, a), r.node.daemon, inp.env);
          }
        } else if !v.panicked && !(app.deleting && !IsFailure(st.status.conditions) && st.finalizer) {
          VisitProgress(app, st.status, node.daemon, inp.env, node.uuid, inp.now);
          PutProgress(node, app.name, st, v.daemon, v.uuid);
          assert node.states[app.name := st] == node.states;
          PassTruthful(listed, i + 1, a, node', inp);
        }
      }
    }
  }

  // ---- runs ----

  /** The step is a pass on node n that left this status of `a` behind, truthfully. */
  ghost predicate Wrote(w: World, s: Step, n: string, a: string, status: AppStatus) {
    && s.AgentPasses? && s.at == n && n in w.agents
    && var node' := OnePass(w.agents[n].listed, w.agents[n].node, s.inp).node;
    WroteTruth(w.agents[n].listed, a, node', s.inp.env) && node'.states[a].status == status
  }

  /** Some pass of the run did. */
  ghost predicate Witnessed(w: World, steps: seq<Step>, n: string, a: string, status: AppStatus)
    requires Run(w, steps)
    decreases |steps|
  {
    steps != [] &&
    var init := steps[..|steps| - 1];
    Wrote(AfterRun(w, init), steps[|steps| - 1], n, a, status) || Witnessed(w, init, n, a, status)
  }

  lemma StepTruthful(w: World, s: Step, n: string, a: string)
    requires Allowed(w, s) && n in w.agents && NodeInv(w.agents[n].node)
    ensures n in After(w, s).agents
    ensures var states := After(w, s).agents[n].node.states;
            a in states && Proper(states[a].status.conditions) ==>
              || (a in w.agents[n].node.states && states[a].status == w.agents[n].node.states[a].status)
              || Wrote(w, s, n, a, states[a].status)
  {
    hide Decide, PassFrom, NodeInv, WroteTruth, Proper;
    if s.AgentPasses? && s.at == n {
      PassTruthful(w.agents[n].listed, 0, a, w.agents[n].node, s.inp);
    }
  }

  /**
   In every run in which no pass forgets a link: behind every record with a proper condition stands a
   pass of the run that wrote this record and left the daemon exact for the spec and the environment it worked
   with, or nothing recorded if the application was being deleted or did not select the node.
   */
  lemma {:induction false} RecordsAreTruthful(w: World, steps: seq<Step>, n: string, a: string)
    requires Initial(w) && Run(w, steps) && HarmlessRun(w, steps, false) && n in w.agents
    ensures n in AfterRun(w, steps).agents
    ensures var states := AfterRun(w, steps).agents[n].node.states;
            a in states && Proper(states[a].status.conditions) ==> Witnessed(w, steps, n, a, states[a].status)
  {
    hide Initial, Allowed, After, NodeInv, Proper, Wrote;
    if steps == [] {
      NoStates(w, n);
    } else {
      var init, s := steps[..|steps| - 1], steps[|steps| - 1];
      RecordsAreTruthful(w, init, n, a);
      AccountingOverRuns(w, init, n);
      StepTruthful(AfterRun(w, init), s, n, a);
    }
  }

  lemma NoStates(w: World, n: string)
    requires Initial(w) && n in w.agents
    ensures w.agents[n].node.states == map[]
  {
  }

  /**
   Soundness of the cluster's Success, in every run in which no pass forgets a link.  When the operator
   reads what makes it report Success, the application is live and every node has a record of it that is neither
   failing nor pending.  Unless the record's condition has the empty type, a pass of the run wrote it and left
   the node exact for the spec it worked with; and if the agent has nothing left to change, the node is exact
   for the spec as it stands.
   */
  lemma ClusterSuccess(
    w: World, steps: seq<Step>, s: Step, n: string, env: Env, uuid: nat, now: nat)
    requires Initial(w) && Run(w, steps) && HarmlessRun(w, steps, false) && n in w.agents
    requires s.OperatorReads? && Allowed(AfterRun(w, steps), s)
    requires DecisionOf(After(AfterRun(w, steps), s).readings[s.name]) == SetStatus(AppSuccess, [])
    ensures var w' := AfterRun(w, steps);
            && !w'.apps[s.name].app.deleting && n in w'.agents && s.name in w'.agents[n].node.states
            && var app, node := w'.apps[s.name].app, w'.agents[n].node;
            var status := node.states[s.name].status;
            && !IsFailure(status.conditions) && !IsPending(status.conditions)
            && (status.conditions[0].kind != CondEmpty ==>
                  && Witnessed(w, steps, n, s.name, status)
                  && var v := Visit(app, status, node.daemon, env, uuid, now);
                  !v.panicked && !v.mustWrite && v.status == status ==> Truthful(app, status.programs, node.daemon, env))
  {
    hide Initial, Run, Decide, Witnessed, NodeInv, AppInv, Visit, Truthful, Valid;
    var w' := AfterRun(w, steps);
    RecordsAreTruthful(w, steps, n, s.name);
    AccountingOverRuns(w, steps, n);
    SuccessMeans(w', s);
    var v :| v in s.views && v.node == n;
    assert Shows(w', s.name, v);
    NodeInvAt(w'.agents[n].node, s.name);
    var status := w'.agents[n].node.states[s.name].status;
    if status.conditions[0].kind != CondEmpty {
      QuietIsTruthful(w'.apps[s.name].app, status, w'.agents[n].node.daemon, env, uuid, now);
    }
  }
}
