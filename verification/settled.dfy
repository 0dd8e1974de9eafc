/** What the operator reports once every agent has converged. */
module Settled {
  import opened Types
  import opened Daemons
  import opened Expansion
  import opened Programs
  import opened Application
  import opened ApplicationProofs
  import opened VisitProofs
  import opened Operator
  import opened Pass
  import opened PassProofs
  import opened Convergence
  import opened Unselected
  import opened Protocol

  /** All the attachments of every program can be expanded on the node. */
  predicate AllExpand(app: App, env: Env) {
    forall s :: s in app.programs ==> Expand(s.infos, env).ok
  }

  lemma SelectedRestMeans(app: App, status: AppStatus, d: Daemon, env: Env)
    requires AppInv(status.programs, d) && LiveAtRest(app, status, d, env)
    requires ProgramListMatches(app.programs, status.programs) && AllFound(app.programs, status.programs)
    ensures HasCondition(status.conditions, if AllExpand(app, env) then CondSuccess else CondError)
  {
    var ps := status.programs;
    if AllExpand(app, env) {
      forall p | p in ps ensures p.linkStatus == ProgAttachSuccess {
        var s :| s in app.programs && s.name == p.name;
        assert Quiescent(s, ps[FindProgState(s, ps).value], d, env);
      }
    } else {
      SomeFails(app, ps, d, env);
    }
  }

  lemma UnselectedRestMeans(app: App, status: AppStatus, d: Daemon, env: Env)
    requires UnselectedAtRest(app, status, d, env) && AllFound(app.programs, status.programs)
    ensures HasCondition(status.conditions, if AllExpand(app, env) then CondSuccess else CondError)
  {
    hide Quiescent;
    var ps := status.programs;
    if AllExpand(app, env) {
      forall i | 0 <= i < |ps| ensures ps[i].linkStatus == ProgAttachSuccess {
        if !Unclaimed(app.programs, ps, i) {
          var s :| s in app.programs && FindProgState(s, ps) == Some(i);
          QuietStatus(s, ps[i], d, env);
        }
      }
    } else {
      SomeFails(app, ps, d, env);
    }
  }

  lemma QuietStatus(s: ProgSpec, p: ProgState, d: Daemon, env: Env)
    requires Quiescent(s, p, d, env)
    ensures p.linkStatus == if Expand(s.infos, env).ok then ProgAttachSuccess else UpdateAttachInfoError
  {
  }

  lemma SomeFails(app: App, ps: seq<ProgState>, d: Daemon, env: Env)
    requires !AllExpand(app, env) && AllFound(app.programs, ps)
    requires forall s :: s in app.programs && FindProgState(s, ps).Some? ==> Quiescent(s, ps[FindProgState(s, ps).value], d, env)
    ensures exists p :: p in ps && p.linkStatus != ProgAttachSuccess
  {
    hide Quiescent;
    var s :| s in app.programs && !Expand(s.infos, env).ok;
    var j := FindProgState(s, ps).value;
    QuietStatus(s, ps[j], d, env);
    assert ps[j] in ps;
  }

  /** At rest, a live application reports Success exactly if all its attachments can be expanded, and else Error. */
  lemma RestMeans(app: App, node: Node, env: Env)
    requires NodeInv(node) && app.name in node.states && Loadable(app, node, env) && !app.deleting
    requires AtRest(app, node.states[app.name].status, node.daemon, env)
    ensures HasCondition(node.states[app.name].status.conditions, if AllExpand(app, env) then CondSuccess else CondError)
  {
    hide LiveAtRest, UnselectedAtRest, AppInv, AllExpand, ProgramListMatches, AllFound, AsksNothing, HasCondition, Valid;
    NodeInvAt(node, app.name);
    if Selected(app.selector, env.labels) == Some(true) {
      SelectedRestMeans(app, node.states[app.name].status, node.daemon, env);
    } else {
      UnselectedRestMeans(app, node.states[app.name].status, node.daemon, env);
    }
  }

  /** Every agent has nothing left to do for the application, as its environment stands. */
  ghost predicate AllSettled(w: World, name: string, envs: map<string, Env>)
    requires name in w.apps
  {
    var app := w.apps[name].app;
    && app.name == name
    && forall n :: n in w.agents ==>
         && n in envs
         && var node := w.agents[n].node;
         NodeInv(node) && Loadable(app, node, envs[n]) && Weight(app, node, envs[n]) == 0
  }

  lemma SettledNode(w: World, name: string, envs: map<string, Env>, n: string)
    requires name in w.apps && AllSettled(w, name, envs) && n in w.agents && !w.apps[name].app.deleting
    ensures var node := w.agents[n].node;
            && name in node.states
            && HasCondition(node.states[name].status.conditions,
                            if AllExpand(w.apps[name].app, envs[n]) then CondSuccess else CondError)
  {
    hide AtRest, NodeInv, AllExpand, Loadable, HasCondition;
    RestMeans(w.apps[name].app, w.agents[n].node, envs[n]);
  }

  lemma EnvForAll(w: World, name: string, envs: map<string, Env>)
    requires name in w.apps && AllSettled(w, name, envs)
    ensures forall n :: n in w.agents ==> n in envs
  {
  }

  /**
   Once every agent has converged, the operator reports Success on a live, guarded application exactly if its
   attachments can be expanded on every node, and Error if they cannot be on some node.
   */
  lemma SettledVerdict(w: World, name: string, envs: map<string, Env>, nodes: seq<string>, views: seq<StateView>)
    requires name in w.apps && AllSettled(w, name, envs) && Current(w, name, nodes, views)
    requires !w.apps[name].app.deleting
    ensures var d := Decide(true, false, Some(nodes), Some(views));
            && d.SetStatus?
            && d.cond == if forall n :: n in w.agents ==> AllExpand(w.apps[name].app, envs[n]) then AppSuccess else AppError
  {
    hide AllSettled, AllExpand, Decide;
    EnvForAll(w, name, envs);
    Ranking(false, nodes, views);
    forall n | n in nodes ensures Covered(n, views) {
      SettledNode(w, name, envs, n);
    }
    forall v | v in views
      ensures v.node in w.agents && !IsPending(v.conditions) && (IsFailure(v.conditions) <==> !AllExpand(w.apps[name].app, envs[v.node]))
    {
      assert Shows(w, name, v) && v.node in w.agents;
      SettledNode(w, name, envs, v.node);
    }
    if n :| n in w.agents && !AllExpand(w.apps[name].app, envs[n]) {
      SettledNode(w, name, envs, n);
      var v :| v in views && v.node == n;
      assert IsFailure(v.conditions);
    } else {
      forall v | v in views ensures !IsFailure(v.conditions) {
        assert Shows(w, name, v);
      }
      Ranking(false, nodes, views);
      assert Decide(true, false, Some(nodes), Some(views)) == SetStatus(AppSuccess, []);
    }
  }

  /** Once every agent has converged on an application that is being deleted, the operator lets it go. */
  lemma TeardownCompletes(w: World, s: Step, now: nat, envs: map<string, Env>)
    requires s.OperatorReads? && Allowed(w, s) && AllSettled(w, s.name, envs)
    requires w.apps[s.name].app.deleting && w.apps[s.name].guarded
    ensures var write := OperatorWrites(s.name, now, true);
            Allowed(After(w, s), write) && s.name !in After(After(w, s), write).apps
  {
    hide AtRest, Loadable, NodeInv;
    Ranking(true, s.nodes, s.views);
    forall v | v in s.views ensures !v.finalizer {
      assert Shows(w, s.name, v);
    }
  }
}
