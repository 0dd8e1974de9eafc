/**
 Convergence of the cluster: in a run in which users rest, every agent that has listed and worked through the
 applications often enough has nothing left to do.
 */
module Rounds {
  import opened Types
  import opened Expansion
  import opened Application
  import opened Operator
  import opened Pass
  import opened PassProofs
  import opened Convergence
  import opened Protocol
  import opened ProtocolProofs
  import opened Settled

  // ---- the order of the list does not matter ----

  lemma {:induction false} TotalRemove(apps: seq<App>, i: nat, node: Node, env: Env)
    requires i < |apps|
    ensures TotalWeight(apps, node, env) == TotalWeight(apps[..i] + apps[i + 1..], node, env) + Weight(apps[i], node, env)
  {
    hide Weight;
    var last := |apps| - 1;
    if i == last {
      assert apps[..i] + apps[i + 1..] == apps[..last];
    } else {
      var init := apps[..last];
      TotalRemove(init, i, node, env);
      var removed := apps[..i] + apps[i + 1..];
      assert removed[..|removed| - 1] == init[..i] + init[i + 1..] && removed[|removed| - 1] == apps[last];
    }
  }

  lemma Dropped(left: seq<App>, app: App, right: seq<App>)
    ensures multiset(left + right) == multiset(left + [app] + right) - multiset{app}
  {
    assert multiset(left + [app] + right) == multiset(left) + multiset{app} + multiset(right);
  }

  /** Without its last element, and without one equal to it, permuted sequences are still permuted. */
  lemma RemoveOne(apps: seq<App>, apps': seq<App>) returns (i: nat)
    requires multiset(apps) == multiset(apps') && apps != []
    ensures i < |apps'| && apps'[i] == apps[|apps| - 1]
    ensures multiset(apps[..|apps| - 1]) == multiset(apps'[..i] + apps'[i + 1..])
  {
    var init, app := apps[..|apps| - 1], apps[|apps| - 1];
    assert apps == init + [app] + [] && init + [] == init;
    assert app in multiset(apps');
    i :| 0 <= i < |apps'| && apps'[i] == app;
    var left, right := apps'[..i], apps'[i + 1..];
    assert apps' == left + [app] + right;
    Dropped(init, app, []);
    Dropped(left, app, right);
  }

  lemma {:induction false} TotalPermuted(apps: seq<App>, apps': seq<App>, node: Node, env: Env)
    requires multiset(apps) == multiset(apps')
    ensures TotalWeight(apps, node, env) == TotalWeight(apps', node, env)
    decreases |apps|
  {
    hide Weight;
    if apps == [] {
      assert |apps'| == |multiset(apps')| == 0;
    } else {
      var i := RemoveOne(apps, apps');
      TotalPermuted(apps[..|apps| - 1], apps'[..i] + apps'[i + 1..], node, env);
      TotalRemove(apps', i, node, env);
    }
  }

  lemma SameMembers(apps: seq<App>, apps': seq<App>)
    requires multiset(apps) == multiset(apps')
    ensures forall a :: a in apps <==> a in apps'
  {
    forall a ensures a in apps <==> a in apps' {
      assert a in multiset(apps) <==> a in multiset(apps');
    }
  }

  lemma {:induction false} NoRepeats(s: seq<App>, x: App)
    requires DistinctApps(s)
    ensures multiset(s)[x] == if x in s then 1 else 0
  {
    if s != [] {
      var init := s[..|s| - 1];
      assert s == init + [s[|s| - 1]];
      NoRepeats(init, x);
    }
  }

  lemma ListingsAgree(apps: seq<App>, apps': seq<App>)
    requires DistinctApps(apps) && DistinctApps(apps') && forall a :: a in apps <==> a in apps'
    ensures multiset(apps) == multiset(apps')
  {
    forall x ensures multiset(apps)[x] == multiset(apps')[x] {
      NoRepeats(apps, x);
      NoRepeats(apps', x);
    }
  }

  lemma ReadyPermuted(apps: seq<App>, apps': seq<App>, node: Node, env: Env)
    requires Ready(apps, node, env) && DistinctApps(apps') && multiset(apps) == multiset(apps')
    ensures Ready(apps', node, env) && TotalWeight(apps', node, env) == TotalWeight(apps, node, env)
  {
    hide NodeInv, Loadable;
    TotalPermuted(apps, apps', node, env);
    SameMembers(apps, apps');
    forall j | 0 <= j < |apps'| ensures Loadable(apps'[j], node, env) {
      assert apps'[j] in apps;
      var k :| 0 <= k < |apps| && apps[k] == apps'[j];
    }
  }

  // ---- a list that has lost some applications ----

  /** The applications of `apps` that are not in `got`, in order. */
  function Others(apps: seq<App>, got: seq<App>): (r: seq<App>)
    ensures forall a :: a in r <==> a in apps && a !in got
  {
    if apps == [] then []
    else
      var init, a := apps[..|apps| - 1], apps[|apps| - 1];
      assert apps == init + [a];
      Others(init, got) + if a in got then [] else [a]
  }

  lemma {:induction false} OthersDistinct(apps: seq<App>, got: seq<App>)
    requires DistinctApps(apps)
    ensures DistinctApps(Others(apps, got))
  {
    if apps != [] {
      var init, a := apps[..|apps| - 1], apps[|apps| - 1];
      OthersDistinct(init, got);
      forall b | b in Others(init, got) ensures b.name != a.name {
        var k :| 0 <= k < |init| && init[k] == b;
        assert apps[k] == b;
      }
    }
  }

  /** A list within the applications, completed to all of them. */
  lemma Completed(apps: seq<App>, got: seq<App>)
    requires DistinctApps(apps) && DistinctApps(got) && forall a :: a in got ==> a in apps
    ensures DistinctApps(got + Others(apps, got)) && multiset(got + Others(apps, got)) == multiset(apps)
  {
    var rest := Others(apps, got);
    OthersDistinct(apps, got);
    forall a, b | a in got && b in rest ensures a.name != b.name {
      if a.name == b.name {
        SameName(apps, a, b);
      }
    }
    assert forall i :: 0 <= i < |got| ==> got[i] in got;
    assert forall i :: 0 <= i < |rest| ==> rest[i] in rest;
    ListingsAgree(got + rest, apps);
  }

  lemma SameName(apps: seq<App>, a: App, b: App)
    requires DistinctApps(apps) && a in apps && b in apps && a.name == b.name
    ensures a == b
  {
    var i :| 0 <= i < |apps| && apps[i] == a;
    var j :| 0 <= j < |apps| && apps[j] == b;
  }

  /** A pass that stops does not get to see what else there might be on the list. */
  lemma {:induction false} PassPrefix(got: seq<App>, rest: seq<App>, i: nat, node: Node, inp: Inputs)
    requires i <= |got| && !PassFrom(got, i, node, inp).stop.AllVisited?
    ensures PassFrom(got + rest, i, node, inp) == PassFrom(got, i, node, inp)
    decreases |got| - i
  {
    hide Visit;
    if i < |got| {
      var app := got[i];
      assert (got + rest)[i] == app;
      if app.name in node.states {
        var v := Visit(app, node.states[app.name].status, node.daemon, inp.env, node.uuid, inp.now);
        var node' := node.(daemon := v.daemon, uuid := v.uuid);
        if !v.panicked && !v.mustWrite && v.status == node.states[app.name].status &&
           !(app.deleting && !IsFailure(node.states[app.name].status.conditions) && node.states[app.name].finalizer)
        {
          PassPrefix(got, rest, i + 1, node', inp);
        }
      } else if app.deleting {
        PassPrefix(got, rest, i + 1, node, inp);
      }
    }
  }

  lemma ReadyWithin(apps: seq<App>, got: seq<App>, node: Node, env: Env)
    requires Ready(apps, node, env) && DistinctApps(got) && forall a :: a in got ==> a in apps
    ensures Ready(got, node, env)
  {
    hide NodeInv, Loadable;
    forall j | 0 <= j < |got| ensures Loadable(got[j], node, env) {
      assert got[j] in apps;
      var k :| 0 <= k < |apps| && apps[k] == got[j];
    }
  }

  /** Nothing is left to do for the applications of a list. */
  ghost predicate NothingLeft(got: seq<App>, node: Node, env: Env) {
    forall a :: a in got ==> Weight(a, node, env) == 0
  }

  lemma NothingLeftIff(got: seq<App>, node: Node, env: Env)
    ensures NothingLeft(got, node, env) <==> TotalWeight(got, node, env) == 0
  {
    hide Weight, TotalWeight;
    TotalZero(got, node, env);
    forall a | a in got ensures exists j :: 0 <= j < |got| && got[j] == a {
    }
  }

  lemma PartPositive(got: seq<App>, rest: seq<App>, node: Node, env: Env)
    requires TotalWeight(got, node, env) > 0
    ensures TotalWeight(got + rest, node, env) > 0
  {
    hide Weight, TotalWeight;
    NothingLeftIff(got, node, env);
    NothingLeftIff(got + rest, node, env);
  }

  lemma PassWithinNow(apps: seq<App>, got: seq<App>, node: Node, inp: Inputs)
    requires Ready(apps, node, inp.env) && DistinctApps(apps) && DistinctApps(got) && forall a :: a in got ==> a in apps
    requires inp.createOk && inp.specWaitOk && inp.statusWriteOk && inp.finalizerOk
    ensures var node' := OnePass(got, node, inp).node;
            && Ready(apps, node', inp.env) && NoneRises(apps, node, inp.env, node', inp.env)
            && (NothingLeft(got, node, inp.env) || TotalWeight(apps, node', inp.env) + 1 == TotalWeight(apps, node, inp.env))
  {
    hide Ready, TotalWeight, Weight, PassFrom, NothingLeft, DistinctApps;
    var all, r := got + Others(apps, got), PassFrom(got, 0, node, inp);
    ReadyWithin(apps, got, node, inp.env);
    PassLowers(got, 0, node, inp);
    NothingLeftIff(got, node, inp.env);
    if TotalWeight(got, node, inp.env) == 0 {
      UuidIrrelevant(apps, node, r.node.uuid, inp.env);
    } else {
      Completed(apps, got);
      ReadyPermuted(apps, all, node, inp.env);
      PartPositive(got, Others(apps, got), node, inp.env);
      PassPrefix(got, Others(apps, got), 0, node, inp);
      PassLowers(all, 0, node, inp);
      ReadyPermuted(all, apps, r.node, inp.env);
      SameMembers(apps, all);
    }
  }

  /**
   A calm pass over a list within the applications raises no application's weight, and lowers their total by one
   unless there is nothing left to do on the list.
   */
  lemma PassWithin(apps: seq<App>, got: seq<App>, node: Node, env: Env, inp: Inputs)
    requires Ready(apps, node, env) && Calm(env, inp) && DistinctApps(apps) && DistinctApps(got)
    requires forall a :: a in got ==> a in apps
    ensures var node' := OnePass(got, node, inp).node;
            && Ready(apps, node', env) && NoneRises(apps, node, env, node', env)
            && (NothingLeft(got, node, env) || TotalWeight(apps, node', env) + 1 == TotalWeight(apps, node, env))
  {
    hide Ready, TotalWeight, Weight, OnePass, DistinctApps;
    ReorderedReady(apps, node, env, inp.env);
    PassWithinNow(apps, got, node, inp);
    assert Reordered(inp.env, env);
    ReorderedReady(apps, OnePass(got, node, inp).node, inp.env, env);
  }

  // ---- runs without users ----

  /** `apps` lists the stored applications. */
  ghost predicate Listing(w: World, apps: seq<App>) {
    && DistinctApps(apps)
    && forall a :: a in apps <==> a.name in w.apps && w.apps[a.name].app == a
  }

  /**
   Users rest and nothing goes wrong: agents list and pass with every API call and wait succeeding, the operator
   reads and writes, and objects without an owner are collected.
   */
  ghost predicate Undisturbed(envs: map<string, Env>, s: Step) {
    match s
    case AgentLists(_, _) => true
    case AgentPasses(at, inp) => at in envs && Calm(envs[at], inp)
    case OperatorReads(_, _, _) => true
    case OperatorWrites(_, _, _) => true
    case Collect(_, _) => true
    case _ => false
  }

  /** Agent n has listed the applications since its last pass. */
  predicate Listed(steps: seq<Step>, n: string) {
    steps != [] &&
    var s := steps[|steps| - 1];
    if s.AgentLists? && s.at == n then true
    else if s.AgentPasses? && s.at == n then false
    else Listed(steps[..|steps| - 1], n)
  }

  /** How many times agent n has listed the applications and then worked through them. */
  function RoundsOf(steps: seq<Step>, n: string): nat {
    if steps == [] then 0
    else
      var init, s := steps[..|steps| - 1], steps[|steps| - 1];
      RoundsOf(init, n) + if s.AgentPasses? && s.at == n && Listed(init, n) then 1 else 0
  }

  /**
   Where the run starts: no pass is under way, every agent can load what is asked of it, and the protocol is as
   every run from the initial world keeps it.
   */
  ghost predicate Resting(w: World, apps: seq<App>, envs: map<string, Env>) {
    && Listing(w, apps) && WellNamed(w)
    && (forall a :: a in w.apps && Releasing(w, a) ==> w.apps[a].app.deleting)
    && forall n :: n in w.agents ==>
         && n in envs && w.agents[n].listed == [] && Ready(apps, w.agents[n].node, envs[n])
         && forall a :: Safe(w, n, a)
  }

  /** A world that a run reaches rests as soon as no pass is under way and every agent can load what is asked of it. */
  lemma RestsWhenReached(w0: World, before: seq<Step>, apps: seq<App>, envs: map<string, Env>)
    requires Initial(w0) && Run(w0, before) && w0.agents != map[]
    requires var w := AfterRun(w0, before);
             && Listing(w, apps)
             && forall n :: n in w.agents ==> n in envs && w.agents[n].listed == [] && Ready(apps, w.agents[n].node, envs[n])
    ensures Resting(AfterRun(w0, before), apps, envs)
  {
    hide Run, AfterRun, Initial, Ready, Listing, Safe;
    var w := AfterRun(w0, before);
    AgentsStay(w0, before);
    forall n, a | n in w.agents ensures Safe(w, n, a) {
      assert n in w0.agents.Keys;
      RunSafe(w0, before, n, a);
    }
    var n :| n in w0.agents;
    assert n in w.agents.Keys;
    RunSafe(w0, before, n, "");
    forall a | a in w.apps && Releasing(w, a) ensures w.apps[a].app.deleting {
      assert Safe(w, n, a);
      ReleasingDeleted(w, n, a);
    }
  }

  lemma ReleasingDeleted(w: World, n: string, a: string)
    requires n in w.agents && Safe(w, n, a) && a in w.apps && Releasing(w, a)
    ensures w.apps[a].app.deleting
  {
    hide Releasing;
  }

  lemma {:induction false} AgentsStay(w: World, steps: seq<Step>)
    requires Run(w, steps)
    ensures AfterRun(w, steps).agents.Keys == w.agents.Keys
  {
    hide Allowed, After;
    if steps != [] {
      var init := steps[..|steps| - 1];
      AgentsStay(w, init);
      SameAgents(AfterRun(w, init), steps[|steps| - 1]);
    }
  }

  /** What is still stored is as it was; what is gone was being deleted, and so is what is about to go. */
  ghost predicate Shrunk(w: World, w': World) {
    && w'.apps.Keys <= w.apps.Keys && w'.agents.Keys == w.agents.Keys
    && (forall a :: a in w'.apps ==> w'.apps[a].app == w.apps[a].app)
    && (forall a :: a in w.apps && a !in w'.apps ==> w.apps[a].app.deleting)
    && (forall a :: a in w'.apps && Releasing(w', a) ==> w.apps[a].app.deleting)
  }

  lemma StepShrinks(w: World, w1: World, s: Step, envs: map<string, Env>)
    requires Shrunk(w, w1) && Undisturbed(envs, s) && Allowed(w1, s)
    ensures Shrunk(w, After(w1, s))
  {
    hide After, Allowed, Shrunk;
    match s
    case OperatorReads(_, _, _) => ReadShrinks(w, w1, s);
    case OperatorWrites(_, _, _) => WriteShrinks(w, w1, s);
    case _ => AgentShrinks(w, w1, s);
  }

  lemma AgentShrinks(w: World, w1: World, s: Step)
    requires Shrunk(w, w1) && (s.AgentLists? || s.AgentPasses? || s.Collect?) && Allowed(w1, s)
    ensures Shrunk(w, After(w1, s))
  {
    hide OnePass, Decide;
    assert After(w1, s).agents.Keys == w1.agents.Keys;
  }

  lemma ReadShrinks(w: World, w1: World, s: Step)
    requires Shrunk(w, w1) && s.OperatorReads? && Allowed(w1, s)
    ensures Shrunk(w, After(w1, s))
  {
    var stored := w1.apps[s.name];
    if Releasing(After(w1, s), s.name) {
      Ranking(stored.app.deleting, s.nodes, s.views);
    }
  }

  /** The operator's write changes no application's spec and lets go only what it was releasing. */
  lemma WriteEffect(w1: World, s: Step)
    requires s.OperatorWrites? && Allowed(w1, s)
    ensures var w2 := After(w1, s);
            && w2.agents == w1.agents && w2.readings == w1.readings - {s.name}
            && (forall a :: a in w2.apps ==> a in w1.apps && w2.apps[a].app == w1.apps[a].app)
            && (forall a :: a in w1.apps && a !in w2.apps ==> a == s.name && Releasing(w1, a))
  {
    hide Decide;
  }

  lemma WriteShrinks(w: World, w1: World, s: Step)
    requires Shrunk(w, w1) && s.OperatorWrites? && Allowed(w1, s)
    ensures Shrunk(w, After(w1, s))
  {
    hide DecisionOf, After, Allowed;
    WriteEffect(w1, s);
    forall a | a in After(w1, s).apps && Releasing(After(w1, s), a) ensures Releasing(w1, a) {
    }
    assert After(w1, s).apps.Keys <= w1.apps.Keys;
  }

  lemma {:induction false} AppsShrink(w: World, apps: seq<App>, envs: map<string, Env>, steps: seq<Step>)
    requires Resting(w, apps, envs) && Run(w, steps) && forall s :: s in steps ==> Undisturbed(envs, s)
    ensures Shrunk(w, AfterRun(w, steps))
  {
    hide Undisturbed, Allowed, After, Resting, Shrunk;
    if steps == [] {
      StartShrunk(w, apps, envs);
    } else {
      var init, s := steps[..|steps| - 1], steps[|steps| - 1];
      assert s in steps && forall x :: x in init ==> x in steps;
      AppsShrink(w, apps, envs, init);
      StepShrinks(w, AfterRun(w, init), s, envs);
    }
  }

  lemma StartShrunk(w: World, apps: seq<App>, envs: map<string, Env>)
    requires Resting(w, apps, envs)
    ensures Shrunk(w, w)
  {
  }

  /** Nothing is left to do for what is still stored. */
  ghost predicate StoredDone(w: World, node: Node, env: Env) {
    forall a :: a in w.apps ==> Weight(w.apps[a].app, node, env) == 0
  }

  /**
   What agent n is about to work on, and how much there is left to do: `left` bounds the total, unless nothing is
   left to do for what is still stored.
   */
  ghost predicate Progressing(w: World, apps: seq<App>, env: Env, n: string, listed: bool, left: nat)
    requires n in w.agents
  {
    var got, node := w.agents[n].listed, w.agents[n].node;
    && (if listed then
          && DistinctApps(got) && (forall a :: a in got ==> a in apps)
          && (forall a :: a in w.apps ==> w.apps[a].app in got)
        else got == [])
    && Ready(apps, node, env)
    && (TotalWeight(apps, node, env) <= left || StoredDone(w, node, env))
  }

  lemma ListProgresses(w: World, w1: World, s: Step, apps: seq<App>, env: Env, n: string, listed: bool, left: nat)
    requires s.AgentLists? && s.at == n && Allowed(w1, s) && Shrunk(w, w1) && Listing(w, apps) && WellNamed(w)
    requires n in w1.agents && Progressing(w1, apps, env, n, listed, left)
    ensures n in After(w1, s).agents && Progressing(After(w1, s), apps, env, n, true, left)
  {
    hide Ready, TotalWeight, Weight, Releasing;
    var got := After(w1, s).agents[n].listed;
    forall i | 0 <= i < |s.order|
      ensures s.order[i] in w1.apps && got[i] == w1.apps[s.order[i]].app && got[i].name == s.order[i] && got[i] in apps
    {
      assert s.order[i] in s.order;
      assert s.order[i] in w.apps.Keys;
    }
    forall a | a in w1.apps ensures w1.apps[a].app in got {
      var i :| 0 <= i < |s.order| && s.order[i] == a;
      assert got[i] == w1.apps[a].app;
    }
  }

  lemma StoredWithin(w: World, w1: World, apps: seq<App>)
    requires Shrunk(w, w1) && Listing(w, apps) && WellNamed(w)
    ensures forall a :: a in w1.apps ==> w1.apps[a].app in apps
  {
    forall a | a in w1.apps ensures w1.apps[a].app in apps {
      assert a in w.apps.Keys;
    }
  }

  /** A pass over a current list does one piece of what is left; a pass over nothing does nothing. */
  lemma PassProgresses(w: World, w1: World, s: Step, apps: seq<App>, env: Env, n: string, listed: bool, left: nat)
    requires s.AgentPasses? && s.at == n && Allowed(w1, s) && Calm(env, s.inp)
    requires Shrunk(w, w1) && Listing(w, apps) && WellNamed(w)
    requires n in w1.agents && Progressing(w1, apps, env, n, listed, left)
    ensures n in After(w1, s).agents
    ensures Progressing(After(w1, s), apps, env, n, false, if listed && left > 0 then left - 1 else left)
  {
    hide Ready, TotalWeight, Weight, PassFrom, Shrunk, Calm;
    var agent := w1.agents[n];
    StoredWithin(w, w1, apps);
    if listed {
      PassWithin(apps, agent.listed, agent.node, env, s.inp);
    } else {
      EmptyPass(agent.node, s.inp);
    }
  }

  lemma EmptyPass(node: Node, inp: Inputs)
    ensures PassFrom([], 0, node, inp) == Result(node, AllVisited)
  {
  }

  /** Collecting a state object raises no weight: its application is gone, so it was being deleted. */
  lemma CollectProgresses(w: World, w1: World, s: Step, apps: seq<App>, env: Env, n: string, listed: bool, left: nat)
    requires s.Collect? && s.at == n && Allowed(w1, s) && Shrunk(w, w1) && Listing(w, apps) && WellNamed(w)
    requires Safe(w1, n, s.name)
    requires n in w1.agents && Progressing(w1, apps, env, n, listed, left)
    ensures n in After(w1, s).agents && Progressing(After(w1, s), apps, env, n, listed, left)
  {
    hide NodeInv, TotalWeight, Weight, Loadable, Releasing;
    var node := w1.agents[n].node;
    var node' := node.(states := node.states - {s.name});
    CollectInv(node, s.name, false);
    StoredWithin(w, w1, apps);
    forall a | a in apps ensures Weight(a, node', env) <= Weight(a, node, env) && Loadable(a, node', env) {
      CollectedWeight(apps, a, node, s.name, env);
    }
    TotalFalls(apps, node, env, node', env);
  }

  lemma CollectedWeight(apps: seq<App>, a: App, node: Node, name: string, env: Env)
    requires Ready(apps, node, env) && a in apps && (a.name == name ==> a.deleting)
    ensures var node' := node.(states := node.states - {name});
            Weight(a, node', env) <= Weight(a, node, env) && Loadable(a, node', env)
  {
    var k :| 0 <= k < |apps| && apps[k] == a;
    assert Loadable(apps[k], node, env);
  }

  lemma {:induction false} TotalFalls(apps: seq<App>, node: Node, env: Env, node': Node, env': Env)
    requires forall a :: a in apps ==> Weight(a, node', env') <= Weight(a, node, env)
    ensures TotalWeight(apps, node', env') <= TotalWeight(apps, node, env)
  {
    hide Weight;
    if apps != [] {
      TotalFalls(apps[..|apps| - 1], node, env, node', env');
    }
  }

  /** Steps of the others and of the operator leave agent n and what it has left to do alone. */
  lemma OtherProgresses(w1: World, s: Step, envs: map<string, Env>, apps: seq<App>, env: Env, n: string, listed: bool, left: nat)
    requires Undisturbed(envs, s) && Allowed(w1, s) && n in w1.agents && Progressing(w1, apps, env, n, listed, left)
    requires (s.AgentLists? || s.AgentPasses? || s.Collect?) ==> s.at != n
    ensures n in After(w1, s).agents && Progressing(After(w1, s), apps, env, n, listed, left)
  {
    hide Ready, TotalWeight, Weight, OnePass, Decide;
  }

  lemma StartProgressing(w: World, apps: seq<App>, envs: map<string, Env>, n: string)
    requires Resting(w, apps, envs) && n in w.agents
    ensures Progressing(w, apps, envs[n], n, false, TotalWeight(apps, w.agents[n].node, envs[n]))
    ensures n in envs && Listing(w, apps) && WellNamed(w) && forall a :: Safe(w, n, a)
  {
  }

  /**
   However the steps interleave, each round of an agent takes one piece off what it has left to do, until nothing
   is left to do for what is still stored.
   */
  lemma {:induction false} RoundsLower(w: World, apps: seq<App>, envs: map<string, Env>, steps: seq<Step>, n: string)
    requires Resting(w, apps, envs) && Run(w, steps) && (forall s :: s in steps ==> Undisturbed(envs, s)) && n in w.agents
    ensures var w' := AfterRun(w, steps);
            var total, done := TotalWeight(apps, w.agents[n].node, envs[n]), RoundsOf(steps, n);
            && n in w'.agents
            && Progressing(w', apps, envs[n], n, Listed(steps, n), if done <= total then total - done else 0)
  {
    hide Progressing, Resting, Shrunk, Allowed, After, Undisturbed, TotalWeight, Listing, WellNamed, Safe;
    StartProgressing(w, apps, envs, n);
    if steps != [] {
      var init, s := steps[..|steps| - 1], steps[|steps| - 1];
      var w1 := AfterRun(w, init);
      assert s in steps && forall x :: x in init ==> x in steps;
      RoundsLower(w, apps, envs, init, n);
      AppsShrink(w, apps, envs, init);
      var total, done := TotalWeight(apps, w.agents[n].node, envs[n]), RoundsOf(init, n);
      var left := if done <= total then total - done else 0;
      if s.AgentLists? && s.at == n {
        ListProgresses(w, w1, s, apps, envs[n], n, Listed(init, n), left);
      } else if s.AgentPasses? && s.at == n {
        CalmStep(envs, s);
        PassProgresses(w, w1, s, apps, envs[n], n, Listed(init, n), left);
      } else if s.Collect? && s.at == n {
        SafeAfter(w, init, n, s.name);
        CollectProgresses(w, w1, s, apps, envs[n], n, Listed(init, n), left);
      } else {
        OtherProgresses(w1, s, envs, apps, envs[n], n, Listed(init, n), left);
      }
    }
  }

  lemma CalmStep(envs: map<string, Env>, s: Step)
    requires Undisturbed(envs, s) && s.AgentPasses?
    ensures s.at in envs && Calm(envs[s.at], s.inp)
  {
  }

  /**
   Convergence of the cluster: once every agent has done two rounds per application, in whatever interleaving with
   the other agents, the operator and the collection of objects, every agent has nothing left to do for any
   application that is still stored; those that are not were being deleted.
   */
  lemma ClusterConverges(w: World, apps: seq<App>, envs: map<string, Env>, steps: seq<Step>, name: string)
    requires Resting(w, apps, envs) && Run(w, steps) && forall s :: s in steps ==> Undisturbed(envs, s)
    requires forall n :: n in w.agents ==> RoundsOf(steps, n) >= 2 * |apps|
    requires name in w.apps
    ensures var w' := AfterRun(w, steps);
            if name in w'.apps then w'.apps[name].app == w.apps[name].app && AllSettled(w', name, envs)
            else w.apps[name].app.deleting
  {
    hide Run, AfterRun, Undisturbed, RoundsOf, Loadable, NodeInv, Weight;
    var w' := AfterRun(w, steps);
    AppsShrink(w, apps, envs, steps);
    if name in w'.apps {
      var app := w.apps[name].app;
      forall n | n in w'.agents
        ensures n in envs && NodeInv(w'.agents[n].node) && Loadable(app, w'.agents[n].node, envs[n]) &&
                Weight(app, w'.agents[n].node, envs[n]) == 0
      {
        assert n in w.agents.Keys;
        RoundsLower(w, apps, envs, steps, n);
        NothingLeftIff(apps, w'.agents[n].node, envs[n]);
        var k :| 0 <= k < |apps| && apps[k] == app;
      }
    }
  }
}
