/** Where the agent falls short of an unguarded claim: when exactly, and what follows.  Inputs are in Witnesses. */
module Limits {
  import opened Types
  import opened Daemons
  import opened Application
  import opened ApplicationProofs
  import opened Operator
  import opened VisitProofs
  import opened Pass
  import opened PassProofs
  import opened Convergence
  import opened Evolution

  // ---- one application can block the others ----

  /**
   Exactly when a visit takes the error path, which writes the status whether or not it changed: the selector
   does not parse, or the application is live and selected and its program list has changed, or its programs are
   not all loaded and cannot be, because the bytecode or an entry is missing or the daemon refuses.
   */
  lemma ErrorPathIff(app: App, status: AppStatus, d: Daemon, env: Env, uuid: nat, now: nat)
    requires Valid(d) && AppInv(status.programs, d)
    ensures var selected := Selected(app.selector, env.labels);
            Visit(app, status, d, env, uuid, now).mustWrite <==>
              || selected.None?
              || (selected.value && !app.deleting &&
                  (|| !ProgramListMatches(app.programs, status.programs)
                   || (!IsLoaded(status.programs, d) &&
                       (app.name !in env.bytecode || !AllFound(app.programs, status.programs) || Fails(d)))))
  {
    hide ProgramListMatches, AppAccounted, IsLoaded, AllFound, GoodLoad;
    if ProgramListMatches(app.programs, status.programs) && !Fails(d) {
      LoadOk(app, status.programs, d);
    }
  }

  /** Some program is not loaded, and under the id in its record it never will be. */
  predicate Gone(ps: seq<ProgState>, d: Daemon) {
    exists i :: 0 <= i < |ps| &&
                (ps[i].programId.None? || (ps[i].programId.value !in d.programs && ps[i].programId.value < d.nextProgram))
  }

  /** The daemon refuses every call up to this position of its log. */
  ghost predicate Refuses(d: Daemon, bound: nat) {
    forall k :: |d.log| <= k < bound ==> k in d.faults
  }

  /** The visit takes the error path and will go on doing so, as long as the daemon's log stays within the bound. */
  ghost predicate Stuck(app: App, node: Node, env: Env, bound: nat) {
    && app.name in node.states
    && var selected, ps := Selected(app.selector, env.labels), Record(node, app.name);
    || selected.None?
    || (selected.value && !app.deleting &&
        (|| !ProgramListMatches(app.programs, ps)
         || (Gone(ps, node.daemon) &&
             (app.name !in env.bytecode || !AllFound(app.programs, ps) || Refuses(node.daemon, bound)))))
  }

  /** The node's labels are the same, and bytecode that could not be resolved still cannot. */
  predicate NoBetter(app: App, env: Env, env': Env) {
    env'.labels == env.labels && (app.name !in env.bytecode ==> app.name !in env'.bytecode)
  }

  lemma StuckWrites(app: App, node: Node, env: Env, env': Env, bound: nat, uuid: nat, now: nat)
    requires Stuck(app, node, env, bound) && NoBetter(app, env, env')
    requires |Visit(app, node.states[app.name].status, node.daemon, env', uuid, now).daemon.log| <= bound
    ensures var status := node.states[app.name].status;
            var v := Visit(app, status, node.daemon, env', uuid, now);
            v.mustWrite && !v.panicked && v.status.programs == status.programs
  {
    hide ProgramListMatches, AllFound, IsLoaded, AssignUpTo;
    var status, d := node.states[app.name].status, node.daemon;
    var l := ReconcileLoad(app, status, d, env');
    ProgsEvolve(app.programs, l.status.programs, l.daemon, env', uuid);
    assert |l.daemon.log| <= bound;
    if Gone(status.programs, d) {
      GoneIsNotLoaded(status.programs, d);
    }
  }

  lemma GoneIsNotLoaded(ps: seq<ProgState>, d: Daemon)
    requires Gone(ps, d)
    ensures !IsLoaded(ps, d)
  {
  }

  /** Nothing the daemon goes through meanwhile helps. */
  lemma StaysStuck(app: App, node: Node, node': Node, env: Env, bound: nat)
    requires Stuck(app, node, env, bound) && Evolves(node.daemon, node'.daemon)
    requires app.name in node'.states && Record(node', app.name) == Record(node, app.name)
    ensures Stuck(app, node', env, bound)
  {
    hide ProgramListMatches, AllFound;
    var ps, d, d' := Record(node, app.name), node.daemon, node'.daemon;
    if i :| 0 <= i < |ps| &&
            (ps[i].programId.None? || (ps[i].programId.value !in d.programs && ps[i].programId.value < d.nextProgram))
    {
      assert ps[i].programId.None? || ps[i].programId.value !in d'.programs;
    }
  }

  /** The applications behind i are as they were. */
  ghost predicate RestUntouched(apps: seq<App>, i: nat, node: Node, node': Node) {
    forall j :: i < j < |apps| ==>
      && (apps[j].name in node'.states <==> apps[j].name in node.states)
      && (apps[j].name in node.states ==> node'.states[apps[j].name] == node.states[apps[j].name])
  }

  lemma LogGrows(d: Daemon, d': Daemon)
    requires Evolves(d, d')
    ensures |d.log| <= |d'.log|
  {
  }

  lemma {:induction false} PassEvolves(apps: seq<App>, k: nat, node: Node, inp: Inputs)
    requires k <= |apps|
    ensures Evolves(node.daemon, PassFrom(apps, k, node, inp).node.daemon)
    ensures |node.daemon.log| <= |PassFrom(apps, k, node, inp).node.daemon.log|
    decreases |apps| - k
  {
    hide Visit, Evolves;
    EvolvesStart(node.daemon);
    if k < |apps| {
      if apps[k].name in node.states {
        var v := Visit(apps[k], node.states[apps[k].name].status, node.daemon, inp.env, node.uuid, inp.now);
        VisitEvolves(apps[k], node.states[apps[k].name].status, node.daemon, inp.env, node.uuid, inp.now);
        PassEvolves(apps, k + 1, node.(daemon := v.daemon, uuid := v.uuid), inp);
        EvolvesTransitive(node.daemon, v.daemon, PassFrom(apps, k + 1, node.(daemon := v.daemon, uuid := v.uuid), inp).node.daemon);
        LogGrows(node.daemon, v.daemon);
      } else {
        PassEvolves(apps, k + 1, node, inp);
      }
    }
  }

  lemma {:induction false} PassBlocked(apps: seq<App>, k: nat, i: nat, node: Node, env: Env, bound: nat, inp: Inputs)
    requires k <= i < |apps| && DistinctApps(apps) && Stuck(apps[i], node, env, bound) && NoBetter(apps[i], env, inp.env)
    requires |PassFrom(apps, k, node, inp).node.daemon.log| <= bound
    ensures var r := PassFrom(apps, k, node, inp);
            !r.stop.AllVisited? && Stuck(apps[i], r.node, env, bound) && RestUntouched(apps, i, node, r.node)
    decreases i - k
  {
    hide Visit, Stuck, Evolves, NoBetter;
    var r := PassFrom(apps, k, node, inp);
    StuckRecorded(apps[i], node, env, bound);
    if apps[k].name in node.states {
      var status := node.states[apps[k].name].status;
      var v := Visit(apps[k], status, node.daemon, inp.env, node.uuid, inp.now);
      var node' := node.(daemon := v.daemon, uuid := v.uuid);
      VisitEvolves(apps[k], status, node.daemon, inp.env, node.uuid, inp.now);
      if k == i {
        PassEvolves(apps, k + 1, node', inp);
        StuckWrites(apps[i], node, env, inp.env, bound, node.uuid, inp.now);
        StaysStuck(apps[i], node, r.node, env, bound);
      } else {
        StaysStuck(apps[i], node, node', env, bound);
        if v.panicked || v.mustWrite || v.status != status ||
           (apps[k].deleting && !IsFailure(status.conditions) && node.states[apps[k].name].finalizer) {
          StaysStuck(apps[i], node, r.node, env, bound);
        } else {
          PassBlocked(apps, k + 1, i, node', env, bound, inp);
        }
      }
    } else if apps[k].deleting {
      PassBlocked(apps, k + 1, i, node, env, bound, inp);
    } else {
      EvolvesStart(node.daemon);
      StaysStuck(apps[i], node, r.node, env, bound);
    }
  }

  lemma StuckRecorded(app: App, node: Node, env: Env, bound: nat)
    requires Stuck(app, node, env, bound)
    ensures app.name in node.states
  {
  }

  /**
   An application that keeps failing to load ends every pass: for however many passes, no application after it
   is created, updated or released.  That goes for a selector that does not parse, for a changed program list,
   and for programs that are not loaded and cannot be, because the bytecode never resolves, an entry is missing,
   or the daemon refuses every call.
   */
  lemma {:induction false} StuckBlocksTheRest(
    apps: seq<App>, i: nat, node: Node, env: Env, bound: nat, inputs: seq<Inputs>)
    requires i < |apps| && DistinctApps(apps) && Stuck(apps[i], node, env, bound)
    requires forall inp :: inp in inputs ==> NoBetter(apps[i], env, inp.env)
    requires |AfterPasses(apps, node, inputs).daemon.log| <= bound
    ensures var node' := AfterPasses(apps, node, inputs);
            Stuck(apps[i], node', env, bound) && RestUntouched(apps, i, node, node')
  {
    hide Stuck, PassFrom;
    if inputs != [] {
      var init, inp := inputs[..|inputs| - 1], inputs[|inputs| - 1];
      var node1 := AfterPasses(apps, node, init);
      assert inp in inputs && forall x :: x in init ==> x in inputs;
      PassEvolves(apps, 0, node1, inp);
      StuckBlocksTheRest(apps, i, node, env, bound, init);
      PassBlocked(apps, 0, i, node1, env, bound, inp);
    }
  }

  /**
   Creating a state object leaves a record without programs exactly if the wait for it fails, the first status
   write is refused, or the spec names a program twice with one type and function; such a record has no condition
   either, which the operator takes as failing, and it is stuck from then on, so a live application with programs blocks all applications behind it for good.
   */
  lemma EmptyRecordIff(app: App, node: Node, inp: Inputs, bound: nat)
    requires app.name !in node.states && inp.createOk && !app.deleting && app.programs != []
    requires Selected(app.selector, inp.env.labels) == Some(true)
    ensures var node' := CreateState(app, node, inp);
            && app.name in node'.states
            && (Record(node', app.name) == [] <==>
                  !inp.specWaitOk || !inp.statusWriteOk || Repeats(app.programs))
            && (Record(node', app.name) == [] ==> Stuck(app, node', inp.env, bound))
            && (Record(node', app.name) == [] ==>
                  var s := node'.states[app.name].status;
                  s.conditions == [] && s.updateCount == 0 && s.loadStatus == AppLoadUnset)
  {
    hide Repeats;
    InitialNoneIff(app.programs, |app.programs|);
    assert app.programs[..|app.programs|] == app.programs;
    if InitialPrograms(app.programs, |app.programs|).Some? {
      InitialFacts(app.programs, |app.programs|);
    }
    assert app.programs[0] in app.programs;
  }

  // ---- a changed program ----

  /** Loading or unloading leaves the identity of every entry. */
  lemma LoadKeepsEntries(app: App, status: AppStatus, d: Daemon, env: Env)
    requires Valid(d) && AppInv(status.programs, d) && !app.deleting && ReconcileLoad(app, status, d, env).ok
    ensures var s := ReconcileLoad(app, status, d, env).status;
            && |s.programs| == |status.programs|
            && (forall i :: 0 <= i < |s.programs| ==>
                  && s.programs[i].name == status.programs[i].name
                  && s.programs[i].kind == status.programs[i].kind
                  && s.programs[i].func == status.programs[i].func)
            && (s.loadStatus == AppLoadSuccess || s.loadStatus == NotSelected)
            && s.conditions == status.conditions
  {
    hide ProgramListMatches, AppAccounted, IsLoaded;
    LoadedOrNone(app, status, d, env);
    UnloadFacts(status.programs, |status.programs|, d);
  }

  /** Whether every program of the spec is found by the loop does not depend on loading or unloading. */
  lemma LoopFindsAll(app: App, status: AppStatus, d: Daemon, env: Env, uuid: nat)
    requires Valid(d) && AppInv(status.programs, d) && !app.deleting && ReconcileLoad(app, status, d, env).ok
    ensures var l := ReconcileLoad(app, status, d, env);
            var r := ReconcileProgs(app.programs, l.status.programs, l.daemon, env, uuid);
            && (!r.panicked ==> r.found == AllFound(app.programs, status.programs))
            && (l.status.loadStatus == AppLoadSuccess || l.status.loadStatus == NotSelected)
            && l.status.conditions == status.conditions
  {
    hide AppAccounted, Progress, ReconcileLoad;
    var l := ReconcileLoad(app, status, d, env);
    LoadProgress(app, status, d, env);
    ProgressInv(status.programs, d, l.status.programs, l.daemon);
    LoadKeepsEntries(app, status, d, env);
    forall s ensures FindProgState(s, l.status.programs) == FindProgState(s, status.programs) {
      UnloadedFind(s, status.programs, l.status.programs);
    }
    if !ReconcileProgs(app.programs, l.status.programs, l.daemon, env, uuid).panicked {
      ReconcileProgsFound(app.programs, l.status.programs, l.daemon, env, uuid);
    }
  }

  /**
   Exactly when a live application that got past loading, on a node it selects or not, ends up with a condition
   of empty type: when some program of its spec has no entry of its own type and function.  In all other cases
   the type is a real one.
   */
  lemma EmptyTypeIff(app: App, status: AppStatus, d: Daemon, env: Env, uuid: nat, now: nat)
    requires Valid(d) && AppInv(status.programs, d) && !app.deleting
    requires ReconcileLoad(app, status, d, env).ok && !Visit(app, status, d, env, uuid, now).panicked
    requires !HasCondition(status.conditions, CondProgramListChangedError)
    ensures var v := Visit(app, status, d, env, uuid, now);
            && (HasCondition(v.status.conditions, CondEmpty) <==> !AllFound(app.programs, status.programs))
            && (AllFound(app.programs, status.programs) ==>
                  HasCondition(v.status.conditions, CondSuccess) || HasCondition(v.status.conditions, CondError))
  {
    hide AppInv, AllFound, ReconcileLoad;
    LoopFindsAll(app, status, d, env, uuid);
  }

  /**
   Such a condition is stamped with the time of the visit, so the status changes whenever the clock does, and it
   is neither failing nor pending.
   */
  lemma ChangedProgramNeverRests(app: App, status: AppStatus, d: Daemon, env: Env, uuid: nat, now: nat)
    requires Valid(d) && AppInv(status.programs, d) && !app.deleting
    requires ReconcileLoad(app, status, d, env).ok && !Visit(app, status, d, env, uuid, now).panicked
    requires !AllFound(app.programs, status.programs) && !HasCondition(status.conditions, CondProgramListChangedError)
    ensures var v := Visit(app, status, d, env, uuid, now);
            && v.status.conditions == [Condition(CondEmpty, now)]
            && (status.conditions == [] || now != status.conditions[0].since ==> v.status != status)
            && !IsFailure(v.status.conditions) && !IsPending(v.status.conditions)
  {
    hide AppInv, AllFound, ReconcileLoad;
    LoopFindsAll(app, status, d, env, uuid);
  }

  /** The operator takes such a condition for success. */
  lemma EmptyTypeReadsAsSuccess(nodes: seq<string>, views: seq<StateView>)
    requires AllCovered(nodes, views)
    requires forall v :: v in views ==> |v.conditions| == 1 && v.conditions[0].kind == CondEmpty
    ensures Decide(true, false, Some(nodes), Some(views)) == SetStatus(AppSuccess, [])
  {
  }

  // ---- a list that is out of date ----

  /**
   Why an agent's list must be current when it is read: the operator releases a deleted application that has
   no state object yet, and an agent that then reads the old list twice creates the state and loads its
   programs.
   */
  lemma StaleListLoads(app: App, node: Node, env: Env, inp1: Inputs, inp2: Inputs, nodes: seq<string>)
    requires Ready([app], node, env) && Calm(env, inp1) && Calm(env, inp2)
    requires app.name !in node.states && !app.deleting && app.programs != []
    requires Selected(app.selector, env.labels) == Some(true)
    ensures Decide(true, true, Some(nodes), Some([])) == RemoveFinalizer
    ensures var node' := AfterPasses([app], node, [inp1, inp2]);
            app.name in node'.states && RecordedIds(Record(node', app.name)) != {}
  {
    hide NodeInv, AfterPasses, Weight, Ready, Calm, TotalWeight, RecordedIds, AtRest;
    var node' := AfterPasses([app], node, [inp1, inp2]);
    OneTotal(app, node, env);
    OneTotal(app, node', env);
    Converges([app], node, env, [inp1, inp2]);
    NeedsTwo(app, node, env);
    RestingIsLoaded(app, node', env);
  }

  lemma OneTotal(app: App, node: Node, env: Env)
    ensures TotalWeight([app], node, env) == Weight(app, node, env)
    ensures Ready([app], node, env) ==> Loadable(app, node, env)
  {
    assert [app][..0] == [] && [app][0] == app;
    assert TotalWeight([app], node, env) == TotalWeight([], node, env) + Weight(app, node, env);
  }

  lemma NeedsTwo(app: App, node: Node, env: Env)
    requires app.name !in node.states && !app.deleting
    ensures Weight(app, node, env) == 2
  {
  }

  /** A live application that is at rest on a node it selects has its programs recorded. */
  lemma RestingIsLoaded(app: App, node: Node, env: Env)
    requires Loadable(app, node, env) && Weight(app, node, env) == 0 && !app.deleting && app.programs != []
    requires Selected(app.selector, env.labels) == Some(true)
    ensures app.name in node.states && RecordedIds(Record(node, app.name)) != {}
  {
    var ps := Record(node, app.name);
    assert app.programs[0] in app.programs;
    var p :| p in ps && p.name == app.programs[0].name;
    var j :| 0 <= j < |ps| && ps[j] == p;
    RecordedAt(ps, j);
  }

  // ---- programs lost by the daemon ----

  /**
   Reloading after the daemon has lost some of an application's programs: each recorded program that is still
   loaded stays loaded and drops out of the record.  So a successful reload leaves nothing behind exactly when
   none of the recorded programs was loaded.
   */
  lemma ReloadForgets(app: App, status: AppStatus, d: Daemon, env: Env, uuid: nat, now: nat)
    requires Valid(d) && AppInv(status.programs, d) && !app.deleting
    requires Selected(app.selector, env.labels) == Some(true)
    requires !IsLoaded(status.programs, d) && ReconcileLoad(app, status, d, env).ok
    ensures var v := Visit(app, status, d, env, uuid, now);
            && (forall x :: x in RecordedIds(status.programs) && x in d.programs ==>
                  x in v.daemon.programs && x !in RecordedIds(v.status.programs))
            && (NoneLost(status.programs, d, v.status.programs, v.daemon) <==>
                  forall x :: x in RecordedIds(status.programs) ==> x !in d.programs)
  {
    hide AppAccounted, ProgramListMatches, ProgsStanding;
    var ps, l := status.programs, ReconcileLoad(app, status, d, env);
    var v := Visit(app, status, d, env, uuid, now);
    LoadFacts(app, ps, d, env);
    LoadProgress(app, status, d, env);
    LoadedOrNone(app, status, d, env);
    LoadedNeverPanics(app.programs, l.status.programs, l.daemon, env, uuid);
    ReconcileProgsStanding(app.programs, l.status.programs, l.daemon, env, uuid);
    var r := ReconcileProgs(app.programs, l.status.programs, l.daemon, env, uuid);
    StandingAccounted(l.status.programs, l.daemon, r.programs, r.daemon);
    SameKeys(l.status.programs, l.daemon, r.programs, r.daemon);
    AppInvBound(ps, d);
    forall x | x in RecordedIds(ps) ensures x !in RecordedIds(r.programs) {
      RecordedHas(l.status.programs, x);
    }
    forall x | x in RecordedIds(ps) && x in d.programs ensures x in v.daemon.programs {
      assert x in l.daemon.programs.Keys;
    }
    if forall x :: x in RecordedIds(ps) ==> x !in d.programs {
      VisitNoneLost(app, status, d, env, uuid, now);
    }
  }

  lemma SameKeys(ps: seq<ProgState>, d: Daemon, ps': seq<ProgState>, d': Daemon)
    requires ProgsStanding(ps, d, ps', d')
    ensures d'.programs.Keys == d.programs.Keys
  {
  }

  // ---- panics ----

  /** A pass can panic only on a live application that does not select the node. */
  lemma {:induction false} PassPanicsOnlyUnselected(apps: seq<App>, i: nat, node: Node, inp: Inputs)
    requires i <= |apps| && NodeInv(node) && PassFrom(apps, i, node, inp).stop.Panicked?
    ensures var at := PassFrom(apps, i, node, inp).stop.at;
            && at < |apps| && !apps[at].deleting && apps[at].name in node.states
            && Selected(apps[at].selector, inp.env.labels) == Some(false)
            && AnyAsks(apps[at].programs, Record(node, apps[at].name), inp.env)
    decreases |apps| - i
  {
    hide NodeInv, Progress, AppInv, Visit, AnyAsks;
    var app := apps[i];
    if app.name !in node.states {
      PassPanicsOnlyUnselected(apps, i + 1, node, inp);
    } else {
      var st := node.states[app.name];
      var v := Visit(app, st.status, node.daemon, inp.env, node.uuid, inp.now);
      NodeInvAt(node, app.name);
      VisitPanics(app, st.status, node.daemon, inp.env, node.uuid, inp.now);
      if !v.panicked {
        VisitProgress(app, st.status, node.daemon, inp.env, node.uuid, inp.now);
        PutProgress(node, app.name, st, v.daemon, v.uuid);
        assert node.states[app.name := st] == node.states;
        PassPanicsOnlyUnselected(apps, i + 1, node.(daemon := v.daemon, uuid := v.uuid), inp);
      }
    }
  }

  /** A visit that panics has unloaded every program of the application and records none of it. */
  lemma PanicUnloads(app: App, status: AppStatus, d: Daemon, env: Env, uuid: nat, now: nat)
    requires Valid(d) && AppInv(status.programs, d) && Visit(app, status, d, env, uuid, now).panicked
    ensures var v := Visit(app, status, d, env, uuid, now);
            v.status == status && v.daemon.programs.Keys == d.programs.Keys - RecordedIds(status.programs)
  {
    VisitPanics(app, status, d, env, uuid, now);
    PanicAccounted(status.programs, d, app.programs, env, uuid);
  }
}
