/**
 Why passes converge: a weight of at most two per application that each pass lowers by exactly one until a
 pass visits every application and changes nothing.
 */
module Convergence {
  import opened Types
  import opened Daemons
  import opened Expansion
  import opened Programs
  import opened Application
  import opened ApplicationProofs
  import opened VisitProofs
  import opened Pass
  import opened PassProofs
  import opened Unselected

  // ---- applications at rest ----

  /** The record of a live application is what its spec and the daemon call for. */
  ghost predicate LiveAtRest(app: App, status: AppStatus, d: Daemon, env: Env) {
    && status.loadStatus == AppLoadSuccess
    && IsLoaded(status.programs, d)
    && (forall s :: s in app.programs && FindProgState(s, status.programs).Some? ==>
          Quiescent(s, status.programs[FindProgState(s, status.programs).value], d, env))
    && HasCondition(status.conditions, CheckProgramStatus(status))
  }

  /** The record of an application that is being deleted, on a node it selects or not, says that it has been unloaded. */
  predicate Unloaded(status: AppStatus, selected: bool) {
    && status.loadStatus == (if selected then AppUnLoadSuccess else NotSelected)
    && (forall i :: 0 <= i < |status.programs| ==>
          status.programs[i].programId.None? && status.programs[i].linkStatus == ProgAttachSuccess)
    && HasCondition(status.conditions, if selected then CondUnloaded else CondSuccess)
  }

  ghost predicate AtRest(app: App, status: AppStatus, d: Daemon, env: Env) {
    if app.deleting then Unloaded(status, Selected(app.selector, env.labels) == Some(true))
    else if Selected(app.selector, env.labels) == Some(true) then LiveAtRest(app, status, d, env)
    else UnselectedAtRest(app, status, d, env)
  }

  /**
   The selector can be evaluated, every program of a live application has its entry, and on a node that it selects
   its programs can be loaded while on another it asks for no link.
   */
  predicate Loadable(app: App, node: Node, env: Env) {
    && Selected(app.selector, env.labels).Some?
    && (!app.deleting ==>
          && DistinctSpecs(app.programs)
          && (app.name in node.states ==> AllFound(app.programs, Record(node, app.name)))
          && (if Selected(app.selector, env.labels) == Some(true) then
                && app.name in env.bytecode
                && (app.name in node.states ==> ProgramListMatches(app.programs, Record(node, app.name)))
              else AsksNothing(app, env)))
  }

  lemma NeverFails(d: Daemon)
    requires d.faults == {}
    ensures !Fails(d)
  {
  }

  lemma LoadableLoads(app: App, status: AppStatus, d: Daemon, env: Env)
    requires Valid(d) && AppInv(status.programs, d) && d.faults == {}
    requires Selected(app.selector, env.labels) == Some(true) && !app.deleting && app.name in env.bytecode
    requires ProgramListMatches(app.programs, status.programs) && AllFound(app.programs, status.programs)
    ensures ReconcileLoad(app, status, d, env).ok
  {
    hide ProgramListMatches, AppAccounted;
    if !IsLoaded(status.programs, d) {
      NeverFails(d);
      LoadOk(app, status.programs, d);
    }
  }

  /** What a visit to a live, loadable application leaves behind when no call fails. */
  lemma LiveVisit(app: App, status: AppStatus, d: Daemon, env: Env, uuid: nat, now: nat)
    requires Valid(d) && AppInv(status.programs, d) && d.faults == {}
    requires Selected(app.selector, env.labels) == Some(true) && !app.deleting && app.name in env.bytecode
    requires ProgramListMatches(app.programs, status.programs) && AllFound(app.programs, status.programs)
    ensures var v := Visit(app, status, d, env, uuid, now);
            && !v.panicked && !v.mustWrite && v.daemon.faults == {}
            && LiveAtRest(app, v.status, v.daemon, env)
            && ProgramListMatches(app.programs, v.status.programs) && AllFound(app.programs, v.status.programs)
  {
    hide ProgramListMatches, AppAccounted, GoodLoad, Quiescent;
    LoadableLoads(app, status, d, env);
    LoadedOrNone(app, status, d, env);
    LoopFacts(app, status, d, env, uuid);
    LoopFound(app, status, d, env, uuid);
    var l := ReconcileLoad(app, status, d, env);
    var r := ReconcileProgs(app.programs, l.status.programs, l.daemon, env, uuid);
    NamesFound(app, status, d, env);
    var v := Visit(app, status, d, env, uuid, now);
    forall s | s in app.programs && FindProgState(s, r.programs).Some?
      ensures Quiescent(s, r.programs[FindProgState(s, r.programs).value], r.daemon, env)
    {
      assert Settles(s, r.programs, r.daemon, env);
    }
  }

  lemma NamesFound(app: App, status: AppStatus, d: Daemon, env: Env)
    requires Valid(d) && AppInv(status.programs, d) && !app.deleting
    requires Selected(app.selector, env.labels) == Some(true) && ReconcileLoad(app, status, d, env).ok
    ensures AllFound(app.programs, ReconcileLoad(app, status, d, env).status.programs) ==
            AllFound(app.programs, status.programs)
  {
    hide ProgramListMatches, AppAccounted;
    LoadedOrNone(app, status, d, env);
    forall s ensures FindProgState(s, ReconcileLoad(app, status, d, env).status.programs) == FindProgState(s, status.programs) {
      UnloadedFind(s, status.programs, ReconcileLoad(app, status, d, env).status.programs);
    }
  }

  lemma LiveRestNoop(app: App, status: AppStatus, d: Daemon, env: Env, uuid: nat, now: nat)
    requires Selected(app.selector, env.labels) == Some(true) && !app.deleting
    requires ProgramListMatches(app.programs, status.programs) && AllFound(app.programs, status.programs)
    requires LiveAtRest(app, status, d, env)
    ensures var v := Visit(app, status, d, env, uuid, now);
            v.status == status && v.daemon == d && !v.mustWrite && !v.panicked
  {
    hide ProgramListMatches, Quiescent;
    ReconcileProgsNoop(app.programs, status.programs, d, env, uuid);
  }

  lemma SameHoldingsRest(app: App, status: AppStatus, d: Daemon, d': Daemon, env: Env)
    requires SameHoldings(d, d') && LiveAtRest(app, status, d', env)
    ensures LiveAtRest(app, status, d, env)
  {
  }

  /**
   A visit to a loadable application changes its status exactly when the application is not at
   rest; and after the visit it is at rest.
   */
  lemma ChangesUnlessAtRest(app: App, node: Node, env: Env, uuid: nat, now: nat)
    requires NodeInv(node) && app.name in node.states && Loadable(app, node, env) && node.daemon.faults == {}
    ensures var status := node.states[app.name].status;
            var v := Visit(app, status, node.daemon, env, uuid, now);
            && !v.panicked && !v.mustWrite && v.daemon.faults == {}
            && (v.status == status <==> AtRest(app, status, node.daemon, env))
            && (v.status == status ==> v.daemon == node.daemon)
            && AtRest(app, v.status, v.daemon, env)
  {
    hide ProgramListMatches, AppAccounted, LiveAtRest, UnselectedAtRest, AllFound, AsksNothing;
    var status, d := node.states[app.name].status, node.daemon;
    var v := Visit(app, status, d, env, uuid, now);
    NodeInvAt(node, app.name);
    if app.deleting {
      UnloadFacts(status.programs, |status.programs|, d);
      if AtRest(app, status, d, env) {
        UnloadedAgain(status.programs, |status.programs|, d);
      }
      if v.status == status {
        UnloadNone(status.programs, |status.programs|, d);
      }
    } else if Selected(app.selector, env.labels) == Some(false) {
      UnselectedVisit(app, status, d, env, uuid, now);
      if v.status == status {
        SameEntriesRest(app, status, d, v.daemon, env);
        UnloadNone(status.programs, |status.programs|, d);
      }
      if UnselectedAtRest(app, status, d, env) {
        UnselectedNoop(app, status, d, env, uuid, now);
      }
    } else {
      LiveVisit(app, status, d, env, uuid, now);
      if v.status == status {
        UnchangedVisit(app, status, d, env, uuid, now);
        SameHoldingsRest(app, status, d, v.daemon, env);
      }
      if LiveAtRest(app, status, d, env) {
        LiveRestNoop(app, status, d, env, uuid, now);
      }
    }
  }

  /** Without program ids, the daemon does not matter. */
  lemma SameEntriesRest(app: App, status: AppStatus, d: Daemon, d': Daemon, env: Env)
    requires UnselectedAtRest(app, status, d', env)
    ensures UnselectedAtRest(app, status, d, env)
  {
  }

  /** Other applications' programs do not matter, nor does the order of the interface map. */
  lemma RestFrame(app: App, status: AppStatus, d: Daemon, d': Daemon, ids: set<nat>, env: Env, env': Env)
    requires Valid(d) && AppInv(status.programs, d) && Frame(d, d', ids) && RecordedIds(status.programs) !! ids
    requires Reordered(env, env')
    ensures AtRest(app, status, d, env) <==> AtRest(app, status, d', env')
  {
    hide Quiescent, Frame, AppAccounted;
    var ps := status.programs;
    forall i | 0 <= i < |ps| && ps[i].programId.Some?
      ensures ps[i].programId.value in d'.programs <==> ps[i].programId.value in d.programs
    {
      HoldsSame(ps, i, d, d', ids);
    }
    forall s, i | 0 <= i < |ps| ensures Quiescent(s, ps[i], d, env) <==> Quiescent(s, ps[i], d', env') {
      HoldsSame(ps, i, d, d', ids);
      QuiescentSame(s, ps[i], d, d', env, env');
    }
  }

  lemma HoldsSame(ps: seq<ProgState>, i: nat, d: Daemon, d': Daemon, ids: set<nat>)
    requires Valid(d) && AppInv(ps, d) && Frame(d, d', ids) && RecordedIds(ps) !! ids && i < |ps|
    ensures ps[i].programId.Some? ==>
              var p := ps[i].programId.value;
              && (p in d'.programs <==> p in d.programs)
              && (p in d.programs ==> d'.programs[p] == d.programs[p])
  {
  }

  lemma QuiescentSame(s: ProgSpec, p: ProgState, d: Daemon, d': Daemon, env: Env, env': Env)
    requires Reordered(env, env')
    requires p.programId.Some? ==>
               && (p.programId.value in d'.programs <==> p.programId.value in d.programs)
               && (p.programId.value in d.programs ==> d'.programs[p.programId.value] == d.programs[p.programId.value])
    ensures Quiescent(s, p, d, env) <==> Quiescent(s, p, d', env')
  {
    ReorderedExpectation(s.infos, env, env');
  }

  // ---- the weight ----

  /** How many passes the application still needs. */
  ghost function Weight(app: App, node: Node, env: Env): (w: nat)
    ensures w <= 2
  {
    if app.name !in node.states then if app.deleting then 0 else 2
    else
      var st := node.states[app.name];
      (if AtRest(app, st.status, node.daemon, env) then 0 else 1) + (if app.deleting && st.finalizer then 1 else 0)
  }

  ghost function TotalWeight(apps: seq<App>, node: Node, env: Env): (w: nat)
    ensures w <= 2 * |apps|
  {
    if apps == [] then 0 else TotalWeight(apps[..|apps| - 1], node, env) + Weight(apps[|apps| - 1], node, env)
  }

  lemma {:induction false} TotalDrops(apps: seq<App>, k: nat, node: Node, env: Env, node': Node, env': Env)
    requires k < |apps| && Weight(apps[k], node, env) == Weight(apps[k], node', env') + 1
    requires forall j :: 0 <= j < |apps| && j != k ==> Weight(apps[j], node', env') == Weight(apps[j], node, env)
    ensures TotalWeight(apps, node', env') == TotalWeight(apps, node, env) - 1
  {
    hide Weight;
    var init := apps[..|apps| - 1];
    if k == |apps| - 1 {
      TotalSame(init, node, env, node', env');
    } else {
      TotalDrops(init, k, node, env, node', env');
    }
  }

  lemma {:induction false} TotalSame(apps: seq<App>, node: Node, env: Env, node': Node, env': Env)
    requires forall j :: 0 <= j < |apps| ==> Weight(apps[j], node', env') == Weight(apps[j], node, env)
    ensures TotalWeight(apps, node', env') == TotalWeight(apps, node, env)
  {
    if apps != [] {
      TotalSame(apps[..|apps| - 1], node, env, node', env');
    }
  }

  lemma {:induction false} TotalZero(apps: seq<App>, node: Node, env: Env)
    ensures TotalWeight(apps, node, env) == 0 <==> forall j :: 0 <= j < |apps| ==> Weight(apps[j], node, env) == 0
  {
    hide Weight;
    if apps != [] {
      TotalZero(apps[..|apps| - 1], node, env);
    }
  }

  // ---- one pass ----

  /** The hypotheses under which passes converge. */
  ghost predicate Ready(apps: seq<App>, node: Node, env: Env) {
    && NodeInv(node) && node.daemon.faults == {} && DistinctApps(apps)
    && forall j :: 0 <= j < |apps| ==> Loadable(apps[j], node, env)
  }

  /** The API server accepts every write, every wait succeeds, and only the interface order may differ. */
  ghost predicate Calm(env: Env, inp: Inputs) {
    Reordered(env, inp.env) && inp.createOk && inp.specWaitOk && inp.statusWriteOk && inp.finalizerOk
  }

  function IdsOf(node: Node, name: string): set<nat> {
    if name in node.states then RecordedIds(Record(node, name)) else {}
  }

  /** What the pass does to the application it stops at. */
  ghost predicate Lowers(app: App, node: Node, node': Node, env: Env) {
    && OnlyTouches(node, node', app.name)
    && Frame(node.daemon, node'.daemon, IdsOf(node, app.name))
    && Loadable(app, node', env)
    && Weight(app, node, env) == Weight(app, node', env) + 1
  }

  lemma InitialMatches(specs: seq<ProgSpec>)
    requires DistinctSpecs(specs)
    ensures var ps := InitialPrograms(specs, |specs|); ps.Some? && ProgramListMatches(specs, ps.value) && AllFound(specs, ps.value)
  {
    hide InitialPrograms;
    InitialExists(specs, |specs|);
    InitialFacts(specs, |specs|);
    var ps := InitialPrograms(specs, |specs|).value;
    forall s | s in specs ensures HasProg(ps, s.name) && FindProgState(s, ps).Some? {
      var i :| 0 <= i < |specs| && specs[i] == s;
      assert ps[i] in ps && Matches(s, ps[i]);
    }
    forall p | p in ps ensures HasSpec(specs, p.name) {
      var i :| 0 <= i < |ps| && ps[i] == p;
      assert specs[i] in specs;
    }
  }

  lemma CreateLowers(app: App, node: Node, inp: Inputs)
    requires app.name !in node.states && !app.deleting && node.daemon.faults == {} && Loadable(app, node, inp.env)
    requires inp.createOk && inp.specWaitOk && inp.statusWriteOk
    ensures Lowers(app, node, CreateState(app, node, inp), inp.env)
  {
    hide ProgramListMatches, AllFound, InitialPrograms, DistinctSpecs;
    InitialMatches(app.programs);
    var node' := CreateState(app, node, inp);
    assert node'.states[app.name].status.loadStatus == AppLoadNotLoaded;
  }

  lemma VisitFrame(app: App, status: AppStatus, d: Daemon, env: Env, uuid: nat, now: nat)
    requires Valid(d) && AppInv(status.programs, d)
    ensures Frame(d, Visit(app, status, d, env, uuid, now).daemon, RecordedIds(status.programs))
  {
    VisitProgress(app, status, d, env, uuid, now);
  }

  lemma CountIrrelevant(app: App, status: AppStatus, d: Daemon, env: Env, count: nat)
    ensures AtRest(app, status.(updateCount := count), d, env) <==> AtRest(app, status, d, env)
  {
  }

  lemma WriteLowers(app: App, node: Node, inp: Inputs, uuid: nat)
    requires NodeInv(node) && app.name in node.states && Loadable(app, node, inp.env) && node.daemon.faults == {}
    requires !AtRest(app, node.states[app.name].status, node.daemon, inp.env) && inp.statusWriteOk
    ensures var st := node.states[app.name];
            var v := Visit(app, st.status, node.daemon, inp.env, uuid, inp.now);
            Lowers(app, node, WriteStatus(app.name, v.status, Node(node.states, v.daemon, v.uuid), inp), inp.env)
  {
    hide ProgramListMatches, AppInv, AllFound, Valid, Quiescent, Progress, Visit, AtRest, Frame;
    var st, d := node.states[app.name], node.daemon;
    var v := Visit(app, st.status, d, inp.env, uuid, inp.now);
    var node' := WriteStatus(app.name, v.status, Node(node.states, v.daemon, v.uuid), inp);
    NodeInvAt(node, app.name);
    ChangesUnlessAtRest(app, node, inp.env, uuid, inp.now);
    VisitTouches(app, node.(uuid := uuid), node', inp, node'.states[app.name]);
    VisitFrame(app, st.status, d, inp.env, uuid, inp.now);
    CountIrrelevant(app, v.status, v.daemon, inp.env, node'.states[app.name].status.updateCount);
    if !app.deleting {
      if Selected(app.selector, inp.env.labels) == Some(true) {
        LiveVisit(app, st.status, d, inp.env, uuid, inp.now);
      } else {
        UnselectedVisit(app, st.status, d, inp.env, uuid, inp.now);
      }
    }
  }

  lemma RestUnloaded(app: App, status: AppStatus, d: Daemon, env: Env)
    requires app.deleting && AtRest(app, status, d, env)
    ensures Unloaded(status, Selected(app.selector, env.labels) == Some(true)) && !IsFailure(status.conditions)
  {
  }

  lemma ReadyDistinct(apps: seq<App>, node: Node, env: Env)
    requires Ready(apps, node, env)
    ensures forall j :: 0 <= j < |apps| && !apps[j].deleting ==> DistinctSpecs(apps[j].programs)
  {
  }

  lemma FreedLowers(app: App, node: Node, env: Env, uuid: nat)
    requires NodeInv(node) && app.name in node.states && Loadable(app, node, env)
    requires app.deleting && AtRest(app, node.states[app.name].status, node.daemon, env) && node.states[app.name].finalizer
    ensures var st := node.states[app.name];
            Lowers(app, node, Node(node.states[app.name := st.(finalizer := false)], node.daemon, uuid), env)
  {
  }

  lemma OtherWeight(app: App, other: App, node: Node, node': Node, env: Env)
    requires NodeInv(node) && other.name != app.name && Lowers(app, node, node', env)
    ensures Weight(other, node', env) == Weight(other, node, env)
    ensures Loadable(other, node', env) == Loadable(other, node, env)
  {
    hide AtRest, AppInv, Frame, Valid;
    if other.name in node.states {
      NodeInvAt(node, other.name);
      RestFrame(other, node.states[other.name].status, node.daemon, node'.daemon, IdsOf(node, app.name), env, env);
    }
  }

  /** No application's weight is greater at node' than at node. */
  ghost predicate NoneRises(apps: seq<App>, node: Node, env: Env, node': Node, env': Env) {
    forall a :: a in apps ==> Weight(a, node', env') <= Weight(a, node, env)
  }

  /** Nothing but the stopped-at application's weight changes, so the hypotheses survive and the total drops. */
  lemma LowersTotal(apps: seq<App>, k: nat, node: Node, node': Node, env: Env)
    requires Ready(apps, node, env) && k < |apps| && Lowers(apps[k], node, node', env)
    requires NodeInv(node')
    ensures Ready(apps, node', env) && TotalWeight(apps, node', env) == TotalWeight(apps, node, env) - 1
    ensures NoneRises(apps, node, env, node', env)
  {
    hide Weight, NodeInv, Loadable;
    forall j | 0 <= j < |apps| && j != k
      ensures Weight(apps[j], node', env) == Weight(apps[j], node, env) && Loadable(apps[j], node', env)
    {
      OtherWeight(apps[k], apps[j], node, node', env);
    }
    TotalDrops(apps, k, node, env, node', env);
    LoweredWeight(apps[k], node, node', env);
    assert node'.daemon.faults == {};
  }

  lemma LoweredWeight(app: App, node: Node, node': Node, env: Env)
    requires Lowers(app, node, node', env)
    ensures Weight(app, node, env) == Weight(app, node', env) + 1
  {
  }

  /** The uuid counter matters to nobody. */
  lemma UuidWeight(app: App, node: Node, uuid: nat, env: Env)
    ensures Weight(app, node.(uuid := uuid), env) == Weight(app, node, env)
    ensures Loadable(app, node.(uuid := uuid), env) == Loadable(app, node, env)
  {
  }

  lemma UuidIrrelevant(apps: seq<App>, node: Node, uuid: nat, env: Env)
    requires Ready(apps, node, env)
    ensures var node' := node.(uuid := uuid);
            && Ready(apps, node', env) && TotalWeight(apps, node', env) == TotalWeight(apps, node, env)
            && forall j :: 0 <= j < |apps| ==> Weight(apps[j], node', env) == Weight(apps[j], node, env)
  {
    hide Weight, Loadable;
    var node' := node.(uuid := uuid);
    forall j | 0 <= j < |apps|
      ensures Weight(apps[j], node', env) == Weight(apps[j], node, env) && Loadable(apps[j], node', env)
    {
      UuidWeight(apps[j], node, uuid, env);
    }
    TotalSame(apps, node, env, node', env);
  }

  /** A pass that finds the applications before i at rest stops at the first one with a weight and lowers it. */
  lemma {:induction false} PassLowers(apps: seq<App>, i: nat, node: Node, inp: Inputs)
    requires i <= |apps| && Ready(apps, node, inp.env)
    requires inp.createOk && inp.specWaitOk && inp.statusWriteOk && inp.finalizerOk
    requires forall j :: 0 <= j < i ==> Weight(apps[j], node, inp.env) == 0
    ensures var r := PassFrom(apps, i, node, inp);
            if TotalWeight(apps, node, inp.env) == 0 then
              r.stop == AllVisited && r.node == node.(uuid := r.node.uuid)
            else
              && !r.stop.AllVisited? && !r.stop.Panicked? && Ready(apps, r.node, inp.env)
              && TotalWeight(apps, r.node, inp.env) == TotalWeight(apps, node, inp.env) - 1
    ensures NoneRises(apps, node, inp.env, PassFrom(apps, i, node, inp).node, inp.env)
    decreases |apps| - i
  {
    hide NodeInv, AtRest, Loadable, Lowers, Visit, Unloaded;
    TotalZero(apps, node, inp.env);
    if i < |apps| {
      var app, env := apps[i], inp.env;
      var r := PassFrom(apps, i, node, inp);
      ReadyDistinct(apps, node, env);
      PassInv(apps, i, node, inp);
      if app.name !in node.states {
        if app.deleting {
          PassLowers(apps, i + 1, node, inp);
        } else {
          CreateLowers(app, node, inp);
          LowersTotal(apps, i, node, r.node, env);
        }
      } else {
        var st := node.states[app.name];
        ChangesUnlessAtRest(app, node, env, node.uuid, inp.now);
        var v := Visit(app, st.status, node.daemon, env, node.uuid, inp.now);
        if v.status != st.status {
          WriteLowers(app, node, inp, node.uuid);
          LowersTotal(apps, i, node, r.node, env);
        } else if app.deleting && st.finalizer {
          RestUnloaded(app, st.status, node.daemon, env);
          FreedLowers(app, node, env, v.uuid);
          LowersTotal(apps, i, node, r.node, env);
        } else {
          var node' := node.(uuid := v.uuid);
          UuidIrrelevant(apps, node, v.uuid, env);
          PassLowers(apps, i + 1, node', inp);
        }
      }
    }
  }

  // ---- runs of passes ----

  lemma ReorderedReady(apps: seq<App>, node: Node, env: Env, env': Env)
    requires Ready(apps, node, env) && Reordered(env, env')
    ensures Ready(apps, node, env') && TotalWeight(apps, node, env') == TotalWeight(apps, node, env)
    ensures forall a :: a in apps ==> Weight(a, node, env') == Weight(a, node, env)
  {
    hide AtRest, AppInv, Valid;
    forall j | 0 <= j < |apps| ensures Weight(apps[j], node, env') == Weight(apps[j], node, env) {
      if apps[j].name in node.states {
        NodeInvAt(node, apps[j].name);
        RestFrame(apps[j], node.states[apps[j].name].status, node.daemon, node.daemon, {}, env, env');
      }
    }
    TotalSame(apps, node, env, node, env');
    forall j | 0 <= j < |apps| ensures Loadable(apps[j], node, env') {
      LoadableReordered(apps[j], node, env, env');
    }
  }

  lemma LoadableReordered(app: App, node: Node, env: Env, env': Env)
    requires Loadable(app, node, env) && Reordered(env, env')
    ensures Loadable(app, node, env')
  {
    hide ProgramListMatches, AllFound;
    forall s: ProgSpec
      ensures Expand(s.infos, env').ok == Expand(s.infos, env).ok
      ensures ExpectedKeys(s.infos, env') == ExpectedKeys(s.infos, env)
    {
      ReorderedExpectation(s.infos, env, env');
    }
  }

  /** The node after one pass for each of the inputs. */
  function AfterPasses(apps: seq<App>, node: Node, inputs: seq<Inputs>): Node {
    if inputs == [] then node
    else OnePass(apps, AfterPasses(apps, node, inputs[..|inputs| - 1]), inputs[|inputs| - 1]).node
  }

  /**
   Convergence: while the total weight is positive each pass lowers it by exactly one, so after at most two
   passes per application every pass visits all the applications and changes no state, no program and no link.
   */
  lemma {:induction false} Converges(apps: seq<App>, node: Node, env: Env, inputs: seq<Inputs>)
    requires Ready(apps, node, env) && forall inp :: inp in inputs ==> Calm(env, inp)
    ensures var node', w := AfterPasses(apps, node, inputs), TotalWeight(apps, node, env);
            && Ready(apps, node', env)
            && TotalWeight(apps, node', env) == if |inputs| <= w then w - |inputs| else 0
  {
    hide Ready, TotalWeight;
    if inputs != [] {
      var init, inp := inputs[..|inputs| - 1], inputs[|inputs| - 1];
      assert inp in inputs && forall x :: x in init ==> x in inputs;
      Converges(apps, node, env, init);
      var node1 := AfterPasses(apps, node, init);
      ReorderedReady(apps, node1, env, inp.env);
      PassLowers(apps, 0, node1, inp);
      var r := OnePass(apps, node1, inp);
      if TotalWeight(apps, node1, inp.env) == 0 {
        UuidIrrelevant(apps, node1, r.node.uuid, env);
      } else {
        assert Reordered(inp.env, env);
        ReorderedReady(apps, r.node, inp.env, env);
      }
    }
  }

  /** After at most two passes per application, a pass visits all of them and changes nothing. */
  lemma ConvergesWithin(apps: seq<App>, node: Node, env: Env, inputs: seq<Inputs>, inp: Inputs)
    requires Ready(apps, node, env) && Calm(env, inp) && forall x :: x in inputs ==> Calm(env, x)
    requires |inputs| >= 2 * |apps|
    ensures var node' := AfterPasses(apps, node, inputs);
            var r := OnePass(apps, node', inp);
            r.stop == AllVisited && r.node.states == node'.states && r.node.daemon == node'.daemon
  {
    hide Ready;
    Converges(apps, node, env, inputs);
    ReorderedReady(apps, AfterPasses(apps, node, inputs), env, inp.env);
    PassLowers(apps, 0, AfterPasses(apps, node, inputs), inp);
  }
}
