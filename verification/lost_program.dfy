/** A daemon that loses one of two programs, as a run of the protocol leaves it, and the reload that follows. */
module LostProgram {
  import opened Types
  import opened Daemons
  import opened Programs
  import opened Application
  import opened ApplicationProofs
  import opened VisitProofs
  import opened Pass
  import opened Protocol
  import opened Convergence
  import opened Limits
  import opened Witnesses

  const Other := ProgSpec("drop", Fentry, "g", [])
  const Both := [Plain, Other]
  const Other0 := ProgState("drop", Fentry, "g", None, ProgAttachPending, [])
  const Second := ProgState("drop", Fentry, "g", Some(1), ProgAttachSuccess, [])
  const DaemonBoth := Daemon(map[0 := NoLinks, 1 := NoLinks], 2, 0, [LoadCall(["pass", "drop"])], {})
  const Status2 := AppStatus(AppLoadSuccess, 2, [Prog, Second], [Condition(CondSuccess, 1)])

  function App2(): App {
    AppWith(Anywhere, Both)
  }

  function NodeOf(status: AppStatus, d: Daemon): Node {
    Node(map["a" := AppState(true, status)], d, 0)
  }

  /** The node after creating the state object, after loading, and after losing program 1. */
  const Created1 := NodeOf(AppStatus(AppLoadNotLoaded, 1, [Unloaded0, Other0], [Condition(CondPending, 0)]), Daemon0)
  const Loaded2 := NodeOf(Status2, DaemonBoth)
  const Left := NodeOf(Status2, DaemonBoth.(programs := map[0 := NoLinks]))

  lemma CreatesBoth()
    ensures OnePass([App2()], Node0, At(0, true)) == Result(Created1, Created(0))
  {
    assert FindProgState(Plain, []) == None && InitialProg(Plain) == Unloaded0 && InitialProg(Other) == Other0;
    assert FindProgState(Other, [Unloaded0]) == None;
    assert InitialPrograms(Both, 1) == Some([] + [Unloaded0]);
    assert [] + [Unloaded0] == [Unloaded0] && [Unloaded0] + [Other0] == [Unloaded0, Other0];
    assert InitialPrograms(Both, 2) == Some([Unloaded0, Other0]);
  }

  lemma {:induction false} BothMatch(ps: seq<ProgState>)
    requires |ps| == 2 && ps[0].name == "pass" && ps[1].name == "drop" && ps[0].kind == ps[1].kind == Fentry
    requires ps[0].func == "f" && ps[1].func == "g"
    ensures ProgramListMatches(Both, ps) && FindProgState(Plain, ps) == Some(0) && FindProgState(Other, ps) == Some(1)
    ensures AllFound(Both, ps)
  {
    assert Both[0] == Plain && Both[1] == Other;
    assert forall s :: s in Both ==> s == Both[0] || s == Both[1];
    assert forall p :: p in ps ==> p == ps[0] || p == ps[1];
    assert Both[0] in Both && Both[1] in Both && ps[0] in ps && ps[1] in ps;
  }

  lemma LoadsBoth()
    ensures LoadApp(App2(), [Unloaded0, Other0], Daemon0, Env0) ==
            Loaded([Prog.(linkStatus := ProgAttachPending), Second.(linkStatus := ProgAttachPending)], DaemonBoth, true)
  {
    var ps, response := [Unloaded0, Other0], Response(["pass", "drop"], 0);
    BothMatch(ps);
    assert SpecNames(Both) == ["pass", "drop"];
    assert response == [("pass", 0), ("drop", 1)];
    assert IdFor(response, "drop") == Some(1) by {
      assert IdFor(response, "drop", 1) == Some(1);
    }
    assert IdFor(response, "pass") == Some(0);
    assert AssignUpTo(ps, 0, response) == (ps, true);
    var p, q := Prog.(linkStatus := ProgAttachPending), Second.(linkStatus := ProgAttachPending);
    assert ps[0 := p] == [p, Other0] && [p, Other0][1 := q] == [p, q];
    assert AssignUpTo(ps, 1, response) == ([p, Other0], true);
    assert WithNew(map[], 0, 0) == map[];
    assert WithNew(map[], 0, 1) == map[0 := NoLinks];
    assert WithNew(map[], 0, 2) == map[0 := NoLinks, 1 := NoLinks];
  }

  lemma LoopOverBoth(p: ProgState, q: ProgState, d: Daemon)
    requires p == Prog.(linkStatus := p.linkStatus) && q == Second.(linkStatus := q.linkStatus)
    ensures ReconcileProgs(Both, [p, q], d, Env0, 0) == Progs([Prog, Second], d, 0, true, false)
  {
    hide ReconcileProgram;
    PlainProgram(Plain, p, d);
    PlainProgram(Other, q, d);
    BothMatch([p, q]);
    BothMatch([Prog, q]);
    assert [p, q][0 := Prog] == [Prog, q] && [Prog, q][1 := Second] == [Prog, Second];
    assert Both[1..] == [Other] && [Other][1..] == [];
    assert ReconcileProgs([], [Prog, Second], d, Env0, 0) == Progs([Prog, Second], d, 0, true, false);
    assert ReconcileProgs([Other], [Prog, q], d, Env0, 0) == Progs([Prog, Second], d, 0, true, false);
  }

  lemma LoadsPassBoth()
    ensures OnePass([App2()], Created1, At(1, true)) == Result(Loaded2, StatusWritten(0))
  {
    hide ReconcileProgs, LoadApp, ProgramListMatches, AllFound;
    var app, status := App2(), Created1.states["a"].status;
    var p, q := Prog.(linkStatus := ProgAttachPending), Second.(linkStatus := ProgAttachPending);
    AnywhereSelects();
    BothMatch(status.programs);
    LoadsBoth();
    assert status.programs == [Unloaded0, Other0] && status.programs[0].programId.None?;
    LoopOverBoth(p, q, DaemonBoth);
    assert ReconcileLoad(app, status, Daemon0, Env0) ==
           Loading(status.(programs := [p, q], loadStatus := AppLoadSuccess), DaemonBoth, true);
    var v := Visit(app, status, Daemon0, Env0, 0, 1);
    assert v.status == Status2.(updateCount := 1);
  }

  function StepsToLoss(): seq<Step> {
    [ UserCreates(App2()), AgentLists("n", ["a"]), AgentPasses("n", At(0, true)),
      AgentLists("n", ["a"]), AgentPasses("n", At(1, true)), Lost("n", {1}), AgentLists("n", ["a"]) ]
  }

  lemma Creates2()
    ensures var w := TheWorld(map[], Node0, []);
            && Initial(w) && Leads(w, [], w) && Allowed(w, UserCreates(App2()))
            && After(w, UserCreates(App2())) == TheWorld(StoredAs(App2()), Node0, [])
  {
    assert Both[0].name != Both[1].name;
  }

  lemma Loses()
    ensures var w := TheWorld(StoredAs(App2()), Loaded2, []);
            Allowed(w, Lost("n", {1})) && After(w, Lost("n", {1})) == TheWorld(StoredAs(App2()), Left, [])
  {
    assert Lose(Loaded2, {1}).daemon.programs == map[0 := NoLinks];
  }

  /** A run of the protocol in which the daemon loses program 1 of 0 and 1. */
  lemma ReachesLoss()
    ensures var w := TheWorld(map[], Node0, []);
            Initial(w) && Run(w, StepsToLoss()) && AfterRun(w, StepsToLoss()).agents["n"] == Agent(Left, [App2()])
  {
    hide Allowed, After, OnePass, Leads, Initial, TheWorld, StoredAs, Run, AfterRun;
    var w, app, steps := TheWorld(map[], Node0, []), App2(), StepsToLoss();
    var stored := StoredAs(app);
    Creates2();
    assert steps[..0] == [];
    LeadsOn(w, steps, 0, w, TheWorld(stored, Node0, []));
    Lists(app, Node0);
    LeadsOn(w, steps, 1, TheWorld(stored, Node0, []), TheWorld(stored, Node0, [app]));
    CreatesBoth();
    PassesOne(stored, Node0, app, At(0, true), Created1);
    LeadsOn(w, steps, 2, TheWorld(stored, Node0, [app]), TheWorld(stored, Created1, []));
    Lists(app, Created1);
    LeadsOn(w, steps, 3, TheWorld(stored, Created1, []), TheWorld(stored, Created1, [app]));
    LoadsPassBoth();
    PassesOne(stored, Created1, app, At(1, true), Loaded2);
    LeadsOn(w, steps, 4, TheWorld(stored, Created1, [app]), TheWorld(stored, Loaded2, []));
    Loses();
    LeadsOn(w, steps, 5, TheWorld(stored, Loaded2, []), TheWorld(stored, Left, []));
    Lists(app, Left);
    LeadsOn(w, steps, 6, TheWorld(stored, Left, []), TheWorld(stored, Left, [app]));
    assert steps[..7] == steps;
    LeadsMeans(w, steps, TheWorld(stored, Left, [app]));
    AgentOf(stored, Left, [app]);
  }

  lemma AgentOf(stored: map<string, Stored>, node: Node, listed: seq<App>)
    ensures "n" in TheWorld(stored, node, listed).agents && TheWorld(stored, node, listed).agents["n"] == Agent(node, listed)
  {
  }

  lemma LeftKnown()
    ensures AppInv(Status2.programs, Left.daemon) && Valid(Left.daemon)
    ensures ProgramListMatches(Both, Status2.programs) && AllFound(Both, Status2.programs)
    ensures !IsLoaded(Status2.programs, Left.daemon) && 0 in RecordedIds(Status2.programs)
  {
    BothMatch(Status2.programs);
    assert Status2.programs[1] == Second;
    RecordedAt(Status2.programs, 0);
  }

  /** The visit that follows loads both programs again; program 0 stays loaded and drops out of the record. */
  lemma ReloadForgetsOne()
    ensures var v := Visit(App2(), Status2, Left.daemon, Env0, 0, 2);
            0 in v.daemon.programs && 0 !in RecordedIds(v.status.programs)
  {
    hide Visit, AppInv, Valid, ProgramListMatches, AllFound, IsLoaded, RecordedIds, ReconcileLoad, NoneLost;
    LeftKnown();
    AnywhereSelects();
    LoadableLoads(App2(), Status2, Left.daemon, Env0);
    ReloadForgets(App2(), Status2, Left.daemon, Env0, 0, 2);
  }
}
