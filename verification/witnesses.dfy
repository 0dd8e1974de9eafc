/** Inputs on which the agent falls short, on a node as a run of the protocol leaves it. */
module Witnesses {
  import opened Types
  import opened Links
  import opened Daemons
  import opened Expansion
  import opened Programs
  import opened Application
  import opened ApplicationProofs
  import opened VisitProofs
  import opened Pass
  import opened PassProofs
  import opened Convergence
  import opened Protocol
  import opened Limits

  // Application "a" has one fentry program "pass".  It is created without an attachment, loaded, and then edited.

  const Env0 := Env(map["kubernetes.io/hostname" := "n"], map[], None, [], map[], {}, {}, {"a"})
  const Anywhere := MatchLabels(map[])
  const Plain := ProgSpec("pass", Fentry, "f", [])
  const Asking := ProgSpec("pass", Fentry, "f", [FentryInfo])

  function AppWith(selector: NodeSelector, specs: seq<ProgSpec>): App {
    App("a", false, selector, specs)
  }

  function At(now: nat, written: bool): Inputs {
    Inputs(Env0, now, true, true, written, true)
  }

  const Unloaded0 := ProgState("pass", Fentry, "f", None, ProgAttachPending, [])
  const Prog := ProgState("pass", Fentry, "f", Some(0), ProgAttachSuccess, [])
  const NoLinks: map<nat, AttachPoint> := map[]
  const Daemon0 := Daemon(map[], 0, 0, [], {})

  /** The node before, after creating the state object, and after loading. */
  const Node0 := Node(map[], Daemon0, 0)
  const Node1 := Node(map["a" := AppState(true, AppStatus(AppLoadNotLoaded, 1, [Unloaded0], [Condition(CondPending, 0)]))], Daemon0, 0)
  const Node2 := Node(
    map["a" := AppState(true, AppStatus(AppLoadSuccess, 2, [Prog], [Condition(CondSuccess, 1)]))],
    Daemon(map[0 := NoLinks], 1, 0, [LoadCall(["pass"])], {}), 0)

  // ---- reaching the node ----

  function TheWorld(apps: map<string, Stored>, node: Node, listed: seq<App>): World {
    World(apps, map["n" := Agent(node, listed)], map[])
  }

  function StoredAs(app: App): map<string, Stored> {
    map["a" := Stored(app, false, [])]
  }

  function Steps(edited: App): seq<Step> {
    [ UserCreates(AppWith(Anywhere, [Plain])), AgentLists("n", ["a"]), AgentPasses("n", At(0, true)),
      AgentLists("n", ["a"]), AgentPasses("n", At(1, true)), UserEdits(edited), AgentLists("n", ["a"]) ]
  }

  ghost predicate Leads(w: World, steps: seq<Step>, w': World) {
    Run(w, steps) && AfterRun(w, steps) == w'
  }

  /** One more step of `steps`. */
  lemma LeadsOn(w: World, steps: seq<Step>, k: nat, w1: World, w2: World)
    requires k < |steps| && Leads(w, steps[..k], w1) && Allowed(w1, steps[k]) && After(w1, steps[k]) == w2
    ensures Leads(w, steps[..k + 1], w2)
  {
    hide Allowed, After;
    assert steps[..k + 1][..k] == steps[..k];
  }

  lemma Lists(app: App, node: Node)
    ensures var w, list := TheWorld(StoredAs(app), node, []), AgentLists("n", ["a"]);
            Allowed(w, list) && After(w, list) == TheWorld(StoredAs(app), node, [app])
  {
    var w, list := TheWorld(StoredAs(app), node, []), AgentLists("n", ["a"]);
    assert forall n :: n in ["a"] <==> n in w.apps.Keys;
    assert After(w, list).agents["n"].listed == [app];
  }

  lemma PassesOne(apps: map<string, Stored>, node: Node, app: App, inp: Inputs, node': Node)
    requires OnePass([app], node, inp).node == node'
    ensures var w := TheWorld(apps, node, [app]);
            Allowed(w, AgentPasses("n", inp)) && After(w, AgentPasses("n", inp)) == TheWorld(apps, node', [])
  {
  }

  lemma Creates()
    ensures OnePass([AppWith(Anywhere, [Plain])], Node0, At(0, true)) == Result(Node1, Created(0))
  {
    assert InitialPrograms([Plain], 0) == Some([]);
    assert FindProgState(Plain, []) == None && InitialProg(Plain) == Unloaded0;
    assert InitialPrograms([Plain], 1) == Some([] + [Unloaded0]);
    assert [] + [Unloaded0] == [Unloaded0];
  }

  lemma LoadsPlain()
    ensures LoadApp(AppWith(Anywhere, [Plain]), [Unloaded0], Daemon0, Env0) ==
            Loaded([Prog.(linkStatus := ProgAttachPending)], Node2.daemon, true)
  {
    assert FindProgState(Plain, [Unloaded0]) == Some(0);
    assert SpecNames([Plain]) == ["pass"];
    var response := Response(["pass"], 0);
    assert response == [("pass", 0)];
    assert IdFor(response, "pass") == Some(0);
    assert AssignUpTo([Unloaded0], 0, response) == ([Unloaded0], true);
    assert WithNew(map[], 0, 0) == map[];
    assert WithNew(map[], 0, 1) == map[0 := NoLinks];
  }

  lemma AnywhereSelects()
    ensures Env0.labels != map[] && Selected(Anywhere, Env0.labels) == Some(true)
  {
    assert "kubernetes.io/hostname" in Env0.labels;
  }

  lemma NamesMatch(s: ProgSpec, p: ProgState)
    ensures ProgramListMatches([s], [p]) <==> s.name == p.name
  {
    assert [s][0] in [s] && [p][0] in [p];
  }

  lemma LoadsPass()
    ensures OnePass([AppWith(Anywhere, [Plain])], Node1, At(1, true)) == Result(Node2, StatusWritten(0))
  {
    hide ReconcileProgs, LoadApp;
    var app, status := AppWith(Anywhere, [Plain]), Node1.states["a"].status;
    var prog := Prog.(linkStatus := ProgAttachPending);
    AnywhereSelects();
    NamesMatch(Plain, Unloaded0);
    LoadsPlain();
    assert status.programs == [Unloaded0] && !IsLoaded([Unloaded0], Daemon0);
    PlainLoop(prog, Node2.daemon);
    assert ReconcileLoad(app, status, Daemon0, Env0) ==
           Loading(status.(programs := [prog], loadStatus := AppLoadSuccess), Node2.daemon, true);
    var v := Visit(app, status, Daemon0, Env0, 0, 1);
    assert v.status == Node2.states["a"].status.(updateCount := 1);
  }

  /** A program without attachments: nothing to do but to say so. */
  lemma PlainProgram(spec: ProgSpec, prog: ProgState, d: Daemon)
    requires spec.infos == [] && prog.links == []
    ensures ReconcileProgram(spec, prog, d, Env0, 0) == ProgResult(prog.(linkStatus := ProgAttachSuccess), d, 0, false)
  {
    assert Mint([], 0) == [] && UnmarkAll([]) == [];
    assert UpdateLinks([], [], Env0.netns) == [];
    assert Kept([]) == [];
  }

  lemma PlainLoop(prog: ProgState, d: Daemon)
    requires prog.name == "pass" && prog.kind == Fentry && prog.func == "f" && prog.links == []
    ensures ReconcileProgs([Plain], [prog], d, Env0, 0) == Progs([prog.(linkStatus := ProgAttachSuccess)], d, 0, true, false)
  {
    assert FindProgState(Plain, [prog]) == Some(0);
    PlainProgram(Plain, prog, d);
    var r := ReconcileProgram(Plain, prog, d, Env0, 0);
    assert [Plain][1..] == [] && [prog][0 := r.prog] == [r.prog];
    assert ReconcileProgs([], [r.prog], d, Env0, 0) == Progs([r.prog], d, 0, true, false);
  }

  /** Five steps create the application and its state object and load its program. */
  lemma ReachesLoaded(edited: App)
    ensures Initial(TheWorld(map[], Node0, []))
    ensures Leads(TheWorld(map[], Node0, []), Steps(edited)[..5], TheWorld(StoredAs(AppWith(Anywhere, [Plain])), Node2, []))
  {
    hide Allowed, After, OnePass, Leads, Initial, TheWorld, StoredAs;
    var w, app, steps := TheWorld(map[], Node0, []), AppWith(Anywhere, [Plain]), Steps(edited);
    var stored := StoredAs(app);
    Created1(w, app);
    assert steps[..0] == [];
    LeadsOn(w, steps, 0, w, TheWorld(stored, Node0, []));
    Lists(app, Node0);
    LeadsOn(w, steps, 1, TheWorld(stored, Node0, []), TheWorld(stored, Node0, [app]));
    Creates();
    PassesOne(stored, Node0, app, At(0, true), Node1);
    LeadsOn(w, steps, 2, TheWorld(stored, Node0, [app]), TheWorld(stored, Node1, []));
    Lists(app, Node1);
    LeadsOn(w, steps, 3, TheWorld(stored, Node1, []), TheWorld(stored, Node1, [app]));
    LoadsPass();
    PassesOne(stored, Node1, app, At(1, true), Node2);
    LeadsOn(w, steps, 4, TheWorld(stored, Node1, [app]), TheWorld(stored, Node2, []));
  }

  /** Every edit of the application is at some point what the agent of a node in state Node2 is about to work on. */
  lemma Reached(edited: App)
    requires edited.name == "a" && !edited.deleting && DistinctSpecs(edited.programs)
    ensures var w := TheWorld(map[], Node0, []);
            Initial(w) && Run(w, Steps(edited)) && AfterRun(w, Steps(edited)).agents["n"] == Agent(Node2, [edited])
  {
    hide Allowed, After, Leads, Initial, Run, AfterRun;
    var w, steps := TheWorld(map[], Node0, []), Steps(edited);
    ReachesLoaded(edited);
    Edits(StoredAs(AppWith(Anywhere, [Plain])), Node2, edited);
    LeadsOn(w, steps, 5, TheWorld(StoredAs(AppWith(Anywhere, [Plain])), Node2, []), TheWorld(StoredAs(edited), Node2, []));
    Lists(edited, Node2);
    LeadsOn(w, steps, 6, TheWorld(StoredAs(edited), Node2, []), TheWorld(StoredAs(edited), Node2, [edited]));
    assert steps[..7] == steps;
    LeadsMeans(w, steps, TheWorld(StoredAs(edited), Node2, [edited]));
  }

  lemma LeadsMeans(w: World, steps: seq<Step>, w': World)
    requires Leads(w, steps, w')
    ensures Run(w, steps) && AfterRun(w, steps) == w'
  {
  }

  lemma Created1(w: World, app: App)
    requires w == TheWorld(map[], Node0, []) && app == AppWith(Anywhere, [Plain])
    ensures Initial(w) && Leads(w, [], w) && Allowed(w, UserCreates(app)) && After(w, UserCreates(app)) == TheWorld(StoredAs(app), Node0, [])
  {
  }

  lemma Edits(stored: map<string, Stored>, node: Node, edited: App)
    requires stored == StoredAs(AppWith(Anywhere, [Plain])) && edited.name == "a" && !edited.deleting
    requires DistinctSpecs(edited.programs)
    ensures var w := TheWorld(stored, node, []);
            Allowed(w, UserEdits(edited)) && After(w, UserEdits(edited)) == TheWorld(StoredAs(edited), node, [])
  {
  }

  lemma Node2Inv()
    ensures NodeInv(Node2) && Record(Node2, "a") == [Prog]
  {
    var ps := [Prog];
    RecordedAt(ps, 0);
    assert Record(Node2, "a") == ps;
  }

  // ---- an edit that deselects the node ----

  /** The application no longer selects the node and asks for a link: the pass unloads its program and panics. */
  lemma UnselectedPanics()
    ensures var r := OnePass([AppWith(MatchLabels(map["zone" := "east"]), [Asking])], Node2, At(2, true));
            r.stop == Panicked(0) && 0 !in r.node.daemon.programs && r.node.states == Node2.states
  {
    hide Visit, NodeInv, AppInv, AnyAsks;
    var app, status := AppWith(MatchLabels(map["zone" := "east"]), [Asking]), Node2.states["a"].status;
    Node2Inv();
    NodeInvAt(Node2, "a");
    Asks(app);
    assert Selected(app.selector, Env0.labels) == Some(false) by {
      AnywhereSelects();
      assert "zone" in map["zone" := "east"] && "zone" !in Env0.labels;
    }
    VisitPanics(app, status, Node2.daemon, Env0, 0, 2);
    PanicUnloads(app, status, Node2.daemon, Env0, 0, 2);
    RecordedAt(status.programs, 0);
  }

  lemma Asks(app: App)
    requires app.programs == [Asking]
    ensures AnyAsks(app.programs, [Prog], Env0)
  {
    assert FindProgState(Asking, [Prog]) == Some(0);
    FentryKeys();
    assert AsksForLink(app.programs[0], [Prog], Env0);
  }

  lemma FentryKeys()
    ensures Expand([FentryInfo], Env0) == Expanded([FentryPoint], true)
    ensures ExpectedKeys([FentryInfo], Env0) == {LinkKey(FentryPoint, None)}
  {
    assert Expand([FentryInfo][1..], Env0) == Expanded([], true);
    var points := [FentryPoint];
    assert points[0] in points;
  }

  // ---- an edit that asks for a link, and a status write that is refused ----

  /** A visit that finds program 0 loaded and no link recorded attaches one. */
  lemma VisitAttaches(status: AppStatus, d: Daemon, uuid: nat, now: nat)
    requires status.programs == [Prog] && 0 in d.programs && !Fails(d)
    ensures var v := Visit(AppWith(Anywhere, [Asking]), status, d, Env0, uuid, now);
            && !v.panicked && !v.mustWrite
            && v.status.programs == [Prog.(linkStatus := ProgAttachSuccess, links := [
                 Link(FentryPoint, true, uuid, Some(d.nextLink), ApAttachAttached)])]
            && v.status.loadStatus == AppLoadSuccess && HasCondition(v.status.conditions, CondSuccess)
            && v.daemon == AfterAttach(d, 0, FentryPoint, uuid) && v.uuid == uuid + 1
  {
    hide Fails, ReconcileProgram, AfterAttach, AllFound;
    StillLoaded(Asking, status, d);
    AttachesOne(d, uuid);
    var r := ReconcileProgram(Asking, Prog, d, Env0, uuid);
    LoopOverOne(d, uuid);
    assert ReconcileProgs([Asking], [Prog], d, Env0, uuid) == Progs([r.prog], r.daemon, r.uuid, true, false);
    assert CheckProgramStatus(status.(loadStatus := AppLoadSuccess, programs := [r.prog])) == CondSuccess;
  }

  lemma StillLoaded(spec: ProgSpec, status: AppStatus, d: Daemon)
    requires spec.name == "pass" && status.programs == [Prog] && 0 in d.programs
    ensures ReconcileLoad(AppWith(Anywhere, [spec]), status, d, Env0) ==
            Loading(status.(loadStatus := AppLoadSuccess), d, true)
  {
    AnywhereSelects();
    NamesMatch(spec, Prog);
  }

  lemma LoopOverOne(d: Daemon, uuid: nat)
    ensures var r := ReconcileProgram(Asking, Prog, d, Env0, uuid);
            !r.panicked ==> ReconcileProgs([Asking], [Prog], d, Env0, uuid) == Progs([r.prog], r.daemon, r.uuid, true, false)
  {
    hide ReconcileProgram;
    var r := ReconcileProgram(Asking, Prog, d, Env0, uuid);
    assert FindProgState(Asking, [Prog]) == Some(0);
    assert [Prog][0 := r.prog] == [r.prog] && [Asking][1..] == [];
  }

  lemma AttachesOne(d: Daemon, uuid: nat)
    requires 0 in d.programs && !Fails(d)
    ensures var l := Link(FentryPoint, true, uuid, Some(d.nextLink), ApAttachAttached);
            ReconcileProgram(Asking, Prog, d, Env0, uuid) ==
            ProgResult(Prog.(linkStatus := ProgAttachSuccess, links := [l]), AfterAttach(d, 0, FentryPoint, uuid), uuid + 1, false)
  {
    hide Fails, UpdateLinks, ReconcileUpTo, Expand;
    FentryKeys();
    var e := Link(FentryPoint, true, uuid, None, ApAttachNotAttached);
    var l := e.(linkId := Some(d.nextLink), status := ApAttachAttached);
    assert Mint([FentryPoint], uuid) == [e];
    UpdatesOne(e);
    AttachesLink(e, d);
    assert [l][..0] == [] && Kept([l]) == [l];
  }

  lemma UpdatesOne(e: Link)
    requires e.point == FentryPoint
    ensures UpdateLinks([], [e], Env0.netns) == [e]
  {
    assert MergeAll([], [e][..0], Env0.netns) == [];
    assert FindLink([], LinkKey(FentryPoint, None), Env0.netns).None?;
    assert UnmarkAll([]) == [] && [] + [e] == [e];
  }

  lemma AttachesLink(e: Link, d: Daemon)
    requires e.shouldAttach && e.linkId.None? && 0 in d.programs && !Fails(d)
    ensures ReconcileUpTo([e], 1, Some(0), d) ==
            ([e.(linkId := Some(d.nextLink), status := ApAttachAttached)], AfterAttach(d, 0, e.point, e.uuid))
  {
    hide Fails, AfterAttach;
    assert ReconcileUpTo([e], 0, Some(0), d) == ([e], d);
    var l := ReconcileLink(e, Some(0), d).0;
    assert [e][0 := l] == [l];
  }

  /** One pass over the application, whose status write succeeds or not. */
  function PassOver(node: Node, now: nat, written: bool): Result {
    OnePass([AppWith(Anywhere, [Asking])], node, At(now, written))
  }

  lemma PassAttaches(node: Node, now: nat, written: bool) returns (st: AppState)
    requires "a" in node.states && Record(node, "a") == [Prog] && 0 in node.daemon.programs && !Fails(node.daemon)
    ensures HasCondition(st.status.conditions, CondSuccess)
    ensures PassOver(node, now, written) ==
            Result(Node(if written then node.states["a" := st] else node.states,
                        AfterAttach(node.daemon, 0, FentryPoint, node.uuid), node.uuid + 1), StatusWritten(0))
  {
    hide Visit, Fails;
    VisitAttaches(node.states["a"].status, node.daemon, node.uuid, now);
    var v := Visit(AppWith(Anywhere, [Asking]), node.states["a"].status, node.daemon, Env0, node.uuid, now);
    st := node.states["a"].(status := v.status.(updateCount := v.status.updateCount + 1));
    assert v.status.programs[0].links != [];
  }

  lemma NoLinkRecorded(node: Node)
    requires NodeInv(node) && "a" in node.states && Record(node, "a") == [Prog] && 0 in node.daemon.programs
    ensures 0 !in node.daemon.programs[0]
  {
    NodeInvAt(node, "a");
    assert Accounted(Record(node, "a")[0].links, Some(0), node.daemon);
  }

  /**
   When the status write after an attach fails, the link is forgotten: it is attached but not recorded, the
   next pass attaches another one, and the application reports Success with its key attached twice.
   */
  lemma FailedWriteForgets() returns (node1: Node, node2: Node)
    ensures NodeInv(Node2) && !NodeInv(node1)
    ensures "a" in node2.states && HasCondition(node2.states["a"].status.conditions, CondSuccess)
    ensures 0 in node2.daemon.programs && node2.daemon.programs[0] == map[0 := FentryPoint, 1 := FentryPoint]
    ensures node1 == PassOver(Node2, 2, false).node && node2 == PassOver(node1, 3, true).node
  {
    hide PassOver, NodeInv;
    Node2Inv();
    var st1 := PassAttaches(Node2, 2, false);
    node1 := PassOver(Node2, 2, false).node;
    var held: map<nat, AttachPoint> := map[0 := FentryPoint];
    assert node1.daemon.programs[0] == held;
    if NodeInv(node1) {
      NoLinkRecorded(node1);
    }
    var st2 := PassAttaches(node1, 3, true);
    node2 := PassOver(node1, 3, true).node;
  }

  // ---- an edit that changes the type of a program, or the function it traces ----

  /** A visit after the program of "pass" has become one that the entry of the loaded fentry program does not answer. */
  lemma ChangedSpec(spec: ProgSpec)
    requires spec.name == "pass" && !Matches(spec, Prog)
    ensures var v := Visit(AppWith(Anywhere, [spec]), Node2.states["a"].status, Node2.daemon, Env0, 0, 2);
            !v.mustWrite && v.status.conditions == [Condition(CondEmpty, 2)]
  {
    hide Visit, AppInv, Matches;
    var app, status := AppWith(Anywhere, [spec]), Node2.states["a"].status;
    Node2Inv();
    NodeInvAt(Node2, "a");
    StillLoaded(spec, status, Node2.daemon);
    assert FindProgState([spec][0], status.programs) == None && [spec][0] in [spec];
    ErrorPathIff(app, status, Node2.daemon, Env0, 0, 2);
    NamesMatch(spec, Prog);
    AnywhereSelects();
    VisitPanics(app, status, Node2.daemon, Env0, 0, 2);
    ChangedProgramNeverRests(app, status, Node2.daemon, Env0, 0, 2);
  }

  /** The entry of "pass" is that of a loaded fentry program while the spec has a tracepoint: the type comes out empty. */
  lemma ChangedType()
    ensures var app := AppWith(Anywhere, [ProgSpec("pass", Tracepoint, "", [])]);
            var v := Visit(app, Node2.states["a"].status, Node2.daemon, Env0, 0, 2);
            !v.mustWrite && v.status.conditions == [Condition(CondEmpty, 2)]
  {
    ChangedSpec(ProgSpec("pass", Tracepoint, "", []));
  }

  /** The same where the spec still has a fentry program, which is to trace "g" while the loaded one traces "f". */
  lemma ChangedFunction()
    ensures var app := AppWith(Anywhere, [ProgSpec("pass", Fentry, "g", [])]);
            var v := Visit(app, Node2.states["a"].status, Node2.daemon, Env0, 0, 2);
            !v.mustWrite && v.status.conditions == [Condition(CondEmpty, 2)]
  {
    ChangedSpec(ProgSpec("pass", Fentry, "g", []));
  }

  // ---- bytecode that does not resolve ----

  /** While the bytecode of "a" does not resolve on the node, "b" behind it never gets a state object. */
  lemma UnresolvedBlocks(inputs: seq<Inputs>, b: App)
    requires b.name == "b" && forall inp :: inp in inputs ==> inp.env.labels == Env0.labels && "a" !in inp.env.bytecode
    ensures "b" !in AfterPasses([AppWith(Anywhere, [Plain]), b], Node1, inputs).states
  {
    var apps, env := [AppWith(Anywhere, [Plain]), b], Env0.(bytecode := {});
    var bound := |AfterPasses(apps, Node1, inputs).daemon.log|;
    NamesMatch(Plain, Unloaded0);
    assert Record(Node1, "a")[0].programId.None?;
    StuckBlocksTheRest(apps, 0, Node1, env, bound, inputs);
    assert apps[1].name == "b";
  }

  // ---- a list that is out of date ----

  /** The operator has let "a" go, and two passes over the old list load it. */
  lemma StaleListLoadsOne()
    ensures var node' := AfterPasses([AppWith(Anywhere, [Plain])], Node0, [At(0, true), At(1, true)]);
            "a" in node'.states && RecordedIds(Record(node', "a")) != {}
  {
    var app := AppWith(Anywhere, [Plain]);
    AnywhereSelects();
    assert Ready([app], Node0, Env0);
    StaleListLoads(app, Node0, Env0, At(0, true), At(1, true), ["n"]);
  }
}
