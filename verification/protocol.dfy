/**
 The finalizer protocol: users, the operator and one agent per node take interleaved steps over the stored
 applications and state objects.
 */
module Protocol {
  import opened Types
  import opened Application
  import opened Operator
  import opened Pass

  /** A stored application; `guarded` says whether the operator's finalizer is on it. */
  datatype Stored = Stored(app: App, guarded: bool, conditions: seq<AppCondition>)

  /** One node, with the list of applications its agent has read and not yet worked on. */
  datatype Agent = Agent(node: Node, listed: seq<App>)

  /** What the operator has read of an application and its state objects and not yet acted on. */
  datatype Reading = Reading(guarded: bool, deleting: bool, nodes: seq<string>, views: seq<StateView>)

  datatype World = World(apps: map<string, Stored>, agents: map<string, Agent>, readings: map<string, Reading>)

  /**
   `OperatorReads` carries the lists the operator reads, in any order; whatever happens until `OperatorWrites`,
   it decides on them, and `ok` says whether its write is accepted.  `Lost` is the daemon losing some programs by
   itself and `Restarted` is it losing all of them.
   */
  datatype Step =
    | UserCreates(app: App)
    | UserEdits(app: App)
    | UserDeletes(name: string)
    | OperatorReads(name: string, nodes: seq<string>, views: seq<StateView>)
    | OperatorWrites(name: string, now: nat, ok: bool)
    | AgentLists(at: string, order: seq<string>)
    | AgentPasses(at: string, inp: Inputs)
    | Collect(at: string, name: string)
    | Lost(at: string, ids: set<nat>)
    | Restarted(at: string)

  predicate Mentions(listed: seq<App>, name: string, deleting: bool) {
    exists i :: 0 <= i < |listed| && listed[i].name == name && listed[i].deleting == deleting
  }

  /** No state object is left of an application of this name, and neither a pass nor the operator is at work on it. */
  ghost predicate Unused(w: World, name: string) {
    && name !in w.apps && name !in w.readings
    && forall n :: n in w.agents ==>
         name !in w.agents[n].node.states && forall i :: 0 <= i < |w.agents[n].listed| ==> w.agents[n].listed[i].name != name
  }

  ghost predicate Shows(w: World, name: string, v: StateView) {
    && v.node in w.agents && name in w.agents[v.node].node.states
    && var st := w.agents[v.node].node.states[name];
    v.finalizer == st.finalizer && v.conditions == st.status.conditions
  }

  /** The operator's lists are up to date. */
  ghost predicate Current(w: World, name: string, nodes: seq<string>, views: seq<StateView>) {
    && (forall n :: n in nodes <==> n in w.agents)
    && (forall v :: v in views ==> Shows(w, name, v))
    && (forall n :: n in w.agents && name in w.agents[n].node.states ==> Covered(n, views))
  }

  /**
   When a step can be taken.  A name is not reused while anything of the old application survives, the
   operator's finalizer is on an application before its deletion is requested, specs have distinct program
   names, lists are current when they are read, and an object is collected when its owner is gone and no
   finalizer is left on it.
   */
  ghost predicate Allowed(w: World, s: Step) {
    match s
    case UserCreates(app) => Unused(w, app.name) && !app.deleting && DistinctSpecs(app.programs)
    case UserEdits(app) =>
      app.name in w.apps && app.deleting == w.apps[app.name].app.deleting && DistinctSpecs(app.programs)
    case UserDeletes(name) => name in w.apps && w.apps[name].guarded
    case OperatorReads(name, nodes, views) => name in w.apps && Current(w, name, nodes, views)
    case OperatorWrites(name, _, _) => name in w.readings
    case AgentLists(at, order) =>
      && at in w.agents && (forall n :: n in order <==> n in w.apps)
      && forall i, j :: 0 <= i < j < |order| ==> order[i] != order[j]
    case AgentPasses(at, _) => at in w.agents
    case Collect(at, name) =>
      at in w.agents && name !in w.apps && name in w.agents[at].node.states && !w.agents[at].node.states[name].finalizer
    case Lost(at, _) => at in w.agents
    case Restarted(at) => at in w.agents
  }

  /** The write a decision leads to.  The API server takes no new finalizer on an object that is being deleted. */
  function Decided(w: World, name: string, d: Decision, now: nat, ok: bool): World
    requires name in w.apps
  {
    var stored := w.apps[name];
    if !ok then w
    else match d
      case Nothing => w
      case AddFinalizer => if stored.app.deleting then w else w.(apps := w.apps[name := stored.(guarded := true)])
      case RemoveFinalizer => w.(apps := w.apps - {name})
      case SetStatus(c, _) => w.(apps := w.apps[name := stored.(conditions := NewConditions(stored.conditions, c, now))])
  }

  function DecisionOf(r: Reading): Decision {
    Decide(r.guarded, r.deleting, Some(r.nodes), Some(r.views))
  }

  function Lose(node: Node, ids: set<nat>): Node {
    node.(daemon := node.daemon.(programs := node.daemon.programs - ids))
  }

  ghost function After(w: World, s: Step): World
    requires Allowed(w, s)
  {
    match s
    case UserCreates(app) => w.(apps := w.apps[app.name := Stored(app, false, [])])
    case UserEdits(app) => w.(apps := w.apps[app.name := w.apps[app.name].(app := app)])
    case UserDeletes(name) =>
      w.(apps := w.apps[name := w.apps[name].(app := w.apps[name].app.(deleting := true))])
    case OperatorReads(name, nodes, views) =>
      var stored := w.apps[name];
      w.(readings := w.readings[name := Reading(stored.guarded, stored.app.deleting, nodes, views)])
    case OperatorWrites(name, now, ok) =>
      var w' := w.(readings := w.readings - {name});
      if name in w.apps then Decided(w', name, DecisionOf(w.readings[name]), now, ok) else w'
    case AgentLists(at, order) =>
      var listed := seq(|order|, i requires 0 <= i < |order| =>
        assert order[i] in order; w.apps[order[i]].app);
      w.(agents := w.agents[at := w.agents[at].(listed := listed)])
    case AgentPasses(at, inp) =>
      var a := w.agents[at];
      w.(agents := w.agents[at := Agent(OnePass(a.listed, a.node, inp).node, [])])
    case Collect(at, name) =>
      var a := w.agents[at];
      w.(agents := w.agents[at := a.(node := a.node.(states := a.node.states - {name}))])
    case Lost(at, ids) =>
      w.(agents := w.agents[at := w.agents[at].(node := Lose(w.agents[at].node, ids))])
    case Restarted(at) =>
      var node := w.agents[at].node;
      w.(agents := w.agents[at := w.agents[at].(node := Lose(node, node.daemon.programs.Keys))])
  }

  /** Every step of the run can be taken where it stands. */
  ghost predicate Run(w: World, steps: seq<Step>)
    decreases |steps|, 0
  {
    steps == [] || (Run(w, steps[..|steps| - 1]) && Allowed(AfterRun(w, steps[..|steps| - 1]), steps[|steps| - 1]))
  }

  ghost function AfterRun(w: World, steps: seq<Step>): World
    requires Run(w, steps)
    decreases |steps|, 1
  {
    if steps == [] then w else After(AfterRun(w, steps[..|steps| - 1]), steps[|steps| - 1])
  }

  /** No application, no state object, no program, and nobody at work. */
  ghost predicate Initial(w: World) {
    && w.apps == map[] && w.readings == map[]
    && forall n :: n in w.agents ==>
         && w.agents[n].listed == [] && w.agents[n].node.states == map[]
         && w.agents[n].node.daemon.programs == map[]
  }
}
