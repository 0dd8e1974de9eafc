/**
 One pass of the agent over all the applications (Reconcile): it stops at the first application for which it
 creates a state object, writes a status or removes the finalizer.
 */
module Pass {
  import opened Types
  import opened Daemons
  import opened Application

  /** What the agent of one node works on: its state objects by application, its daemon, the next uuid. */
  datatype Node = Node(states: map<string, AppState>, daemon: Daemon, uuid: nat)

  /** What one pass is given: the node's environment, the time, and which API calls and waits succeed. */
  datatype Inputs = Inputs(
    env: Env, now: nat, createOk: bool, specWaitOk: bool, statusWriteOk: bool, finalizerOk: bool)

  /** The status subresource of a state object that has just been created. */
  const EmptyStatus := AppStatus(AppLoadUnset, 0, [], [])

  function InitialProg(spec: ProgSpec): ProgState {
    ProgState(spec.name, spec.kind, if spec.kind == Fentry || spec.kind == Fexit then spec.func else "",
              None, ProgAttachPending, [])
  }

  /** initializeNodeProgramList on the first n programs; None when it meets one it already has. */
  function InitialPrograms(specs: seq<ProgSpec>, n: nat): Option<seq<ProgState>>
    requires n <= |specs|
  {
    if n == 0 then Some([])
    else
      var ps := InitialPrograms(specs, n - 1);
      if ps.None? || FindProgState(specs[n - 1], ps.value).Some? then None
      else Some(ps.value + [InitialProg(specs[n - 1])])
  }

  /** Some program comes twice: its name, its type, and for fentry and fexit the function it traces. */
  ghost predicate Repeats(specs: seq<ProgSpec>) {
    exists i, j :: 0 <= i < j < |specs| && specs[i].name == specs[j].name && specs[i].kind == specs[j].kind
                   && (specs[i].kind in {Fentry, Fexit} ==> specs[i].func == specs[j].func)
  }

  /** createBpfAppState. */
  function CreateState(app: App, node: Node, inp: Inputs): Node {
    if !inp.createOk then node
    else
      var created := node.(states := node.states[app.name := AppState(true, EmptyStatus)]);
      var ps := InitialPrograms(app.programs, |app.programs|);
      if !inp.specWaitOk || ps.None? || !inp.statusWriteOk then created
      else
        var status := AppStatus(AppLoadNotLoaded, 1, ps.value, SetCondition([], CondPending, inp.now));
        node.(states := node.states[app.name := AppState(true, status)])
  }

  /** updateBpfAppStateStatus, once it has decided to write. */
  function WriteStatus(name: string, status: AppStatus, node: Node, inp: Inputs): Node
    requires name in node.states
  {
    if !inp.statusWriteOk then node
    else
      var st := node.states[name];
      node.(states := node.states[name := st.(status := status.(updateCount := status.updateCount + 1))])
  }

  /** Why a pass ended, and at which application. */
  datatype Stop = AllVisited | Created(at: nat) | StatusWritten(at: nat) | FinalizerRemoved(at: nat) | Panicked(at: nat)

  datatype Result = Result(node: Node, stop: Stop)

  function PassFrom(apps: seq<App>, i: nat, node: Node, inp: Inputs): Result
    requires i <= |apps|
    decreases |apps| - i
  {
    if i == |apps| then Result(node, AllVisited)
    else
      var app := apps[i];
      if app.name !in node.states then
        if app.deleting then PassFrom(apps, i + 1, node, inp)
        else Result(CreateState(app, node, inp), Created(i))
      else
        var st := node.states[app.name];
        var v := Visit(app, st.status, node.daemon, inp.env, node.uuid, inp.now);
        var node' := node.(daemon := v.daemon, uuid := v.uuid);
        if v.panicked then Result(node', Panicked(i))
        else if v.mustWrite || v.status != st.status then
          Result(WriteStatus(app.name, v.status, node', inp), StatusWritten(i))
        else if app.deleting && !IsFailure(st.status.conditions) && st.finalizer then
          var freed := if inp.finalizerOk then node'.states[app.name := st.(finalizer := false)] else node'.states;
          Result(node'.(states := freed), FinalizerRemoved(i))
        else PassFrom(apps, i + 1, node', inp)
  }

  function OnePass(apps: seq<App>, node: Node, inp: Inputs): Result {
    PassFrom(apps, 0, node, inp)
  }
}
