/**
 The agent's application reconciler (ClBpfApplicationReconciler): the loops of one pass over the stored
 applications, proved against the functions of Application and Pass.
 */
module ApplicationReconcilers {
  import opened Types
  import opened Daemons
  import A = Application
  import opened Pass
  import PassProofs
  import opened HeldPlaces
  import opened NetNs
  import opened ProgramReconcilers

  lemma ReconcileProgsStep(
    specs: seq<ProgSpec>, i: nat, programs: seq<ProgState>, d: Daemon, env: Env, uuid: nat)
    requires i < |specs|
    ensures var j := A.FindProgState(specs[i], programs);
            A.ReconcileProgs(specs[i..], programs, d, env, uuid) ==
            if j.None? then A.ReconcileProgs(specs[i + 1..], programs, d, env, uuid).(found := false)
            else
              var r := P.ReconcileProgram(specs[i], programs[j.value], d, env, uuid);
              if r.panicked then A.Progs(programs, r.daemon, r.uuid, true, true)
              else A.ReconcileProgs(specs[i + 1..], programs[j.value := r.prog], r.daemon, env, r.uuid)
  {
  }

  class ApplicationReconciler {
    const client: Bpfman
    const netNs: NetNsCache
    const inp: Inputs
    /** The state objects of this node, by application. */
    var states: map<string, AppState>
    var uuid: nat
    var currentApp: App
    /** The status of the current state object: a copy that is stored only by UpdateStatus. */
    var status: AppStatus

    constructor (node: Node, inp: Inputs, client: Bpfman, netNs: NetNsCache)
      requires client.State() == node.daemon
      ensures this.inp == inp && this.client == client && this.netNs == netNs
      ensures states == node.states && uuid == node.uuid
    {
      this.client, this.netNs, this.inp := client, netNs, inp;
      states, uuid := node.states, node.uuid;
      currentApp, status := App("", false, InvalidSelector, []), EmptyStatus;
    }

    function CurrentNode(): Node
      reads this, client
    {
      Node(states, client.State(), uuid)
    }

    // ---- programs of the state object ----

    method GetProgState(prog: ProgSpec, programs: seq<ProgState>) returns (found: Option<nat>)
      ensures found == A.FindProgState(prog, programs)
      ensures found.Some? ==> found.value < |programs| && IsEntryOf(prog, programs[found.value])
      ensures found.Some? ==> forall j :: 0 <= j < found.value ==> !IsEntryOf(prog, programs[j])
      ensures found.None? ==> forall j :: 0 <= j < |programs| ==> !IsEntryOf(prog, programs[j])
    {
      FoundIsEntry(prog, programs);
      for i := 0 to |programs|
        invariant A.FindProgState(prog, programs) == A.FindProgState(prog, programs, i)
      {
        if programs[i].kind == prog.kind && programs[i].name == prog.name {
          if prog.kind == Fentry || prog.kind == Fexit {
            if programs[i].func == prog.func {
              return Some(i);
            }
          } else {
            return Some(i);
          }
        }
      }
      return None;
    }

    method InitializeNodeProgramList() returns (ok: bool)
      modifies this`status
      ensures ok <==> old(status.programs) == [] && !Repeats(currentApp.programs)
      ensures var ps := InitialPrograms(currentApp.programs, |currentApp.programs|);
              && (ok ==> ps.Some? && status == old(status).(programs := ps.value))
              && (old(status.programs) == [] ==> ok == ps.Some?)
    {
      hide Repeats;
      if status.programs != [] {
        return false;
      }
      var specs := currentApp.programs;
      PassProofs.InitialNoneIff(specs, |specs|);
      assert specs[..|specs|] == specs;
      for i := 0 to |specs|
        invariant InitialPrograms(specs, i) == Some(status.programs)
        invariant status == old(status).(programs := status.programs)
      {
        var found := GetProgState(specs[i], status.programs);
        if found.Some? {
          InitialStops(specs, i + 1, |specs|);
          return false;
        }
        status := status.(programs := status.programs + [InitialProg(specs[i])]);
      }
      return true;
    }

    /** Accepts exactly the specs whose names are distinct and the same as the state's. */
    method ValidateProgramList() returns (ok: bool)
      ensures ok <==> A.ProgramListMatches(currentApp.programs, status.programs)
    {
      hide A.HasProg, A.HasSpec;
      var specs, programs := currentApp.programs, status.programs;
      NoneListed();
      assert programs[..0] == [] && specs[..0] == [];
      var onState: map<string, bool> := map[];
      for i := 0 to |programs|
        invariant forall n :: n in onState <==> A.HasProg(programs[..i], n)
      {
        HasProgSnoc(programs, i);
        onState := onState[programs[i].name := true];
      }
      assert programs[..|programs|] == programs;
      var added := false;
      for i := 0 to |specs|
        invariant added <==> !(A.DistinctSpecs(specs[..i]) && forall s :: s in specs[..i] ==> A.HasProg(programs, s.name))
        invariant forall n :: n in onState <==> A.HasProg(programs, n) && !A.HasSpec(specs[..i], n)
      {
        SpecSnoc(specs, i);
        if specs[i].name !in onState {
          added := true;
        } else {
          onState := onState - {specs[i].name};
        }
      }
      assert specs[..|specs|] == specs;
      ok := !added && |onState| == 0;
      LeftOver(specs, programs, onState);
    }

    // ---- load and unload ----

    method IsLoaded() returns (allProgramsLoaded: bool)
      ensures allProgramsLoaded == A.IsLoaded(status.programs, client.State())
    {
      allProgramsLoaded := true;
      for i := 0 to |status.programs|
        invariant allProgramsLoaded == A.IsLoaded(status.programs[..i], client.State())
      {
        var id := status.programs[i].programId;
        if id.None? {
          allProgramsLoaded := false;
        } else {
          var held := client.Get(id.value);
          if held.None? {
            allProgramsLoaded := false;
          }
        }
        assert status.programs[..i + 1] == status.programs[..i] + [status.programs[i]];
      }
      assert status.programs[..|status.programs|] == status.programs;
    }

    method GetLoadRequest() returns (names: Option<seq<string>>)
      ensures names == if currentApp.name in inp.env.bytecode && A.AllFound(currentApp.programs, status.programs)
                       then Some(A.SpecNames(currentApp.programs)) else None
    {
      if currentApp.name !in inp.env.bytecode {
        return None;
      }
      var specs, info := currentApp.programs, [];
      for i := 0 to |specs|
        invariant info == A.SpecNames(specs[..i])
        invariant forall s :: s in specs[..i] ==> A.FindProgState(s, status.programs).Some?
      {
        var found := GetProgState(specs[i], status.programs);
        if found.None? {
          assert specs[i] in specs;
          return None;
        }
        info := info + [specs[i].name];
      }
      assert specs[..|specs|] == specs;
      return Some(info);
    }

    method Load() returns (ok: bool)
      modifies this`status, client
      ensures var l := A.LoadApp(currentApp, old(status.programs), old(client.State()), inp.env);
              ok == l.ok && status == old(status).(programs := l.programs) && client.State() == l.daemon
    {
      var names := GetLoadRequest();
      if names.None? {
        return false;
      }
      var response := client.Load(names.value);
      if response.None? {
        return false;
      }
      ok := AssignIds(response.value);
    }

    method AssignIds(response: seq<(string, nat)>) returns (ok: bool)
      modifies this`status
      ensures var (ps, done) := A.AssignUpTo(old(status.programs), |old(status.programs)|, response);
              ok == done && status == old(status).(programs := ps)
    {
      for p := 0 to |status.programs|
        invariant |status.programs| == |old(status.programs)|
        invariant (status.programs, true) == A.AssignUpTo(old(status.programs), p, response)
        invariant status == old(status).(programs := status.programs)
      {
        var id := GetBpfProgramId(status.programs[p].name, response);
        if id.None? {
          AssignStops(old(status.programs), p + 1, |old(status.programs)|, response);
          return false;
        }
        status := status.(programs := status.programs[p := status.programs[p].(programId := id)]);
      }
      return true;
    }

    method GetBpfProgramId(name: string, response: seq<(string, nat)>) returns (id: Option<nat>)
      ensures id == A.IdFor(response, name)
    {
      for i := 0 to |response|
        invariant A.IdFor(response, name) == A.IdFor(response, name, i)
      {
        if response[i].0 == name {
          return Some(response[i].1);
        }
      }
      return None;
    }

    method Unload()
      modifies this`status, client
      ensures var (ps, d) := A.UnloadUpTo(old(status.programs), |old(status.programs)|, old(client.State()));
              status == old(status).(programs := ps) && client.State() == d
    {
      for i := 0 to |status.programs|
        invariant |status.programs| == |old(status.programs)|
        invariant (status.programs, client.State()) == A.UnloadUpTo(old(status.programs), i, old(client.State()))
        invariant status == old(status).(programs := status.programs)
      {
        var program := status.programs[i];
        if program.programId.Some? {
          var gone := client.Unload(program.programId.value);
          program := program.(programId := None, links := []);
        }
        program := program.(linkStatus := ProgAttachSuccess);
        status := status.(programs := status.programs[i := program]);
      }
    }

    method ReconcileLoad() returns (ok: bool)
      modifies this`status, client
      ensures A.Loading(status, client.State(), ok) ==
              A.ReconcileLoad(currentApp, old(status), old(client.State()), inp.env)
    {
      var selected := A.Selected(currentApp.selector, inp.env.labels);
      if selected.None? {
        return false;
      }
      if !selected.value {
        Unload();
        status := status.(loadStatus := NotSelected);
      } else if currentApp.deleting {
        Unload();
        status := status.(loadStatus := AppUnLoadSuccess);
      } else {
        var valid := ValidateProgramList();
        if !valid {
          status := status.(loadStatus := ProgListChangedError);
          return false;
        }
        var loaded := IsLoaded();
        if !loaded {
          loaded := Load();
        }
        if !loaded {
          status := status.(loadStatus := AppLoadError);
          return false;
        }
        status := status.(loadStatus := AppLoadSuccess);
      }
      return true;
    }

    // ---- conditions ----

    method CheckProgramStatus() returns (c: CondType)
      ensures c == A.CheckProgramStatus(status)
    {
      if status.loadStatus == AppLoadError {
        return CondUnloadError;
      }
      if status.loadStatus == AppUnLoadSuccess {
        return CondUnloaded;
      }
      for i := 0 to |status.programs|
        invariant forall k :: 0 <= k < i ==> status.programs[k].linkStatus == ProgAttachSuccess
      {
        if status.programs[i].linkStatus != ProgAttachSuccess {
          assert status.programs[i] in status.programs;
          return CondError;
        }
      }
      return CondSuccess;
    }

    method UpdateCondition(c: CondType) returns (changed: bool)
      modifies this`status
      ensures status == old(status).(conditions := A.SetCondition(old(status.conditions), c, inp.now))
      ensures !changed ==> status == old(status)
    {
      if |status.conditions| == 1 && status.conditions[0].kind == c {
        return false;
      }
      status := status.(conditions := [Condition(A.Promote(c), inp.now)]);
      return true;
    }

    // ---- writing ----

    /** Stores the status unless it is the original one; without an original it always does. */
    method UpdateStatus(original: Option<AppStatus>) returns (changed: bool)
      requires currentApp.name in states
      modifies this`status, this`states
      ensures changed <==> original != Some(old(status))
      ensures old(CurrentNode()).(states := states) ==
              if changed then WriteStatus(currentApp.name, old(status), old(CurrentNode()), inp) else old(CurrentNode())
      ensures !changed ==> status == old(status)
    {
      if original == Some(status) {
        return false;
      }
      status := status.(updateCount := status.updateCount + 1);
      if inp.statusWriteOk {
        states := states[currentApp.name := states[currentApp.name].(status := status)];
      }
      return true;
    }

    method CreateBpfAppState()
      requires currentApp.name !in states
      modifies this`status, this`states
      ensures old(CurrentNode()).(states := states) == CreateState(currentApp, old(CurrentNode()), inp)
    {
      if !inp.createOk {
        return;
      }
      states := states[currentApp.name := AppState(true, EmptyStatus)];
      if !inp.specWaitOk {
        return;
      }
      status := AppStatus(AppLoadNotLoaded, 0, [], []);
      var ok := InitializeNodeProgramList();
      if !ok {
        return;
      }
      var changed := UpdateCondition(CondPending);
      changed := UpdateStatus(None);
      assert old(states)[currentApp.name := AppState(true, EmptyStatus)][currentApp.name := AppState(true, status)] ==
             old(states)[currentApp.name := AppState(true, status)];
    }

    /** Clears the agent's finalizer; true if there was one, whether or not the write is accepted. */
    method RemoveFinalizer() returns (changed: bool)
      requires currentApp.name in states
      modifies this`states
      ensures changed == old(states[currentApp.name].finalizer)
      ensures states == if changed && inp.finalizerOk
                        then old(states)[currentApp.name := old(states)[currentApp.name].(finalizer := false)]
                        else old(states)
    {
      changed := states[currentApp.name].finalizer;
      if changed && inp.finalizerOk {
        states := states[currentApp.name := states[currentApp.name].(finalizer := false)];
      }
    }

    // ---- the pass ----

    /** The loop over the programs; each reconciler works on its entry of the state object. */
    method ReconcilePrograms() returns (found: bool, panicked: bool)
      requires netNs.Agrees(inp.env.netns)
      modifies this`status, this`uuid, client, netNs
      ensures netNs.Agrees(inp.env.netns)
      ensures var r := A.ReconcileProgs(currentApp.programs, old(status.programs), old(client.State()), inp.env, old(uuid));
              && panicked == r.panicked && client.State() == r.daemon && uuid == r.uuid
              && (!panicked ==> found == r.found && status == old(status).(programs := r.programs))
    {
      found, panicked := true, false;
      var specs := currentApp.programs;
      ghost var whole := A.ReconcileProgs(specs, status.programs, client.State(), inp.env, uuid);
      assert specs[0..] == specs;
      for i := 0 to |specs|
        invariant netNs.Agrees(inp.env.netns) && status == old(status).(programs := status.programs)
        invariant whole == (
                    var r := A.ReconcileProgs(specs[i..], status.programs, client.State(), inp.env, uuid);
                    if r.panicked then r.(found := whole.found, programs := whole.programs) else r.(found := r.found && found))
      {
        ReconcileProgsStep(specs, i, status.programs, client.State(), inp.env, uuid);
        var j := GetProgState(specs[i], status.programs);
        if j.None? {
          found := false;
        } else {
          var rec := new ProgramReconciler(specs[i], status.programs[j.value], inp.env, client, netNs, uuid);
          panicked := rec.ReconcileProgram();
          uuid := rec.uuid;
          if panicked {
            return false, true;
          }
          status := status.(programs := status.programs[j.value := rec.Prog()]);
        }
      }
    }

    /** One application, up to the decision whether to write. */
    method ReconcileApplication() returns (mustWrite: bool, panicked: bool)
      requires netNs.Agrees(inp.env.netns)
      modifies this`status, this`uuid, client, netNs
      ensures netNs.Agrees(inp.env.netns)
      ensures var v := A.Visit(currentApp, old(status), old(client.State()), inp.env, old(uuid), inp.now);
              && panicked == v.panicked && mustWrite == v.mustWrite && client.State() == v.daemon && uuid == v.uuid
              && (!panicked ==> status == v.status)
    {
      mustWrite, panicked := false, false;
      var ok := ReconcileLoad();
      if !ok {
        var changed := UpdateCondition(CondError);
        return true, false;
      }
      var condition := CondSuccess;
      if !currentApp.deleting {
        var found;
        found, panicked := ReconcilePrograms();
        if panicked {
          return;
        }
        if !found {
          condition := CondProgramListChangedError;
        }
      }
      if condition == CondSuccess {
        condition := CheckProgramStatus();
      }
      var changed := UpdateCondition(condition);
    }

    method Reconcile(apps: seq<App>) returns (stop: Stop)
      modifies this, client, netNs
      ensures Result(CurrentNode(), stop) == OnePass(apps, old(CurrentNode()), inp)
    {
      netNs.Reset();
      for i := 0 to |apps|
        invariant netNs.Agrees(inp.env.netns)
        invariant PassFrom(apps, i, CurrentNode(), inp) == OnePass(apps, old(CurrentNode()), inp)
      {
        currentApp := apps[i];
        if currentApp.name !in states {
          if currentApp.deleting {
            continue;
          }
          CreateBpfAppState();
          return Created(i);
        }
        status := states[currentApp.name].status;
        var original := status;
        var mustWrite, panicked := ReconcileApplication();
        if panicked {
          return Panicked(i);
        }
        var changed := UpdateStatus(if mustWrite then None else Some(original));
        if changed {
          return StatusWritten(i);
        }
        if currentApp.deleting && !A.IsFailure(status.conditions) {
          var freed := RemoveFinalizer();
          if freed {
            return FinalizerRemoved(i);
          }
        }
      }
      return AllVisited;
    }
  }

  // ---- lemmas about the loops ----

  lemma {:induction false} InitialStops(specs: seq<ProgSpec>, i: nat, n: nat)
    requires i <= n <= |specs| && InitialPrograms(specs, i).None?
    ensures InitialPrograms(specs, n).None?
  {
    if i < n {
      InitialStops(specs, i, n - 1);
    }
  }

  lemma {:induction false} AssignStops(programs: seq<ProgState>, i: nat, n: nat, response: seq<(string, nat)>)
    requires i <= n <= |programs| && !A.AssignUpTo(programs, i, response).1
    ensures A.AssignUpTo(programs, n, response) == A.AssignUpTo(programs, i, response)
  {
    if i < n {
      AssignStops(programs, i, n - 1, response);
    }
  }

  lemma NoneListed()
    ensures forall n :: !A.HasProg([], n) && !A.HasSpec([], n)
  {
  }

  /** What is left over on the list is what the state has and the spec does not. */
  lemma LeftOver(specs: seq<ProgSpec>, programs: seq<ProgState>, left: map<string, bool>)
    requires forall n :: n in left <==> A.HasProg(programs, n) && !A.HasSpec(specs, n)
    ensures |left| == 0 <==> forall p :: p in programs ==> A.HasSpec(specs, p.name)
  {
  }

  lemma HasProgSnoc(programs: seq<ProgState>, i: nat)
    requires i < |programs|
    ensures forall n :: A.HasProg(programs[..i + 1], n) <==> A.HasProg(programs[..i], n) || programs[i].name == n
  {
  }

  lemma SpecSnoc(specs: seq<ProgSpec>, i: nat)
    requires i < |specs|
    ensures forall n :: A.HasSpec(specs[..i + 1], n) <==> A.HasSpec(specs[..i], n) || specs[i].name == n
    ensures A.DistinctSpecs(specs[..i + 1]) <==> A.DistinctSpecs(specs[..i]) && !A.HasSpec(specs[..i], specs[i].name)
    ensures forall s :: s in specs[..i + 1] <==> s in specs[..i] || s == specs[i]
  {
    var init, upTo := specs[..i], specs[..i + 1];
    assert upTo == init + [specs[i]];
    forall n ensures A.HasSpec(upTo, n) <==> A.HasSpec(init, n) || specs[i].name == n {
      if A.HasSpec(init, n) {
        var s :| s in init && s.name == n;
        assert s in upTo;
      }
      assert specs[i] in upTo;
    }
    if A.DistinctSpecs(init) && !A.HasSpec(init, specs[i].name) {
      forall j, k | 0 <= j < k < |upTo| ensures upTo[j].name != upTo[k].name {
        assert init[j] in init && upTo[j] == init[j];
      }
    }
    if A.DistinctSpecs(upTo) {
      forall j, k | 0 <= j < k < i ensures init[j].name != init[k].name {
        assert upTo[j] == init[j] && upTo[k] == init[k];
      }
      forall j | 0 <= j < i ensures init[j].name != specs[i].name {
        assert upTo[j] == init[j] && upTo[i] == specs[i];
      }
    }
  }
}
