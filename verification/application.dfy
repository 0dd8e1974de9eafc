/**
 One visit of the agent to one application: loading or unloading its programs, reconciling each program's
 links, and deriving the condition (the body of the loop in Reconcile).
 */
module Application {
  import opened Types
  import opened Daemons
  import opened Programs

  // ---- selection and names ----

  /**
   isNodeSelected; None is an error.  The selector may not parse, and a node without labels is an error too:
   formatting an empty label set gives "<none>", which the conversion back to a map rejects.
   */
  function Selected(sel: NodeSelector, labels: map<string, string>): Option<bool> {
    match sel
    case InvalidSelector => None
    case MatchLabels(m) => if labels == map[] then None else Some(forall k :: k in m ==> k in labels && labels[k] == m[k])
  }

  function SpecNames(specs: seq<ProgSpec>): (r: seq<string>)
    ensures |r| == |specs|
  {
    seq(|specs|, i requires 0 <= i < |specs| => specs[i].name)
  }

  predicate DistinctSpecs(specs: seq<ProgSpec>) {
    forall i, j :: 0 <= i < j < |specs| ==> specs[i].name != specs[j].name
  }

  predicate DistinctProgs(programs: seq<ProgState>) {
    forall i, j :: 0 <= i < j < |programs| ==> programs[i].name != programs[j].name
  }

  predicate HasSpec(specs: seq<ProgSpec>, name: string) {
    exists s :: s in specs && s.name == name
  }

  predicate HasProg(programs: seq<ProgState>, name: string) {
    exists p :: p in programs && p.name == name
  }

  /** The spec lists no name twice, and the spec and the state have the same names. */
  predicate ProgramListMatches(specs: seq<ProgSpec>, programs: seq<ProgState>) {
    && DistinctSpecs(specs)
    && (forall s :: s in specs ==> HasProg(programs, s.name))
    && (forall p :: p in programs ==> HasSpec(specs, p.name))
  }

  predicate Matches(spec: ProgSpec, prog: ProgState) {
    && prog.kind == spec.kind && prog.name == spec.name
    && (spec.kind == Fentry || spec.kind == Fexit ==> prog.func == spec.func)
  }

  /** getProgState: the first matching entry. */
  function FindProgState(spec: ProgSpec, programs: seq<ProgState>, i: nat := 0): (r: Option<nat>)
    requires i <= |programs|
    ensures r.Some? ==> i <= r.value < |programs| && Matches(spec, programs[r.value])
    ensures r.Some? ==> forall j :: i <= j < r.value ==> !Matches(spec, programs[j])
    ensures r.None? ==> forall j :: i <= j < |programs| ==> !Matches(spec, programs[j])
    decreases |programs| - i
  {
    if i == |programs| then None
    else if Matches(spec, programs[i]) then Some(i)
    else FindProgState(spec, programs, i + 1)
  }

  /** Every program of the spec has its entry in the state. */
  predicate AllFound(specs: seq<ProgSpec>, programs: seq<ProgState>) {
    forall s :: s in specs ==> FindProgState(s, programs).Some?
  }

  // ---- load and unload ----

  predicate IsLoaded(programs: seq<ProgState>, d: Daemon) {
    forall i :: 0 <= i < |programs| ==> programs[i].programId.Some? && programs[i].programId.value in d.programs
  }

  function UnloadOne(p: ProgState, d: Daemon): (ProgState, Daemon) {
    if p.programId.Some? then
      (p.(programId := None, links := [], linkStatus := ProgAttachSuccess), AfterUnload(d, p.programId.value))
    else (p.(linkStatus := ProgAttachSuccess), d)
  }

  function UnloadUpTo(programs: seq<ProgState>, n: nat, d: Daemon): (r: (seq<ProgState>, Daemon))
    requires n <= |programs|
    ensures |r.0| == |programs|
    ensures forall j :: n <= j < |programs| ==> r.0[j] == programs[j]
  {
    if n == 0 then (programs, d)
    else
      var (ps, d1) := UnloadUpTo(programs, n - 1, d);
      var (p, d2) := UnloadOne(ps[n - 1], d1);
      (ps[n - 1 := p], d2)
  }

  /** GetBpfProgramId: the id the response gives for a name. */
  function IdFor(response: seq<(string, nat)>, name: string, i: nat := 0): (r: Option<nat>)
    requires i <= |response|
    decreases |response| - i
  {
    if i == |response| then None
    else if response[i].0 == name then Some(response[i].1)
    else IdFor(response, name, i + 1)
  }

  /** The first n entries with the ids of a response; false when a name is missing, which ends the loop. */
  function AssignUpTo(programs: seq<ProgState>, n: nat, response: seq<(string, nat)>): (r: (seq<ProgState>, bool))
    requires n <= |programs|
    ensures |r.0| == |programs|
    ensures forall j :: n <= j < |programs| ==> r.0[j] == programs[j]
  {
    if n == 0 then (programs, true)
    else
      var (ps, ok) := AssignUpTo(programs, n - 1, response);
      if !ok then (ps, false)
      else
        var id := IdFor(response, ps[n - 1].name);
        if id.None? then (ps, false) else (ps[n - 1 := ps[n - 1].(programId := id)], true)
  }

  datatype Loaded = Loaded(programs: seq<ProgState>, daemon: Daemon, ok: bool)

  /** load: one request for all the programs of the spec. */
  function LoadApp(app: App, programs: seq<ProgState>, d: Daemon, env: Env): Loaded {
    if app.name !in env.bytecode || !AllFound(app.programs, programs) then Loaded(programs, d, false)
    else
      var names := SpecNames(app.programs);
      var d' := AfterLoad(d, names);
      if Fails(d) then Loaded(programs, d', false)
      else
        var (ps, ok) := AssignUpTo(programs, |programs|, Response(names, d.nextProgram));
        Loaded(ps, d', ok)
  }

  datatype Loading = Loading(status: AppStatus, daemon: Daemon, ok: bool)

  function ReconcileLoad(app: App, status: AppStatus, d: Daemon, env: Env): Loading {
    var selected := Selected(app.selector, env.labels);
    if selected.None? then Loading(status, d, false)
    else if !selected.value || app.deleting then
      var (ps, d') := UnloadUpTo(status.programs, |status.programs|, d);
      Loading(status.(programs := ps, loadStatus := if selected.value then AppUnLoadSuccess else NotSelected), d', true)
    else if !ProgramListMatches(app.programs, status.programs) then
      Loading(status.(loadStatus := ProgListChangedError), d, false)
    else if IsLoaded(status.programs, d) then Loading(status.(loadStatus := AppLoadSuccess), d, true)
    else
      var l := LoadApp(app, status.programs, d, env);
      Loading(status.(programs := l.programs, loadStatus := if l.ok then AppLoadSuccess else AppLoadError), l.daemon, l.ok)
  }

  // ---- the loop over the programs ----

  datatype Progs = Progs(programs: seq<ProgState>, daemon: Daemon, uuid: nat, found: bool, panicked: bool)

  /** Reconcile each program of the spec in turn; `found` says that each had its entry in the state. */
  function ReconcileProgs(specs: seq<ProgSpec>, programs: seq<ProgState>, d: Daemon, env: Env, uuid: nat): Progs {
    if specs == [] then Progs(programs, d, uuid, true, false)
    else
      var j := FindProgState(specs[0], programs);
      if j.None? then ReconcileProgs(specs[1..], programs, d, env, uuid).(found := false)
      else
        var r := ReconcileProgram(specs[0], programs[j.value], d, env, uuid);
        if r.panicked then Progs(programs, r.daemon, r.uuid, true, true)
        else ReconcileProgs(specs[1..], programs[j.value := r.prog], r.daemon, env, r.uuid)
  }

  // ---- conditions ----

  /** Condition(): there is no case for a changed program list, so its type comes out empty. */
  function Promote(c: CondType): CondType {
    if c == CondProgramListChangedError then CondEmpty else c
  }

  function SetCondition(conditions: seq<Condition>, c: CondType, now: nat): seq<Condition> {
    if |conditions| == 1 && conditions[0].kind == c then conditions else [Condition(Promote(c), now)]
  }

  predicate IsFailure(conditions: seq<Condition>) {
    || conditions == []
    || conditions[0].kind == CondError || conditions[0].kind == CondProgramListChangedError
    || conditions[0].kind == CondUnloadError
  }

  predicate IsPending(conditions: seq<Condition>) {
    conditions == [] || conditions[0].kind == CondPending
  }

  function CheckProgramStatus(status: AppStatus): CondType {
    if status.loadStatus == AppLoadError then CondUnloadError
    else if status.loadStatus == AppUnLoadSuccess then CondUnloaded
    else if forall p :: p in status.programs ==> p.linkStatus == ProgAttachSuccess then CondSuccess
    else CondError
  }

  // ---- one visit ----

  /** `mustWrite` is the error path, which updates the status whether or not it changed. */
  datatype Visited = Visited(status: AppStatus, daemon: Daemon, uuid: nat, mustWrite: bool, panicked: bool)

  function Visit(app: App, status: AppStatus, d: Daemon, env: Env, uuid: nat, now: nat): Visited {
    var l := ReconcileLoad(app, status, d, env);
    if !l.ok then
      Visited(l.status.(conditions := SetCondition(l.status.conditions, CondError, now)), l.daemon, uuid, true, false)
    else if app.deleting then
      var c := CheckProgramStatus(l.status);
      Visited(l.status.(conditions := SetCondition(l.status.conditions, c, now)), l.daemon, uuid, false, false)
    else
      var r := ReconcileProgs(app.programs, l.status.programs, l.daemon, env, uuid);
      if r.panicked then Visited(status, r.daemon, r.uuid, false, true)
      else
        var s := l.status.(programs := r.programs);
        var c := if r.found then CheckProgramStatus(s) else CondProgramListChangedError;
        Visited(s.(conditions := SetCondition(s.conditions, c, now)), r.daemon, r.uuid, false, false)
  }

  // ---- accounting over all the programs of an application ----

  function RecordedIds(programs: seq<ProgState>): set<nat> {
    set p | p in programs && p.programId.Some? :: p.programId.value
  }

  lemma RecordedAt(programs: seq<ProgState>, i: nat)
    requires i < |programs| && programs[i].programId.Some?
    ensures programs[i].programId.value in RecordedIds(programs)
  {
  }

  /** Each program's links are accounted for and no two programs share an id. */
  ghost predicate AppAccounted(programs: seq<ProgState>, d: Daemon) {
    && (forall i :: 0 <= i < |programs| ==> Accounted(programs[i].links, programs[i].programId, d))
    && (forall i, j :: 0 <= i < j < |programs| && programs[i].programId.Some? ==>
          programs[i].programId != programs[j].programId)
  }

  /** Everything but link lists and link statuses is as before. */
  ghost predicate SameShape(ps: seq<ProgState>, ps': seq<ProgState>) {
    && |ps'| == |ps|
    && forall i :: 0 <= i < |ps| ==> ps'[i] == ps[i].(links := ps'[i].links, linkStatus := ps'[i].linkStatus)
  }

  lemma SameShapeIds(ps: seq<ProgState>, ps': seq<ProgState>)
    requires SameShape(ps, ps')
    ensures RecordedIds(ps') == RecordedIds(ps)
  {
  }

  lemma SameShapeFind(spec: ProgSpec, ps: seq<ProgState>, ps': seq<ProgState>)
    requires SameShape(ps, ps')
    ensures FindProgState(spec, ps') == FindProgState(spec, ps)
  {
  }

  lemma AccountedFrame(links: seq<Link>, pid: Option<nat>, d: Daemon, d': Daemon, ids: set<nat>)
    requires Valid(d) && Accounted(links, pid, d) && Frame(d, d', ids) && (pid.Some? ==> pid.value !in ids)
    ensures Accounted(links, pid, d')
  {
  }
}
