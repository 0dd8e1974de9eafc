/** What a visit keeps, when it changes nothing, and what Success means. */
module ApplicationProofs {
  import opened Types
  import opened Daemons
  import opened Programs
  import opened Application

  /** Reconciling links has touched only the links of the application's own programs. */
  ghost predicate ProgsStanding(ps: seq<ProgState>, d: Daemon, ps': seq<ProgState>, d': Daemon) {
    && Valid(d') && Frame(d, d', RecordedIds(ps)) && AppAccounted(ps', d') && SameShape(ps, ps')
    && d'.nextProgram == d.nextProgram && d'.programs.Keys == d.programs.Keys
  }

  lemma FrameWider(d: Daemon, d': Daemon, ids: set<nat>, ids': set<nat>)
    requires Frame(d, d', ids) && ids <= ids'
    ensures Frame(d, d', ids')
  {
  }

  lemma StandingKeys(ls: seq<Link>, pid: Option<nat>, d: Daemon, d': Daemon)
    requires Valid(d) && Standing(ls, pid, d, d')
    ensures d'.programs.Keys == d.programs.Keys
  {
  }

  lemma StepStanding(spec: ProgSpec, ps: seq<ProgState>, j: nat, d: Daemon, env: Env, uuid: nat)
    requires Valid(d) && AppAccounted(ps, d) && j < |ps|
    ensures var r := ReconcileProgram(spec, ps[j], d, env, uuid); ProgsStanding(ps, d, ps[j := r.prog], r.daemon)
  {
    var r, pid := ReconcileProgram(spec, ps[j], d, env, uuid), ps[j].programId;
    ProgramStanding(spec, ps[j], d, env, uuid);
    StandingKeys(r.prog.links, pid, d, r.daemon);
    if pid.Some? {
      RecordedAt(ps, j);
    }
    FrameWider(d, r.daemon, Owned(pid), RecordedIds(ps));
    forall i | 0 <= i < |ps| && i != j ensures Accounted(ps[i].links, ps[i].programId, r.daemon) {
      AccountedFrame(ps[i].links, ps[i].programId, d, r.daemon, Owned(pid));
    }
  }

  lemma ProgsStandingTransitive(ps: seq<ProgState>, d: Daemon, ps1: seq<ProgState>, d1: Daemon, ps2: seq<ProgState>, d2: Daemon)
    requires Valid(d) && ProgsStanding(ps, d, ps1, d1) && ProgsStanding(ps1, d1, ps2, d2)
    ensures ProgsStanding(ps, d, ps2, d2)
  {
    SameShapeIds(ps, ps1);
    FrameTransitive(d, d1, d2, RecordedIds(ps));
  }

  lemma ProgsStandingStart(ps: seq<ProgState>, d: Daemon)
    requires Valid(d) && AppAccounted(ps, d)
    ensures ProgsStanding(ps, d, ps, d)
  {
  }

  /** Link accounting survives the whole loop over the programs. */
  lemma {:induction false} ReconcileProgsStanding(specs: seq<ProgSpec>, ps: seq<ProgState>, d: Daemon, env: Env, uuid: nat)
    requires Valid(d) && AppAccounted(ps, d)
    ensures var r := ReconcileProgs(specs, ps, d, env, uuid); ProgsStanding(ps, d, r.programs, r.daemon)
  {
    hide ProgsStanding;
    if specs == [] {
      ProgsStandingStart(ps, d);
    } else {
      var j := FindProgState(specs[0], ps);
      if j.None? {
        ReconcileProgsStanding(specs[1..], ps, d, env, uuid);
      } else {
        var r := ReconcileProgram(specs[0], ps[j.value], d, env, uuid);
        StepStanding(specs[0], ps, j.value, d, env, uuid);
        if r.panicked {
          ProgsStandingStart(ps, d);
        } else {
          var ps1 := ps[j.value := r.prog];
          StandingAccounted(ps, d, ps1, r.daemon);
          ReconcileProgsStanding(specs[1..], ps1, r.daemon, env, r.uuid);
          var rest := ReconcileProgs(specs[1..], ps1, r.daemon, env, r.uuid);
          ProgsStandingTransitive(ps, d, ps1, r.daemon, rest.programs, rest.daemon);
        }
      }
    }
  }

  lemma StandingAccounted(ps: seq<ProgState>, d: Daemon, ps': seq<ProgState>, d': Daemon)
    requires ProgsStanding(ps, d, ps', d')
    ensures Valid(d') && AppAccounted(ps', d') && SameShape(ps, ps')
    ensures RecordedIds(ps') == RecordedIds(ps)
  {
  }

  // ---- which programs end up quiescent ----

  /** The state entry of spec s, if any, is quiescent whenever it reports success or no call fails. */
  ghost predicate Settles(s: ProgSpec, ps: seq<ProgState>, d: Daemon, env: Env) {
    var j := FindProgState(s, ps);
    j.Some? ==>
      var p := ps[j.value];
      p.linkStatus == ProgAttachSuccess || (d.faults == {} && (p.programId.Some? ==> p.programId.value in d.programs)) ==>
        Quiescent(s, p, d, env)
  }

  lemma QuiescentFrame(s: ProgSpec, p: ProgState, d: Daemon, d': Daemon, env: Env, ids: set<nat>)
    requires Quiescent(s, p, d, env) && Frame(d, d', ids) && (p.programId.Some? ==> p.programId.value !in ids)
    ensures Quiescent(s, p, d', env)
  {
  }

  /** Reconciling another program leaves a settled one settled. */
  lemma StepSettles(s: ProgSpec, t: ProgSpec, ps: seq<ProgState>, j: nat, d: Daemon, env: Env, uuid: nat)
    requires Valid(d) && AppAccounted(ps, d) && FindProgState(t, ps) == Some(j)
    requires !ReconcileProgram(t, ps[j], d, env, uuid).panicked
    requires s == t || (s.name != t.name && Settles(s, ps, d, env))
    ensures var r := ReconcileProgram(t, ps[j], d, env, uuid); Settles(s, ps[j := r.prog], r.daemon, env)
  {
    var r := ReconcileProgram(t, ps[j], d, env, uuid);
    var ps' := ps[j := r.prog];
    StepStanding(t, ps, j, d, env, uuid);
    SameShapeFind(s, ps, ps');
    var i := FindProgState(s, ps);
    if i.Some? {
      if s == t {
        if r.prog.linkStatus == ProgAttachSuccess ||
           (r.daemon.faults == {} && (r.prog.programId.Some? ==> r.prog.programId.value in r.daemon.programs)) {
          BecomesQuiescent(t, ps[j], d, env, uuid);
        }
      } else {
        var p := ps[i.value];
        assert i.value != j && ps'[i.value] == p;
        ProgramStanding(t, ps[j], d, env, uuid);
        if Quiescent(s, p, d, env) {
          QuiescentFrame(s, p, d, r.daemon, env, Owned(ps[j].programId));
        }
      }
    }
  }

  lemma {:induction false} ReconcileProgsSettles(done: seq<ProgSpec>, specs: seq<ProgSpec>, ps: seq<ProgState>, d: Daemon, env: Env, uuid: nat)
    requires Valid(d) && AppAccounted(ps, d) && DistinctSpecs(done + specs)
    requires !ReconcileProgs(specs, ps, d, env, uuid).panicked
    requires forall s :: s in done ==> Settles(s, ps, d, env)
    ensures var r := ReconcileProgs(specs, ps, d, env, uuid);
            forall s :: s in done + specs ==> Settles(s, r.programs, r.daemon, env)
    decreases specs
  {
    hide Settles;
    if specs == [] {
      assert done + specs == done;
    } else {
      var t := specs[0];
      assert done + specs == (done + [t]) + specs[1..];
      var j := FindProgState(t, ps);
      if j.None? {
        NotFoundSettles(t, ps, d, env);
        ReconcileProgsSettles(done + [t], specs[1..], ps, d, env, uuid);
      } else {
        var r := ReconcileProgram(t, ps[j.value], d, env, uuid);
        var ps' := ps[j.value := r.prog];
        StepStanding(t, ps, j.value, d, env, uuid);
        forall s | s in done + [t] ensures Settles(s, ps', r.daemon, env) {
          if s in done {
            var i :| 0 <= i < |done| && done[i] == s;
            assert (done + specs)[i] == s && (done + specs)[|done|] == t;
          }
          StepSettles(s, t, ps, j.value, d, env, uuid);
        }
        ReconcileProgsSettles(done + [t], specs[1..], ps', r.daemon, env, r.uuid);
      }
    }
  }

  lemma NotFoundSettles(s: ProgSpec, ps: seq<ProgState>, d: Daemon, env: Env)
    requires FindProgState(s, ps).None?
    ensures Settles(s, ps, d, env)
  {
  }

  /** Quiescent programs stay as they are, through the whole loop. */
  lemma {:induction false} ReconcileProgsNoop(specs: seq<ProgSpec>, ps: seq<ProgState>, d: Daemon, env: Env, uuid: nat)
    requires forall s :: s in specs && FindProgState(s, ps).Some? ==> Quiescent(s, ps[FindProgState(s, ps).value], d, env)
    ensures var r := ReconcileProgs(specs, ps, d, env, uuid);
            r.programs == ps && r.daemon == d && !r.panicked && r.found == AllFound(specs, ps)
  {
    if specs != [] {
      assert specs[0] in specs && forall s :: s in specs[1..] ==> s in specs;
      assert forall s :: s in specs ==> s == specs[0] || s in specs[1..];
      var j := FindProgState(specs[0], ps);
      if j.None? {
        ReconcileProgsNoop(specs[1..], ps, d, env, uuid);
      } else {
        QuiescentNoop(specs[0], ps[j.value], d, env, uuid);
        assert ps[j.value := ps[j.value]] == ps;
        ReconcileProgsNoop(specs[1..], ps, d, env, ReconcileProgram(specs[0], ps[j.value], d, env, uuid).uuid);
      }
    }
  }

  lemma {:induction false} ReconcileProgsFound(specs: seq<ProgSpec>, ps: seq<ProgState>, d: Daemon, env: Env, uuid: nat)
    requires Valid(d) && AppAccounted(ps, d) && !ReconcileProgs(specs, ps, d, env, uuid).panicked
    ensures ReconcileProgs(specs, ps, d, env, uuid).found == AllFound(specs, ps)
  {
    if specs != [] {
      assert forall s :: s in specs <==> s == specs[0] || s in specs[1..];
      var j := FindProgState(specs[0], ps);
      if j.None? {
        ReconcileProgsFound(specs[1..], ps, d, env, uuid);
      } else {
        var r := ReconcileProgram(specs[0], ps[j.value], d, env, uuid);
        var ps' := ps[j.value := r.prog];
        StepStanding(specs[0], ps, j.value, d, env, uuid);
        ReconcileProgsFound(specs[1..], ps', r.daemon, env, r.uuid);
        forall s | s in specs ensures FindProgState(s, ps') == FindProgState(s, ps) {
          SameShapeFind(s, ps, ps');
        }
      }
    }
  }

  // ---- load and unload ----

  /** What the visits of one application rely on: distinct program names and accounted links. */
  ghost predicate AppInv(ps: seq<ProgState>, d: Daemon) {
    DistinctProgs(ps) && AppAccounted(ps, d)
  }

  lemma {:induction false} UnloadFacts(ps: seq<ProgState>, n: nat, d: Daemon)
    requires n <= |ps|
    ensures var (ps', d') := UnloadUpTo(ps, n, d);
            && (forall i :: 0 <= i < n ==>
                  ps'[i] == ps[i].(programId := None, linkStatus := ProgAttachSuccess,
                                   links := if ps[i].programId.Some? then [] else ps[i].links))
            && (forall p :: p in d'.programs <==> p in d.programs && forall i :: 0 <= i < n ==> ps[i].programId != Some(p))
            && (forall p :: p in d'.programs ==> d'.programs[p] == d.programs[p])
            && d'.nextProgram == d.nextProgram && d'.nextLink == d.nextLink && d'.faults == d.faults && d.log <= d'.log
  {
    if n > 0 {
      UnloadFacts(ps, n - 1, d);
    }
  }

  lemma {:induction false} UnloadNone(ps: seq<ProgState>, n: nat, d: Daemon)
    requires n <= |ps| && forall i :: 0 <= i < |ps| ==> ps[i].programId.None?
    ensures UnloadUpTo(ps, n, d).1 == d
  {
    if n > 0 {
      UnloadNone(ps, n - 1, d);
    }
  }

  lemma {:induction false} AssignFacts(ps: seq<ProgState>, n: nat, response: seq<(string, nat)>)
    requires n <= |ps| && forall i :: 0 <= i < |ps| ==> IdFor(response, ps[i].name).Some?
    ensures var (ps', ok) := AssignUpTo(ps, n, response);
            ok && forall i :: 0 <= i < n ==> ps'[i] == ps[i].(programId := IdFor(response, ps[i].name))
  {
    if n > 0 {
      AssignFacts(ps, n - 1, response);
    }
  }

  /** Entry k is the one GetBpfProgramId finds for a name. */
  lemma {:induction false} IdForFinds(response: seq<(string, nat)>, name: string, i: nat) returns (k: nat)
    requires i <= |response| && exists j :: i <= j < |response| && response[j].0 == name
    ensures i <= k < |response| && response[k].0 == name && IdFor(response, name, i) == Some(response[k].1)
    decreases |response| - i
  {
    if response[i].0 == name {
      k := i;
    } else {
      k := IdForFinds(response, name, i + 1);
    }
  }

  predicate Names(response: seq<(string, nat)>, name: string) {
    exists k :: 0 <= k < |response| && response[k].0 == name
  }

  /** The response returns this id for this name. */
  predicate Returns(response: seq<(string, nat)>, name: string, id: nat) {
    exists k :: 0 <= k < |response| && response[k] == (name, id)
  }

  /**
   Load is all or nothing in the record: when the state's names are distinct, the response names each of them
   and gives no id twice, every entry gets an id returned for its own name, and no two entries share one.
   */
  lemma LoadAllOrNothing(ps: seq<ProgState>, response: seq<(string, nat)>)
    requires DistinctProgs(ps) && forall p :: p in ps ==> Names(response, p.name)
    requires forall i, j :: 0 <= i < j < |response| ==> response[i].1 != response[j].1
    ensures var (ps', ok) := AssignUpTo(ps, |ps|, response);
            && ok
            && (forall i :: 0 <= i < |ps| ==>
                  ps'[i] == ps[i].(programId := ps'[i].programId) && ps'[i].programId.Some? &&
                  Returns(response, ps[i].name, ps'[i].programId.value))
            && (forall i, j :: 0 <= i < j < |ps| ==> ps'[i].programId != ps'[j].programId)
  {
    forall i | 0 <= i < |ps| ensures IdFor(response, ps[i].name).Some? {
      assert ps[i] in ps;
      var k := IdForFinds(response, ps[i].name, 0);
    }
    AssignFacts(ps, |ps|, response);
    var ps' := AssignUpTo(ps, |ps|, response).0;
    forall i | 0 <= i < |ps|
      ensures Returns(response, ps[i].name, ps'[i].programId.value)
    {
      assert ps[i] in ps;
      var k := IdForFinds(response, ps[i].name, 0);
      assert response[k] == (ps[i].name, ps'[i].programId.value);
    }
    forall i, j | 0 <= i < j < |ps| ensures ps'[i].programId != ps'[j].programId {
      assert ps[i] in ps && ps[j] in ps;
      var k := IdForFinds(response, ps[i].name, 0);
      var m := IdForFinds(response, ps[j].name, 0);
    }
  }

  /** Ids handed out between d and d'. */
  predicate Fresh(d: Daemon, d': Daemon, p: nat) {
    d.nextProgram <= p < d'.nextProgram
  }

  predicate RecordsId(ps: seq<ProgState>, p: nat) {
    exists i :: 0 <= i < |ps| && ps[i].programId == Some(p)
  }

  /** A successful load: every program loaded under a fresh id, and every fresh id recorded. */
  ghost predicate GoodLoad(ps: seq<ProgState>, d: Daemon, ps': seq<ProgState>, d': Daemon) {
    && |ps'| == |ps|
    && (forall i :: 0 <= i < |ps| ==> ps'[i] == ps[i].(programId := ps'[i].programId))
    && IsLoaded(ps', d')
    && (forall i :: 0 <= i < |ps| ==> Fresh(d, d', ps'[i].programId.value))
    && (forall p: nat :: Fresh(d, d', p) ==> RecordsId(ps', p))
  }

  lemma LoadResponds(app: App, ps: seq<ProgState>, first: nat)
    requires ProgramListMatches(app.programs, ps)
    ensures forall p :: p in ps ==> Names(Response(SpecNames(app.programs), first), p.name)
  {
    var response := Response(SpecNames(app.programs), first);
    forall p | p in ps ensures Names(response, p.name) {
      var s :| s in app.programs && s.name == p.name;
      var k :| 0 <= k < |app.programs| && app.programs[k] == s;
      assert response[k].0 == p.name;
    }
  }

  /** The ids `first`, `first + 1`, ... have gone to the n requested programs, one each. */
  ghost predicate Numbered(ps: seq<ProgState>, ps': seq<ProgState>, first: nat, n: nat) {
    && |ps'| == |ps|
    && (forall i :: 0 <= i < |ps| ==>
          ps'[i] == ps[i].(programId := ps'[i].programId) && ps'[i].programId.Some? &&
          first <= ps'[i].programId.value < first + n)
    && (forall i, j :: 0 <= i < j < |ps| ==> ps'[i].programId != ps'[j].programId)
    && (forall p: nat :: first <= p < first + n ==> RecordsId(ps', p))
  }

  lemma IdsDiffer(specs: seq<ProgSpec>, first: nat)
    ensures var response := Response(SpecNames(specs), first);
            forall i, j :: 0 <= i < j < |response| ==> response[i].1 != response[j].1
  {
  }

  lemma ReturnedId(specs: seq<ProgSpec>, first: nat, name: string, id: nat)
    requires Returns(Response(SpecNames(specs), first), name, id)
    ensures first <= id < first + |specs|
  {
  }

  lemma LoadNumbers(app: App, ps: seq<ProgState>, first: nat)
    requires DistinctProgs(ps) && ProgramListMatches(app.programs, ps)
    ensures var (ps', ok) := AssignUpTo(ps, |ps|, Response(SpecNames(app.programs), first));
            ok && Numbered(ps, ps', first, |app.programs|)
  {
    hide ProgramListMatches, DistinctProgs, AssignUpTo, Names, Returns, RecordsId, Response, SpecNames;
    var response := Response(SpecNames(app.programs), first);
    LoadResponds(app, ps, first);
    IdsDiffer(app.programs, first);
    LoadAllOrNothing(ps, response);
    var ps' := AssignUpTo(ps, |ps|, response).0;
    forall i | 0 <= i < |ps| ensures first <= ps'[i].programId.value < first + |app.programs| {
      ReturnedId(app.programs, first, ps[i].name, ps'[i].programId.value);
    }
    EveryIdRecorded(app, ps, ps', first);
  }

  lemma EveryIdRecorded(app: App, ps: seq<ProgState>, ps': seq<ProgState>, first: nat)
    requires ProgramListMatches(app.programs, ps) && |ps'| == |ps|
    requires forall i :: 0 <= i < |ps| ==>
               ps'[i].programId.Some? && Returns(Response(SpecNames(app.programs), first), ps[i].name, ps'[i].programId.value)
    ensures forall p: nat :: first <= p < first + |app.programs| ==> RecordsId(ps', p)
  {
    hide ProgramListMatches, Returns, RecordsId, Response, SpecNames;
    forall p: nat | first <= p < first + |app.programs| ensures RecordsId(ps', p) {
      MatchGives(app.programs, ps, p - first);
      LoadedIsRecorded(app, ps, ps', Response(SpecNames(app.programs), first), first, p - first);
    }
  }

  lemma LoadOk(app: App, ps: seq<ProgState>, d: Daemon)
    requires Valid(d) && AppInv(ps, d) && ProgramListMatches(app.programs, ps) && !Fails(d)
    ensures var names := SpecNames(app.programs);
            var (ps', ok) := AssignUpTo(ps, |ps|, Response(names, d.nextProgram));
            ok && GoodLoad(ps, d, ps', AfterLoad(d, names)) && AppAccounted(ps', AfterLoad(d, names))
  {
    hide AppAccounted, ProgramListMatches;
    var d' := AfterLoad(d, SpecNames(app.programs));
    LoadNumbers(app, ps, d.nextProgram);
    var ps' := AssignUpTo(ps, |ps|, Response(SpecNames(app.programs), d.nextProgram)).0;
    assert forall i :: 0 <= i < |ps| ==> ps'[i].programId.value in d'.programs;
    LoadedAccounted(ps, ps', d, d');
  }

  lemma LoadFacts(app: App, ps: seq<ProgState>, d: Daemon, env: Env)
    requires Valid(d) && AppInv(ps, d) && ProgramListMatches(app.programs, ps)
    ensures var l := LoadApp(app, ps, d, env);
            && Valid(l.daemon) && Frame(d, l.daemon, {}) && AppAccounted(l.programs, l.daemon)
            && (if l.ok then GoodLoad(ps, d, l.programs, l.daemon)
                else l.programs == ps && l.daemon.programs == d.programs && l.daemon.nextProgram == d.nextProgram &&
                     l.daemon.nextLink == d.nextLink)
  {
    LoadValid(d, SpecNames(app.programs));
    if app.name in env.bytecode && AllFound(app.programs, ps) && !Fails(d) {
      LoadOk(app, ps, d);
    } else {
      LoadedUnchanged(ps, d, LoadApp(app, ps, d, env).daemon);
    }
  }

  lemma LoadedUnchanged(ps: seq<ProgState>, d: Daemon, d': Daemon)
    requires AppAccounted(ps, d)
    requires d'.programs == d.programs && d'.nextProgram == d.nextProgram && d'.nextLink == d.nextLink
    ensures AppAccounted(ps, d')
  {
  }

  lemma MatchGives(specs: seq<ProgSpec>, ps: seq<ProgState>, k: nat)
    requires ProgramListMatches(specs, ps) && k < |specs|
    ensures DistinctSpecs(specs) && HasProg(ps, specs[k].name)
  {
  }

  lemma LoadedIsRecorded(
    app: App, ps: seq<ProgState>, ps': seq<ProgState>, response: seq<(string, nat)>, first: nat, k: nat)
    requires DistinctSpecs(app.programs) && k < |app.programs| && HasProg(ps, app.programs[k].name) && |ps'| == |ps|
    requires response == Response(SpecNames(app.programs), first)
    requires forall i :: 0 <= i < |ps| ==>
               ps'[i].programId.Some? && Returns(response, ps[i].name, ps'[i].programId.value)
    ensures RecordsId(ps', first + k)
  {
  }

  lemma LoadedAccounted(ps: seq<ProgState>, ps': seq<ProgState>, d: Daemon, d': Daemon)
    requires Valid(d) && AppAccounted(ps, d) && |ps'| == |ps| && d'.nextLink == d.nextLink
    requires forall i :: 0 <= i < |ps| ==>
               ps'[i].links == ps[i].links && ps'[i].programId.Some? && Fresh(d, d', ps'[i].programId.value)
    requires forall p :: p in d'.programs && Fresh(d, d', p) ==> d'.programs[p] == map[]
    requires forall i, j :: 0 <= i < j < |ps| ==> ps'[i].programId != ps'[j].programId
    ensures AppAccounted(ps', d')
  {
  }
}
