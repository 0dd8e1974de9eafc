/**
 A whole visit: what it keeps in every case, when it panics, what Success says about the daemon, and when a
 further visit changes nothing.
 */
module VisitProofs {
  import opened Types
  import opened Links
  import opened Daemons
  import opened Expansion
  import opened Programs
  import opened Application
  import opened ApplicationProofs

  /** What every visit keeps, for the application's programs and for everybody else's. */
  ghost predicate Progress(ps: seq<ProgState>, d: Daemon, ps': seq<ProgState>, d': Daemon) {
    && Valid(d') && Frame(d, d', RecordedIds(ps)) && AppInv(ps', d')
    && (forall x :: x in RecordedIds(ps') ==> x in RecordedIds(ps) || Fresh(d, d', x))
  }

  lemma RecordedHas(ps: seq<ProgState>, x: nat)
    ensures x in RecordedIds(ps) <==> RecordsId(ps, x)
  {
  }

  lemma ProgressStart(ps: seq<ProgState>, d: Daemon)
    requires Valid(d) && AppInv(ps, d)
    ensures Progress(ps, d, ps, d)
  {
  }

  /** A failed load call leaves the daemon's programs alone. */
  lemma ProgressIdle(ps: seq<ProgState>, d: Daemon, d': Daemon)
    requires Valid(d) && AppInv(ps, d) && Valid(d') && Frame(d, d', {}) && AppAccounted(ps, d')
    ensures Progress(ps, d, ps, d')
  {
  }

  lemma UnloadKeys(ps: seq<ProgState>, d: Daemon)
    ensures var (ps', d') := UnloadUpTo(ps, |ps|, d);
            && RecordedIds(ps') == {}
            && forall p :: p in d'.programs <==> p in d.programs && p !in RecordedIds(ps)
  {
    UnloadFacts(ps, |ps|, d);
    var (ps', d') := UnloadUpTo(ps, |ps|, d);
    forall p: nat ensures p in d'.programs <==> p in d.programs && p !in RecordedIds(ps) {
      RecordedHas(ps, p);
    }
    forall x | x in RecordedIds(ps') ensures false {
      RecordedHas(ps', x);
    }
  }

  lemma UnloadProgress(ps: seq<ProgState>, d: Daemon)
    requires Valid(d) && AppInv(ps, d)
    ensures var (ps', d') := UnloadUpTo(ps, |ps|, d);
            Progress(ps, d, ps', d') && AppInv(ps, d') && RecordedIds(ps') == {} && d'.nextProgram == d.nextProgram
  {
    hide UnloadUpTo, Accounted;
    UnloadFacts(ps, |ps|, d);
    UnloadKeys(ps, d);
    var (ps', d') := UnloadUpTo(ps, |ps|, d);
    forall i | 0 <= i < |ps|
      ensures Accounted(ps[i].links, ps[i].programId, d') && Accounted(ps'[i].links, ps'[i].programId, d')
    {
      UnloadedAccounted(ps[i], ps'[i], d, d');
    }
  }

  lemma UnloadedAccounted(p: ProgState, p': ProgState, d: Daemon, d': Daemon)
    requires Accounted(p.links, p.programId, d) && p'.programId.None? && (p'.links == p.links || p'.links == [])
    requires d'.nextProgram == d.nextProgram && d'.nextLink == d.nextLink
    requires forall q :: q in d'.programs ==> q in d.programs && d'.programs[q] == d.programs[q]
    ensures Accounted(p.links, p.programId, d') && Accounted(p'.links, p'.programId, d')
  {
  }

  lemma GoodLoadProgress(ps: seq<ProgState>, d: Daemon, ps': seq<ProgState>, d': Daemon)
    requires Valid(d) && AppInv(ps, d) && Valid(d') && Frame(d, d', {}) && AppAccounted(ps', d')
    requires GoodLoad(ps, d, ps', d')
    ensures Progress(ps, d, ps', d')
  {
  }

  lemma LoadProgress(app: App, status: AppStatus, d: Daemon, env: Env)
    requires Valid(d) && AppInv(status.programs, d)
    ensures var l := ReconcileLoad(app, status, d, env); Progress(status.programs, d, l.status.programs, l.daemon)
  {
    hide Progress, ProgramListMatches, AppAccounted, GoodLoad;
    var ps := status.programs;
    var selected := Selected(app.selector, env.labels);
    ProgressStart(ps, d);
    if selected.Some? && (!selected.value || app.deleting) {
      UnloadProgress(ps, d);
    } else if selected.Some? && ProgramListMatches(app.programs, ps) && !IsLoaded(ps, d) {
      LoadFacts(app, ps, d, env);
      var l := LoadApp(app, ps, d, env);
      if l.ok {
        GoodLoadProgress(ps, d, l.programs, l.daemon);
      } else {
        ProgressIdle(ps, d, l.daemon);
      }
    }
  }

  lemma ProgsProgress(ps: seq<ProgState>, d: Daemon, ps1: seq<ProgState>, d1: Daemon, ps2: seq<ProgState>, d2: Daemon)
    requires Valid(d) && AppInv(ps, d) && Progress(ps, d, ps1, d1) && ProgsStanding(ps1, d1, ps2, d2)
    ensures Progress(ps, d, ps2, d2)
  {
  }

  /** A pass that panics has only unloaded programs, so the record it leaves behind is still accounted for. */
  lemma PanicAccounted(ps: seq<ProgState>, d: Daemon, specs: seq<ProgSpec>, env: Env, uuid: nat)
    requires Valid(d) && AppInv(ps, d)
    ensures var (ps', d1) := UnloadUpTo(ps, |ps|, d);
            var d' := ReconcileProgs(specs, ps', d1, env, uuid).daemon;
            && Valid(d') && Frame(d, d', RecordedIds(ps)) && AppInv(ps, d')
            && d'.programs.Keys == d.programs.Keys - RecordedIds(ps) && d'.nextProgram == d.nextProgram
  {
    UnloadProgress(ps, d);
    UnloadKeys(ps, d);
    var (ps', d1) := UnloadUpTo(ps, |ps|, d);
    ReconcileProgsStanding(specs, ps', d1, env, uuid);
    var d' := ReconcileProgs(specs, ps', d1, env, uuid).daemon;
    FrameWider(d1, d', RecordedIds(ps'), RecordedIds(ps));
    FrameTransitive(d, d1, d', RecordedIds(ps));
    forall i | 0 <= i < |ps| ensures Accounted(ps[i].links, ps[i].programId, d') {
      AccountedFrame(ps[i].links, ps[i].programId, d1, d', {});
    }
  }

  // ---- panics ----

  lemma PanicsIff(spec: ProgSpec, prog: ProgState, d: Daemon, env: Env, uuid: nat)
    ensures ReconcileProgram(spec, prog, d, env, uuid).panicked <==>
              prog.programId.None? && Expand(spec.infos, env).ok && ExpectedKeys(spec.infos, env) != {}
  {
    var e, EK := Expand(spec.infos, env), ExpectedKeys(spec.infos, env);
    var es := Mint(e.points, uuid);
    var links := UpdateLinks(prog.links, es, env.netns);
    MintMembers(e.points, uuid);
    MintPoints(e.points, uuid);
    UpdateLinksMarks(prog.links, es, env.netns);
    if k :| k in EK {
      KeysAt(links, env.netns, k);
      var i := FindLink(links, k, env.netns).value;
      assert Wanted(links, EK, env.netns, i);
    }
  }

  /** The spec asks for a link on this node: the program is known, its attachments expand, and a key resolves. */
  predicate AsksForLink(spec: ProgSpec, ps: seq<ProgState>, env: Env) {
    FindProgState(spec, ps).Some? && Expand(spec.infos, env).ok && ExpectedKeys(spec.infos, env) != {}
  }

  predicate AnyAsks(specs: seq<ProgSpec>, ps: seq<ProgState>, env: Env) {
    exists i :: 0 <= i < |specs| && AsksForLink(specs[i], ps, env)
  }

  lemma AnyAsksSplit(specs: seq<ProgSpec>, ps: seq<ProgState>, ps': seq<ProgState>, env: Env)
    requires specs != [] && SameShape(ps, ps')
    ensures AnyAsks(specs, ps, env) <==> AsksForLink(specs[0], ps, env) || AnyAsks(specs[1..], ps', env)
  {
  }

  lemma {:induction false} LoadedNeverPanics(specs: seq<ProgSpec>, ps: seq<ProgState>, d: Daemon, env: Env, uuid: nat)
    requires Valid(d) && AppAccounted(ps, d) && forall i :: 0 <= i < |ps| ==> ps[i].programId.Some?
    ensures !ReconcileProgs(specs, ps, d, env, uuid).panicked
  {
    if specs != [] {
      var j := FindProgState(specs[0], ps);
      if j.None? {
        LoadedNeverPanics(specs[1..], ps, d, env, uuid);
      } else {
        var r := ReconcileProgram(specs[0], ps[j.value], d, env, uuid);
        PanicsIff(specs[0], ps[j.value], d, env, uuid);
        StepStanding(specs[0], ps, j.value, d, env, uuid);
        LoadedNeverPanics(specs[1..], ps[j.value := r.prog], r.daemon, env, r.uuid);
      }
    }
  }

  lemma {:induction false} UnloadedPanicsIff(specs: seq<ProgSpec>, ps: seq<ProgState>, d: Daemon, env: Env, uuid: nat)
    requires Valid(d) && AppAccounted(ps, d) && forall i :: 0 <= i < |ps| ==> ps[i].programId.None?
    ensures ReconcileProgs(specs, ps, d, env, uuid).panicked <==> AnyAsks(specs, ps, env)
  {
    hide AnyAsks;
    if specs == [] {
      NobodyAsks(ps, env);
    } else {
      var j := FindProgState(specs[0], ps);
      if j.None? {
        AnyAsksSplit(specs, ps, ps, env);
        UnloadedPanicsIff(specs[1..], ps, d, env, uuid);
      } else {
        var r := ReconcileProgram(specs[0], ps[j.value], d, env, uuid);
        PanicsIff(specs[0], ps[j.value], d, env, uuid);
        StepStanding(specs[0], ps, j.value, d, env, uuid);
        AnyAsksSplit(specs, ps, ps[j.value := r.prog], env);
        if !r.panicked {
          UnloadedPanicsIff(specs[1..], ps[j.value := r.prog], r.daemon, env, r.uuid);
        }
      }
    }
  }

  lemma NobodyAsks(ps: seq<ProgState>, env: Env)
    ensures !AnyAsks([], ps, env)
  {
  }

  lemma LoadedOrNone(app: App, status: AppStatus, d: Daemon, env: Env)
    requires Valid(d) && AppInv(status.programs, d) && ReconcileLoad(app, status, d, env).ok
    ensures var l, selected := ReconcileLoad(app, status, d, env), Selected(app.selector, env.labels);
            && selected.Some? && |l.status.programs| == |status.programs|
            && (if selected.value && !app.deleting then
                  && ProgramListMatches(app.programs, status.programs) && IsLoaded(l.status.programs, l.daemon)
                  && l.status.loadStatus == AppLoadSuccess
                  && (l.status.programs == status.programs || GoodLoad(status.programs, d, l.status.programs, l.daemon))
                else
                  (forall i :: 0 <= i < |status.programs| ==> l.status.programs[i].programId.None?))
  {
    hide ProgramListMatches;
    var selected := Selected(app.selector, env.labels);
    UnloadFacts(status.programs, |status.programs|, d);
    if selected.value && !app.deleting && !IsLoaded(status.programs, d) {
      LoadFacts(app, status.programs, d, env);
    }
  }

  /**
   Exactly when a visit panics: the node is not selected, the application is not being deleted, and some
   program of its spec asks for a link here.  The programs have just been unloaded, so the attach request
   finds no program id.
   */
  lemma VisitPanics(app: App, status: AppStatus, d: Daemon, env: Env, uuid: nat, now: nat)
    requires Valid(d) && AppInv(status.programs, d)
    ensures Visit(app, status, d, env, uuid, now).panicked <==>
              && Selected(app.selector, env.labels) == Some(false) && !app.deleting
              && AnyAsks(app.programs, status.programs, env)
  {
    hide Progress, AppAccounted, ProgramListMatches, GoodLoad;
    var l := ReconcileLoad(app, status, d, env);
    if l.ok && !app.deleting {
      LoadProgress(app, status, d, env);
      LoadedOrNone(app, status, d, env);
      ProgressInv(status.programs, d, l.status.programs, l.daemon);
      if Selected(app.selector, env.labels) == Some(true) {
        LoadedNeverPanics(app.programs, l.status.programs, l.daemon, env, uuid);
      } else {
        UnloadedPanicsIff(app.programs, l.status.programs, l.daemon, env, uuid);
        UnloadFacts(status.programs, |status.programs|, d);
        forall s ensures AsksForLink(s, l.status.programs, env) == AsksForLink(s, status.programs, env) {
          UnloadedFind(s, status.programs, l.status.programs);
        }
      }
    }
  }

  lemma ProgressInv(ps: seq<ProgState>, d: Daemon, ps': seq<ProgState>, d': Daemon)
    requires Progress(ps, d, ps', d')
    ensures Valid(d') && AppInv(ps', d') && AppAccounted(ps', d')
  {
  }

  lemma UnloadedFind(s: ProgSpec, ps: seq<ProgState>, ps': seq<ProgState>)
    requires |ps'| == |ps|
    requires forall i :: 0 <= i < |ps| ==> ps'[i].name == ps[i].name && ps'[i].kind == ps[i].kind && ps'[i].func == ps[i].func
    ensures FindProgState(s, ps') == FindProgState(s, ps)
  {
  }

  // ---- link accounting ----

  /** Link accounting survives every visit, whether it ends in success, in an error or in a panic. */
  lemma VisitProgress(app: App, status: AppStatus, d: Daemon, env: Env, uuid: nat, now: nat)
    requires Valid(d) && AppInv(status.programs, d)
    ensures var v := Visit(app, status, d, env, uuid, now); Progress(status.programs, d, v.status.programs, v.daemon)
  {
    hide AppAccounted, ProgramListMatches, GoodLoad, ProgsStanding;
    var l := ReconcileLoad(app, status, d, env);
    LoadProgress(app, status, d, env);
    if l.ok && !app.deleting {
      ReconcileProgsStanding(app.programs, l.status.programs, l.daemon, env, uuid);
      var r := ReconcileProgs(app.programs, l.status.programs, l.daemon, env, uuid);
      if r.panicked {
        VisitPanics(app, status, d, env, uuid, now);
        PanicAccounted(status.programs, d, app.programs, env, uuid);
      } else {
        ProgsProgress(status.programs, d, l.status.programs, l.daemon, r.programs, r.daemon);
      }
    }
  }

  // ---- nothing stays loaded without a record ----

  /** Either all of an application's programs are loaded, or none of the recorded ones is. */
  ghost predicate AllOrNone(ps: seq<ProgState>, d: Daemon) {
    IsLoaded(ps, d) || forall x :: x in RecordedIds(ps) ==> x !in d.programs
  }

  /** No program that was the application's, or is new, is loaded without being in its record. */
  ghost predicate NoneLost(ps: seq<ProgState>, d: Daemon, ps': seq<ProgState>, d': Daemon) {
    && AllOrNone(ps', d')
    && forall p :: p in d'.programs && (p in RecordedIds(ps) || d.nextProgram <= p) ==> p in RecordedIds(ps')
  }

  lemma LoadNoneLost(app: App, status: AppStatus, d: Daemon, env: Env)
    requires Valid(d) && AppInv(status.programs, d) && AllOrNone(status.programs, d)
    ensures var l := ReconcileLoad(app, status, d, env); NoneLost(status.programs, d, l.status.programs, l.daemon)
  {
    hide ProgramListMatches, AppAccounted;
    var ps := status.programs;
    var selected := Selected(app.selector, env.labels);
    if selected.Some? && (!selected.value || app.deleting) {
      UnloadKeys(ps, d);
      UnloadProgress(ps, d);
    } else if selected.Some? && ProgramListMatches(app.programs, ps) && !IsLoaded(ps, d) {
      LoadFacts(app, ps, d, env);
      var l := LoadApp(app, ps, d, env);
      if l.ok {
        forall p | p in l.daemon.programs && (p in RecordedIds(ps) || d.nextProgram <= p)
          ensures p in RecordedIds(l.programs)
        {
          RecordedHas(l.programs, p);
        }
      }
    }
  }

  lemma ProgsNoneLost(ps: seq<ProgState>, d: Daemon, ps1: seq<ProgState>, d1: Daemon, ps2: seq<ProgState>, d2: Daemon)
    requires NoneLost(ps, d, ps1, d1) && ProgsStanding(ps1, d1, ps2, d2)
    ensures NoneLost(ps, d, ps2, d2)
  {
  }

  /**
   If the application's programs were loaded all or none, then after the visit they still are, and whatever
   is left loaded of them is in the record; so a load never leaves the programs it replaces behind.
   */
  lemma VisitNoneLost(app: App, status: AppStatus, d: Daemon, env: Env, uuid: nat, now: nat)
    requires Valid(d) && AppInv(status.programs, d) && AllOrNone(status.programs, d)
    ensures var v := Visit(app, status, d, env, uuid, now); NoneLost(status.programs, d, v.status.programs, v.daemon)
  {
    hide AppAccounted, ProgramListMatches, GoodLoad, ProgsStanding, AnyAsks;
    var l := ReconcileLoad(app, status, d, env);
    LoadNoneLost(app, status, d, env);
    LoadProgress(app, status, d, env);
    if l.ok && !app.deleting {
      ReconcileProgsStanding(app.programs, l.status.programs, l.daemon, env, uuid);
      var r := ReconcileProgs(app.programs, l.status.programs, l.daemon, env, uuid);
      if r.panicked {
        VisitPanics(app, status, d, env, uuid, now);
        PanicAccounted(status.programs, d, app.programs, env, uuid);
        forall p | p in r.daemon.programs ensures p < d.nextProgram && p !in RecordedIds(status.programs) {
          assert p in r.daemon.programs.Keys;
        }
      } else {
        ProgsNoneLost(status.programs, d, l.status.programs, l.daemon, r.programs, r.daemon);
      }
    }
  }

  /** A visit to an application that is being deleted ends with no recorded program unless it ends in the error path. */
  lemma VisitReleases(app: App, status: AppStatus, d: Daemon, env: Env, uuid: nat, now: nat)
    requires app.deleting
    ensures var v := Visit(app, status, d, env, uuid, now);
            && !v.panicked
            && (!v.mustWrite ==> RecordedIds(v.status.programs) == {})
            && (v.mustWrite ==> v.status.programs == status.programs)
  {
    UnloadKeys(status.programs, d);
  }

  // ---- what Success means ----

  predicate HasCondition(conditions: seq<Condition>, c: CondType) {
    |conditions| == 1 && conditions[0].kind == c
  }

  /** In the daemon, the program of this spec holds exactly one link per expected key. */
  ghost predicate ProgramExact(spec: ProgSpec, ps: seq<ProgState>, d: Daemon, env: Env) {
    var j := FindProgState(spec, ps);
    && j.Some? && ps[j.value].programId.Some? && ps[j.value].programId.value in d.programs
    && Expand(spec.infos, env).ok
    && Exact(d.programs[ps[j.value].programId.value], ExpectedKeys(spec.infos, env), env.netns)
  }

  lemma SettledExact(spec: ProgSpec, ps: seq<ProgState>, d: Daemon, env: Env)
    requires Settles(spec, ps, d, env) && AppAccounted(ps, d) && IsLoaded(ps, d)
    requires FindProgState(spec, ps).Some? && ps[FindProgState(spec, ps).value].linkStatus == ProgAttachSuccess
    ensures ProgramExact(spec, ps, d, env)
  {
    var j := FindProgState(spec, ps).value;
    QuiescentExact(spec, ps[j], d, env, ps[j].programId.value);
  }

  lemma StandingLoaded(ps: seq<ProgState>, d: Daemon, ps': seq<ProgState>, d': Daemon)
    requires ProgsStanding(ps, d, ps', d') && IsLoaded(ps, d)
    ensures IsLoaded(ps', d')
  {
  }

  /** What is known after the loop over the programs of a selected application that loaded. */
  lemma LoopFacts(app: App, status: AppStatus, d: Daemon, env: Env, uuid: nat)
    requires Valid(d) && AppInv(status.programs, d)
    requires Selected(app.selector, env.labels) == Some(true) && !app.deleting
    requires ReconcileLoad(app, status, d, env).ok
    ensures var l := ReconcileLoad(app, status, d, env);
            var r := ReconcileProgs(app.programs, l.status.programs, l.daemon, env, uuid);
            && !r.panicked && IsLoaded(r.programs, r.daemon) && AppInv(r.programs, r.daemon) && Valid(r.daemon)
            && (forall s :: s in app.programs ==> Settles(s, r.programs, r.daemon, env))
            && r.found == AllFound(app.programs, r.programs)
            && r.daemon.faults == d.faults
            && ProgramListMatches(app.programs, r.programs)
  {
    hide AppAccounted, ProgramListMatches, GoodLoad, ProgsStanding, Settles;
    var l := ReconcileLoad(app, status, d, env);
    LoadProgress(app, status, d, env);
    LoadedOrNone(app, status, d, env);
    LoadedNeverPanics(app.programs, l.status.programs, l.daemon, env, uuid);
    ReconcileProgsStanding(app.programs, l.status.programs, l.daemon, env, uuid);
    var r := ReconcileProgs(app.programs, l.status.programs, l.daemon, env, uuid);
    StandingLoaded(l.status.programs, l.daemon, r.programs, r.daemon);
    ProgsProgress(status.programs, d, l.status.programs, l.daemon, r.programs, r.daemon);
    assert [] + app.programs == app.programs;
    MatchesDistinct(app.programs, status.programs);
    ReconcileProgsSettles([], app.programs, l.status.programs, l.daemon, env, uuid);
    ReconcileProgsFound(app.programs, l.status.programs, l.daemon, env, uuid);
    LoadedNames(app, status, d, env);
    StandingNames(app.programs, l.status.programs, l.daemon, r.programs, r.daemon);
  }

  lemma MatchesDistinct(specs: seq<ProgSpec>, ps: seq<ProgState>)
    requires ProgramListMatches(specs, ps)
    ensures DistinctSpecs(specs)
  {
  }

  lemma SameNamesMatch(specs: seq<ProgSpec>, ps: seq<ProgState>, ps': seq<ProgState>)
    requires ProgramListMatches(specs, ps) && |ps'| == |ps|
    requires forall i :: 0 <= i < |ps| ==> ps'[i].name == ps[i].name
    ensures ProgramListMatches(specs, ps')
  {
  }

  lemma LoadedNames(app: App, status: AppStatus, d: Daemon, env: Env)
    requires Valid(d) && AppInv(status.programs, d) && ReconcileLoad(app, status, d, env).ok
    requires Selected(app.selector, env.labels) == Some(true) && !app.deleting
    ensures ProgramListMatches(app.programs, ReconcileLoad(app, status, d, env).status.programs)
  {
    hide ProgramListMatches, AppAccounted;
    LoadedOrNone(app, status, d, env);
    SameNamesMatch(app.programs, status.programs, ReconcileLoad(app, status, d, env).status.programs);
  }

  lemma StandingNames(specs: seq<ProgSpec>, ps: seq<ProgState>, d: Daemon, ps': seq<ProgState>, d': Daemon)
    requires ProgsStanding(ps, d, ps', d') && ProgramListMatches(specs, ps)
    ensures ProgramListMatches(specs, ps') && AllFound(specs, ps') == AllFound(specs, ps)
  {
  }

  /**
   Soundness of Success on a node: a visit to a selected, live application that ends in Success leaves the
   daemon holding, for every program of the spec, exactly one link per expected key whose namespace resolves.
   */
  lemma SuccessIsExact(app: App, status: AppStatus, d: Daemon, env: Env, uuid: nat, now: nat)
    requires Valid(d) && AppInv(status.programs, d)
    requires Selected(app.selector, env.labels) == Some(true) && !app.deleting
    ensures var v := Visit(app, status, d, env, uuid, now);
            HasCondition(v.status.conditions, CondSuccess) ==>
              && !v.panicked && !v.mustWrite
              && forall s :: s in app.programs ==> ProgramExact(s, v.status.programs, v.daemon, env)
  {
    hide ProgramListMatches, ProgramExact, AppInv, Valid, IsLoaded, ReconcileLoad, GoodLoad;
    var l := ReconcileLoad(app, status, d, env);
    if l.ok {
      LoopFacts(app, status, d, env, uuid);
      LoadedOrNone(app, status, d, env);
      var r := ReconcileProgs(app.programs, l.status.programs, l.daemon, env, uuid);
      if r.found && forall p :: p in r.programs ==> p.linkStatus == ProgAttachSuccess {
        SettledAllExact(app.programs, r.programs, r.daemon, env);
      }
    }
  }

  lemma SettledAllExact(specs: seq<ProgSpec>, ps: seq<ProgState>, d: Daemon, env: Env)
    requires AppInv(ps, d) && IsLoaded(ps, d) && AllFound(specs, ps)
    requires forall s :: s in specs ==> Settles(s, ps, d, env)
    requires forall p :: p in ps ==> p.linkStatus == ProgAttachSuccess
    ensures forall s :: s in specs ==> ProgramExact(s, ps, d, env)
  {
    hide Settles, ProgramExact, AppAccounted;
    forall s | s in specs ensures ProgramExact(s, ps, d, env) {
      assert ps[FindProgState(s, ps).value] in ps;
      SettledExact(s, ps, d, env);
    }
  }

  // ---- visits that change nothing ----

  lemma QuiescentReordered(spec: ProgSpec, prog: ProgState, d: Daemon, env: Env, env': Env)
    requires Quiescent(spec, prog, d, env) && Reordered(env, env')
    ensures Quiescent(spec, prog, d, env')
  {
    ReorderedExpectation(spec.infos, env, env');
  }

  /**
   A visit to a selected, live application that ended in Success, or during which no call could fail, is
   followed by visits that issue no call and change no field, whatever the order of the interface map, the
   uuids minted and the time.
   */
  lemma VisitStable(
    app: App, status: AppStatus, d: Daemon, env: Env, uuid: nat, now: nat, env': Env, uuid': nat, now': nat, count: nat)
    requires Valid(d) && AppInv(status.programs, d) && Reordered(env, env')
    requires Selected(app.selector, env.labels) == Some(true) && !app.deleting
    requires !Visit(app, status, d, env, uuid, now).mustWrite
    requires || HasCondition(Visit(app, status, d, env, uuid, now).status.conditions, CondSuccess)
             || (d.faults == {} && AllFound(app.programs, ReconcileLoad(app, status, d, env).status.programs))
    ensures var v := Visit(app, status, d, env, uuid, now);
            var s := v.status.(updateCount := count);
            var v' := Visit(app, s, v.daemon, env', uuid', now');
            v'.status == s && v'.daemon == v.daemon && !v'.mustWrite && !v'.panicked
  {
    hide ProgramListMatches, AppAccounted, AppInv, Quiescent;
    var l := ReconcileLoad(app, status, d, env);
    LoopFacts(app, status, d, env, uuid);
    LoadedOrNone(app, status, d, env);
    var r := ReconcileProgs(app.programs, l.status.programs, l.daemon, env, uuid);
    LoopFound(app, status, d, env, uuid);
    var v := Visit(app, status, d, env, uuid, now);
    assert r.found;
    AllQuiescent(app.programs, r.programs, r.daemon, env, env');
    ReconcileProgsNoop(app.programs, r.programs, r.daemon, env', uuid');
  }

  lemma AllQuiescent(specs: seq<ProgSpec>, ps: seq<ProgState>, d: Daemon, env: Env, env': Env)
    requires IsLoaded(ps, d) && Reordered(env, env') && forall s :: s in specs ==> Settles(s, ps, d, env)
    requires d.faults == {} || forall p :: p in ps ==> p.linkStatus == ProgAttachSuccess
    ensures forall s :: s in specs && FindProgState(s, ps).Some? ==> Quiescent(s, ps[FindProgState(s, ps).value], d, env')
  {
    hide Quiescent;
    forall s | s in specs && FindProgState(s, ps).Some?
      ensures Quiescent(s, ps[FindProgState(s, ps).value], d, env')
    {
      var j := FindProgState(s, ps).value;
      assert ps[j] in ps && Settles(s, ps, d, env);
      QuiescentReordered(s, ps[j], d, env, env');
    }
  }

  lemma LoopFound(app: App, status: AppStatus, d: Daemon, env: Env, uuid: nat)
    requires Valid(d) && AppInv(status.programs, d)
    requires Selected(app.selector, env.labels) == Some(true) && !app.deleting
    requires ReconcileLoad(app, status, d, env).ok
    ensures var l := ReconcileLoad(app, status, d, env);
            ReconcileProgs(app.programs, l.status.programs, l.daemon, env, uuid).found ==
            AllFound(app.programs, l.status.programs)
  {
    hide AppAccounted, ProgramListMatches, GoodLoad;
    var l := ReconcileLoad(app, status, d, env);
    LoadProgress(app, status, d, env);
    LoadedOrNone(app, status, d, env);
    LoadedNeverPanics(app.programs, l.status.programs, l.daemon, env, uuid);
    ReconcileProgsFound(app.programs, l.status.programs, l.daemon, env, uuid);
  }

  lemma {:induction false} UnloadedAgain(ps: seq<ProgState>, n: nat, d: Daemon)
    requires n <= |ps| && forall i :: 0 <= i < |ps| ==> ps[i].programId.None? && ps[i].linkStatus == ProgAttachSuccess
    ensures UnloadUpTo(ps, n, d) == (ps, d)
  {
    if n > 0 {
      UnloadedAgain(ps, n - 1, d);
      assert ps[n - 1 := ps[n - 1]] == ps;
    }
  }

  /** An application that is being deleted is left alone once it has been unloaded, in a condition that is no failure. */
  lemma DeletingStable(
    app: App, status: AppStatus, d: Daemon, env: Env, uuid: nat, now: nat, env': Env, uuid': nat, now': nat, count: nat)
    requires app.deleting && env'.labels == env.labels && Selected(app.selector, env.labels).Some?
    ensures var v := Visit(app, status, d, env, uuid, now);
            var s := v.status.(updateCount := count);
            var v' := Visit(app, s, v.daemon, env', uuid', now');
            && v'.status == s && v'.daemon == v.daemon && !v'.mustWrite && !v'.panicked && !v.mustWrite
            && !IsFailure(v.status.conditions)
  {
    var ps := status.programs;
    UnloadFacts(ps, |ps|, d);
    var (ps', d') := UnloadUpTo(ps, |ps|, d);
    UnloadedAgain(ps', |ps'|, d');
  }

  /** Entry j is out of reach of the remaining specs. */
  lemma {:induction false} Untouched(specs: seq<ProgSpec>, ps: seq<ProgState>, j: nat, d: Daemon, env: Env, uuid: nat)
    requires Valid(d) && AppAccounted(ps, d) && j < |ps|
    requires forall i :: 0 <= i < |specs| ==> FindProgState(specs[i], ps) != Some(j)
    ensures var r := ReconcileProgs(specs, ps, d, env, uuid); |r.programs| == |ps| && r.programs[j] == ps[j]
  {
    if specs != [] {
      var rest := specs[1..];
      assert forall i :: 0 <= i < |rest| ==> rest[i] == specs[i + 1];
      var k := FindProgState(specs[0], ps);
      if k.None? {
        Untouched(rest, ps, j, d, env, uuid);
      } else {
        var r := ReconcileProgram(specs[0], ps[k.value], d, env, uuid);
        var ps' := ps[k.value := r.prog];
        StepStanding(specs[0], ps, k.value, d, env, uuid);
        forall i | 0 <= i < |rest| ensures FindProgState(rest[i], ps') != Some(j) {
          SameShapeFind(rest[i], ps, ps');
        }
        if !r.panicked {
          Untouched(rest, ps', j, r.daemon, env, r.uuid);
        }
      }
    }
  }

  /** The loaded programs, their links and the id counters are the same. */
  predicate SameHoldings(d: Daemon, d': Daemon) {
    d'.programs == d.programs && d'.nextLink == d.nextLink && d'.nextProgram == d.nextProgram
  }

  lemma {:induction false} UnchangedProgs(specs: seq<ProgSpec>, ps: seq<ProgState>, d: Daemon, env: Env, uuid: nat)
    requires Valid(d) && AppAccounted(ps, d) && DistinctSpecs(specs)
    requires ReconcileProgs(specs, ps, d, env, uuid).programs == ps && !ReconcileProgs(specs, ps, d, env, uuid).panicked
    ensures SameHoldings(d, ReconcileProgs(specs, ps, d, env, uuid).daemon)
  {
    if specs != [] {
      var rest := specs[1..];
      assert forall i :: 0 <= i < |rest| ==> rest[i] == specs[i + 1];
      var k := FindProgState(specs[0], ps);
      if k.None? {
        UnchangedProgs(rest, ps, d, env, uuid);
      } else {
        var j := k.value;
        var r := ReconcileProgram(specs[0], ps[j], d, env, uuid);
        var ps' := ps[j := r.prog];
        StepStanding(specs[0], ps, j, d, env, uuid);
        forall i | 0 <= i < |rest| ensures FindProgState(rest[i], ps') != Some(j) {
          SameShapeFind(rest[i], ps, ps');
        }
        Untouched(rest, ps', j, r.daemon, env, r.uuid);
        assert r.prog == ps[j] && ps' == ps;
        UnchangedProgram(specs[0], ps[j], d, env, uuid);
        UnchangedProgs(rest, ps', r.daemon, env, r.uuid);
      }
    }
  }

  lemma {:induction false} UnloadedIdle(specs: seq<ProgSpec>, ps: seq<ProgState>, d: Daemon, env: Env, uuid: nat)
    requires forall i :: 0 <= i < |ps| ==> ps[i].programId.None?
    ensures ReconcileProgs(specs, ps, d, env, uuid).daemon == d
  {
    if specs != [] {
      var k := FindProgState(specs[0], ps);
      if k.None? {
        UnloadedIdle(specs[1..], ps, d, env, uuid);
      } else {
        UnloadedProgram(specs[0], ps[k.value], d, env, uuid);
        var r := ReconcileProgram(specs[0], ps[k.value], d, env, uuid);
        if !r.panicked {
          UnloadedIdle(specs[1..], ps[k.value := r.prog], d, env, r.uuid);
        }
      }
    }
  }

  lemma UnloadedProgram(spec: ProgSpec, prog: ProgState, d: Daemon, env: Env, uuid: nat)
    requires prog.programId.None?
    ensures var r := ReconcileProgram(spec, prog, d, env, uuid); r.daemon == d && r.prog.programId.None?
  {
    var e := Expand(spec.infos, env);
    var links := UpdateLinks(prog.links, Mint(e.points, uuid), env.netns);
    if e.ok && !Panics(links, None) {
      UnloadedLinks(links, |links|, d);
    }
  }

  lemma {:induction false} UnloadedLinks(links: seq<Link>, n: nat, d: Daemon)
    requires n <= |links| && !Panics(links, None)
    ensures ReconcileUpTo(links, n, None, d).1 == d
  {
    if n > 0 {
      UnloadedLinks(links, n - 1, d);
    }
  }

  lemma LoadUnchanged(app: App, status: AppStatus, d: Daemon, env: Env)
    requires Valid(d) && AppInv(status.programs, d)
    requires Selected(app.selector, env.labels) == Some(true) && !app.deleting
    requires ReconcileLoad(app, status, d, env).ok
    requires forall i :: 0 <= i < |status.programs| ==>
               ReconcileLoad(app, status, d, env).status.programs[i].programId == status.programs[i].programId
    ensures ReconcileLoad(app, status, d, env).daemon == d
    ensures ReconcileLoad(app, status, d, env).status.programs == status.programs
  {
    hide ProgramListMatches, Frame;
    var ps := status.programs;
    if !IsLoaded(ps, d) {
      LoadFacts(app, ps, d, env);
      var l := LoadApp(app, ps, d, env);
    }
  }

  /**
   No unrecorded effect: a visit that neither panics nor takes the error path, and leaves the programs' record
   as it was, leaves the daemon's programs and links as they were.
   */
  lemma UnchangedVisit(app: App, status: AppStatus, d: Daemon, env: Env, uuid: nat, now: nat)
    requires Valid(d) && AppInv(status.programs, d)
    requires !Visit(app, status, d, env, uuid, now).panicked && !Visit(app, status, d, env, uuid, now).mustWrite
    requires Visit(app, status, d, env, uuid, now).status.programs == status.programs
    ensures SameHoldings(d, Visit(app, status, d, env, uuid, now).daemon)
  {
    hide ProgramListMatches, AppAccounted, GoodLoad, ProgsStanding;
    var ps, l := status.programs, ReconcileLoad(app, status, d, env);
    LoadProgress(app, status, d, env);
    LoadedOrNone(app, status, d, env);
    var r := ReconcileProgs(app.programs, l.status.programs, l.daemon, env, uuid);
    ReconcileProgsStanding(app.programs, l.status.programs, l.daemon, env, uuid);
    if Selected(app.selector, env.labels).value && !app.deleting {
      StandingIds(l.status.programs, l.daemon, r.programs, r.daemon);
      LoadUnchanged(app, status, d, env);
      MatchesDistinct(app.programs, ps);
      UnchangedProgs(app.programs, ps, d, env, uuid);
    } else {
      StandingIds(l.status.programs, l.daemon, r.programs, r.daemon);
      assert forall i :: 0 <= i < |ps| ==> ps[i].programId.None?;
      UnloadNone(ps, |ps|, d);
      UnloadedIdle(app.programs, l.status.programs, l.daemon, env, uuid);
    }
  }

  lemma StandingIds(ps: seq<ProgState>, d: Daemon, ps': seq<ProgState>, d': Daemon)
    requires ProgsStanding(ps, d, ps', d')
    ensures |ps'| == |ps| && forall i :: 0 <= i < |ps| ==> ps'[i].programId == ps[i].programId
  {
  }
}
