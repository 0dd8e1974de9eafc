/** Which daemon calls a visit makes, and what a failed expansion leaves alone. */
module Requests {
  import opened Types
  import opened Links
  import opened Daemons
  import opened Expansion
  import opened Programs
  import opened Application
  import opened ApplicationProofs
  import opened VisitProofs

  // ---- the calls for one program ----

  /** The call attaches or detaches one of these links. */
  ghost predicate LinkCall(c: Call, links: seq<Link>, pid: Option<nat>) {
    match c
    case AttachCall(p, point, u) =>
      pid == Some(p) && exists j :: 0 <= j < |links| && links[j].shouldAttach && links[j].point == point && links[j].uuid == u
    case DetachCall(l) => exists j :: 0 <= j < |links| && !links[j].shouldAttach && links[j].linkId == Some(l)
    case _ => false
  }

  lemma {:induction false} UpToCalls(links: seq<Link>, n: nat, pid: Option<nat>, d: Daemon)
    requires n <= |links| && !Panics(links, pid)
    ensures var d' := ReconcileUpTo(links, n, pid, d).1;
            d.log <= d'.log && forall k :: |d.log| <= k < |d'.log| ==> LinkCall(d'.log[k], links, pid)
  {
    if n > 0 {
      UpToCalls(links, n - 1, pid, d);
      var (ls, d1) := ReconcileUpTo(links, n - 1, pid, d);
      var d' := ReconcileUpTo(links, n, pid, d).1;
      assert ls[n - 1] == links[n - 1];
      forall k | |d.log| <= k < |d'.log| ensures LinkCall(d'.log[k], links, pid) {
        if k < |d1.log| {
          assert d'.log[k] == d1.log[k];
        }
      }
    }
  }

  /** Attach what the spec asks for; detach a recorded link that it does not ask for. */
  ghost predicate ProgramCall(c: Call, spec: ProgSpec, prog: ProgState, env: Env) {
    var EK := ExpectedKeys(spec.infos, env);
    && Expand(spec.infos, env).ok
    && match c
       case AttachCall(p, point, _) =>
         prog.programId == Some(p) && KeyOf(point, env.netns).Some? && KeyOf(point, env.netns).value in EK
       case DetachCall(l) =>
         exists j :: 0 <= j < |prog.links| && prog.links[j].linkId == Some(l) && !Wanted(prog.links, EK, env.netns, j)
       case _ => false
  }

  lemma MarkedCall(c: Call, spec: ProgSpec, prog: ProgState, env: Env, uuid: nat)
    requires Expand(spec.infos, env).ok
    requires LinkCall(c, UpdateLinks(prog.links, Mint(Expand(spec.infos, env).points, uuid), env.netns), prog.programId)
    ensures ProgramCall(c, spec, prog, env)
  {
    var e, EK := Expand(spec.infos, env), ExpectedKeys(spec.infos, env);
    var es := Mint(e.points, uuid);
    var links := UpdateLinks(prog.links, es, env.netns);
    MintMembers(e.points, uuid);
    MintPoints(e.points, uuid);
    UpdateLinksMarks(prog.links, es, env.netns);
    UpdateLinksIds(prog.links, es, env.netns);
    match c
    case AttachCall(p, point, _) => {
      var j :| 0 <= j < |links| && links[j].shouldAttach && links[j].point == point;
      assert Wanted(links, EK, env.netns, j);
    }
    case DetachCall(l) => {
      var j :| 0 <= j < |links| && !links[j].shouldAttach && links[j].linkId == Some(l);
      assert !Wanted(links, EK, env.netns, j);
      assert forall i :: 0 <= i <= j ==> links[i].point == prog.links[i].point;
      assert !Wanted(prog.links, EK, env.netns, j);
    }
    case _ =>
  }

  lemma ProgramCalls(spec: ProgSpec, prog: ProgState, d: Daemon, env: Env, uuid: nat)
    ensures var d' := ReconcileProgram(spec, prog, d, env, uuid).daemon;
            d.log <= d'.log && forall k :: |d.log| <= k < |d'.log| ==> ProgramCall(d'.log[k], spec, prog, env)
  {
    hide LinkCall, ProgramCall;
    var e := Expand(spec.infos, env);
    var links := UpdateLinks(prog.links, Mint(e.points, uuid), env.netns);
    if e.ok && !Panics(links, prog.programId) {
      UpToCalls(links, |links|, prog.programId, d);
      var d' := ReconcileUpTo(links, |links|, prog.programId, d).1;
      forall k | |d.log| <= k < |d'.log| ensures ProgramCall(d'.log[k], spec, prog, env) {
        MarkedCall(d'.log[k], spec, prog, env, uuid);
      }
    }
  }

  /** Every link is attached under the uuid of a marked entry for its place that the program is left with. */
  lemma AttachesAsRecorded(spec: ProgSpec, prog: ProgState, d: Daemon, env: Env, uuid: nat, k: nat)
    requires |d.log| <= k < |ReconcileProgram(spec, prog, d, env, uuid).daemon.log|
    ensures var r := ReconcileProgram(spec, prog, d, env, uuid);
            var c := r.daemon.log[k];
            c.AttachCall? ==>
              exists l :: l in r.prog.links && l.shouldAttach && l.uuid == c.uuid && l.point == c.point
  {
    var e := Expand(spec.infos, env);
    var links := UpdateLinks(prog.links, Mint(e.points, uuid), env.netns);
    var (ls, d') := ReconcileUpTo(links, |links|, prog.programId, d);
    UpToCalls(links, |links|, prog.programId, d);
    var c := d'.log[k];
    if c.AttachCall? {
      var j :| 0 <= j < |links| && links[j].shouldAttach && links[j].point == c.point && links[j].uuid == c.uuid;
      assert ls[j] in ls && ls[j] in Kept(ls);
    }
  }

  // ---- the calls of a visit ----

  /** The call is for some program of the specs, as its entry stands in `ps`. */
  ghost predicate SomeProgramCall(c: Call, specs: seq<ProgSpec>, ps: seq<ProgState>, env: Env) {
    exists i :: 0 <= i < |specs| && FindProgState(specs[i], ps).Some? &&
                ProgramCall(c, specs[i], ps[FindProgState(specs[i], ps).value], env)
  }

  lemma LaterCall(c: Call, specs: seq<ProgSpec>, ps: seq<ProgState>, ps': seq<ProgState>, env: Env)
    requires specs != [] && SomeProgramCall(c, specs[1..], ps', env)
    requires forall i :: 1 <= i < |specs| ==> FindProgState(specs[i], ps') == FindProgState(specs[i], ps)
    requires |ps'| == |ps|
    requires forall i :: 1 <= i < |specs| && FindProgState(specs[i], ps).Some? ==>
               ps'[FindProgState(specs[i], ps).value] == ps[FindProgState(specs[i], ps).value]
    ensures SomeProgramCall(c, specs, ps, env)
  {
  }

  lemma {:induction false} ProgsCalls(specs: seq<ProgSpec>, ps: seq<ProgState>, d: Daemon, env: Env, uuid: nat)
    requires Valid(d) && AppAccounted(ps, d) && DistinctSpecs(specs)
    ensures var d' := ReconcileProgs(specs, ps, d, env, uuid).daemon;
            d.log <= d'.log && forall k :: |d.log| <= k < |d'.log| ==> SomeProgramCall(d'.log[k], specs, ps, env)
  {
    hide ProgramCall, AppAccounted, SomeProgramCall;
    if specs != [] {
      var rest, f := specs[1..], FindProgState(specs[0], ps);
      var d' := ReconcileProgs(specs, ps, d, env, uuid).daemon;
      if f.None? {
        ProgsCalls(rest, ps, d, env, uuid);
        forall k | |d.log| <= k < |d'.log| ensures SomeProgramCall(d'.log[k], specs, ps, env) {
          LaterCall(d'.log[k], specs, ps, ps, env);
        }
      } else {
        var j := f.value;
        var r := ReconcileProgram(specs[0], ps[j], d, env, uuid);
        var ps' := ps[j := r.prog];
        StepStanding(specs[0], ps, j, d, env, uuid);
        StandingAccounted(ps, d, ps', r.daemon);
        ProgramCalls(specs[0], ps[j], d, env, uuid);
        if !r.panicked {
          ProgsCalls(rest, ps', r.daemon, env, r.uuid);
        }
        forall k | |d.log| <= k < |d'.log| ensures SomeProgramCall(d'.log[k], specs, ps, env) {
          if k < |r.daemon.log| {
            assert d'.log[k] == r.daemon.log[k];
            FirstCall(d'.log[k], specs, ps, env);
          } else {
            forall i | 1 <= i < |specs| ensures FindProgState(specs[i], ps') == FindProgState(specs[i], ps) {
              SameShapeFind(specs[i], ps, ps');
            }
            LaterCall(d'.log[k], specs, ps, ps', env);
          }
        }
      }
    }
  }

  lemma FirstCall(c: Call, specs: seq<ProgSpec>, ps: seq<ProgState>, env: Env)
    requires specs != [] && FindProgState(specs[0], ps).Some?
    requires ProgramCall(c, specs[0], ps[FindProgState(specs[0], ps).value], env)
    ensures SomeProgramCall(c, specs, ps, env)
  {
  }

  lemma {:induction false} UnloadCalls(ps: seq<ProgState>, n: nat, d: Daemon)
    requires n <= |ps|
    ensures var d' := UnloadUpTo(ps, n, d).1;
            && d.log <= d'.log
            && forall k :: |d.log| <= k < |d'.log| ==> d'.log[k].UnloadCall? && RecordsId(ps, d'.log[k].programId)
  {
    if n > 0 {
      UnloadCalls(ps, n - 1, d);
      var (ps1, d1) := UnloadUpTo(ps, n - 1, d);
      var d' := UnloadUpTo(ps, n, d).1;
      assert ps1[n - 1] == ps[n - 1];
      forall k | |d.log| <= k < |d'.log| ensures d'.log[k].UnloadCall? && RecordsId(ps, d'.log[k].programId) {
        if k < |d1.log| {
          assert d'.log[k] == d1.log[k];
        } else {
          assert ps[n - 1].programId == Some(d'.log[k].programId);
        }
      }
    }
  }

  /** What a visit may ask of the daemon. */
  ghost predicate VisitCall(c: Call, app: App, status: AppStatus, d: Daemon, env: Env) {
    var live := Selected(app.selector, env.labels) == Some(true) && !app.deleting;
    var l := ReconcileLoad(app, status, d, env);
    match c
    case LoadCall(names) =>
      && live && names == SpecNames(app.programs)
      && ProgramListMatches(app.programs, status.programs) && AllFound(app.programs, status.programs)
      && !IsLoaded(status.programs, d)
    case UnloadCall(p) =>
      (app.deleting || Selected(app.selector, env.labels) == Some(false)) && RecordsId(status.programs, p)
    case _ => live && IsLoaded(l.status.programs, l.daemon) && SomeProgramCall(c, app.programs, l.status.programs, env)
  }

  lemma LoadCalls(app: App, status: AppStatus, d: Daemon, env: Env)
    ensures var d' := ReconcileLoad(app, status, d, env).daemon;
            d.log <= d'.log && forall k :: |d.log| <= k < |d'.log| ==> VisitCall(d'.log[k], app, status, d, env)
  {
    hide ProgramListMatches, SomeProgramCall, AllFound, IsLoaded;
    UnloadCalls(status.programs, |status.programs|, d);
  }

  /**
   Every call a visit makes: Load only for all programs of a live, selected application at once, under distinct
   names that are the state's; Unload only of a recorded program of an application that is being deleted or
   does not select the node; Attach only to a loaded program, at a place its spec asks for; Detach only of a
   link recorded where the spec does not ask for one.
   */
  lemma VisitCalls(app: App, status: AppStatus, d: Daemon, env: Env, uuid: nat, now: nat, k: nat)
    requires Valid(d) && AppInv(status.programs, d)
    requires |d.log| <= k < |Visit(app, status, d, env, uuid, now).daemon.log|
    ensures VisitCall(Visit(app, status, d, env, uuid, now).daemon.log[k], app, status, d, env)
  {
    hide AppAccounted, ProgramListMatches, SomeProgramCall, GoodLoad, Progress, ReconcileLoad, IsLoaded;
    var l := ReconcileLoad(app, status, d, env);
    var v := Visit(app, status, d, env, uuid, now);
    LoadProgress(app, status, d, env);
    ProgressInv(status.programs, d, l.status.programs, l.daemon);
    LoadCalls(app, status, d, env);
    if l.ok && !app.deleting {
      LoadedOrNone(app, status, d, env);
      if Selected(app.selector, env.labels) == Some(true) {
        MatchesDistinct(app.programs, status.programs);
        ProgsCalls(app.programs, l.status.programs, l.daemon, env, uuid);
        if k < |l.daemon.log| {
          assert v.daemon.log[k] == l.daemon.log[k];
        } else {
          ProgramCallKind(v.daemon.log[k], app.programs, l.status.programs, env);
        }
      } else {
        UnloadedIdle(app.programs, l.status.programs, l.daemon, env, uuid);
      }
    }
  }

  lemma ProgramCallKind(c: Call, specs: seq<ProgSpec>, ps: seq<ProgState>, env: Env)
    requires SomeProgramCall(c, specs, ps, env)
    ensures c.AttachCall? || c.DetachCall?
  {
  }

  // ---- failed expansions ----

  /** Prior entries are as they were but for their marks; new ones have no link id. */
  ghost predicate KeepsEntries(links: seq<Link>, links': seq<Link>) {
    && |links| <= |links'|
    && (forall i :: 0 <= i < |links| ==> links'[i] == links[i].(shouldAttach := links'[i].shouldAttach))
    && (forall i :: |links| <= i < |links'| ==> links'[i].linkId.None?)
  }

  ghost predicate KeepsLinks(prog: ProgState, prog': ProgState) {
    prog'.programId == prog.programId && KeepsEntries(prog.links, prog'.links)
  }

  ghost predicate SameLinks(p: Option<nat>, d: Daemon, d': Daemon) {
    p.Some? && p.value in d.programs ==> p.value in d'.programs && d'.programs[p.value] == d.programs[p.value]
  }

  lemma KeepsLinksTransitive(p0: ProgState, p1: ProgState, p2: ProgState)
    requires KeepsLinks(p0, p1) && KeepsLinks(p1, p2)
    ensures KeepsLinks(p0, p2)
  {
  }

  lemma OtherSameLinks(spec: ProgSpec, ps: seq<ProgState>, k: nat, j: nat, d: Daemon, env: Env, uuid: nat)
    requires Valid(d) && AppAccounted(ps, d) && k < |ps| && j < |ps| && k != j
    ensures SameLinks(ps[j].programId, d, ReconcileProgram(spec, ps[k], d, env, uuid).daemon)
  {
    ProgramStanding(spec, ps[k], d, env, uuid);
    assert ps[k].programId.Some? ==> ps[k].programId != ps[j].programId;
  }

  lemma {:induction false} FailedLoop(specs: seq<ProgSpec>, ps: seq<ProgState>, j: nat, d: Daemon, env: Env, uuid: nat)
    requires Valid(d) && AppAccounted(ps, d) && j < |ps|
    requires forall i :: 0 <= i < |specs| && FindProgState(specs[i], ps) == Some(j) ==> !Expand(specs[i].infos, env).ok
    ensures var r := ReconcileProgs(specs, ps, d, env, uuid);
            |r.programs| == |ps| && KeepsLinks(ps[j], r.programs[j]) && SameLinks(ps[j].programId, d, r.daemon)
  {
    hide AppAccounted;
    if specs != [] {
      var rest, f := specs[1..], FindProgState(specs[0], ps);
      assert forall i :: 0 <= i < |rest| ==> rest[i] == specs[i + 1];
      if f.None? {
        FailedLoop(rest, ps, j, d, env, uuid);
      } else {
        var k := f.value;
        var r := ReconcileProgram(specs[0], ps[k], d, env, uuid);
        var ps' := ps[k := r.prog];
        StepStanding(specs[0], ps, k, d, env, uuid);
        StandingAccounted(ps, d, ps', r.daemon);
        if k == j {
          FailedExpansion(specs[0], ps[j], d, env, uuid);
        } else {
          OtherSameLinks(specs[0], ps, k, j, d, env, uuid);
        }
        if !r.panicked {
          forall i | 0 <= i < |rest| ensures FindProgState(rest[i], ps') == FindProgState(rest[i], ps) {
            SameShapeFind(rest[i], ps, ps');
          }
          FailedLoop(rest, ps', j, r.daemon, env, r.uuid);
          KeepsLinksTransitive(ps[j], ps'[j], ReconcileProgs(rest, ps', r.daemon, env, r.uuid).programs[j]);
        }
      }
    }
  }

  /**
   When the expected links of one program of a live application cannot be computed, a visit that gets past
   loading, whether the programs were loaded already, are loaded now or are loaded again, keeps every entry of
   its list, attaches and detaches no link of it, cannot end in Success, and still settles the application's
   other programs.
   */
  lemma FailedExpansionIsConfined(
    app: App, status: AppStatus, d: Daemon, env: Env, uuid: nat, now: nat, bad: ProgSpec, j: nat)
    requires Valid(d) && AppInv(status.programs, d) && !app.deleting
    requires Selected(app.selector, env.labels) == Some(true) && ReconcileLoad(app, status, d, env).ok
    requires bad in app.programs && FindProgState(bad, status.programs) == Some(j) && !Expand(bad.infos, env).ok
    ensures var l, v := ReconcileLoad(app, status, d, env), Visit(app, status, d, env, uuid, now);
            && |v.status.programs| == |l.status.programs| == |status.programs|
            && KeepsEntries(status.programs[j].links, v.status.programs[j].links)
            && v.status.programs[j].programId == l.status.programs[j].programId
            && SameLinks(l.status.programs[j].programId, l.daemon, v.daemon)
            && !HasCondition(v.status.conditions, CondSuccess)
            && forall s :: s in app.programs ==> Settles(s, v.status.programs, v.daemon, env)
  {
    hide ProgramListMatches, AppAccounted, Settles, ProgramExact, IsLoaded, ReconcileLoad, GoodLoad, Progress, SameLinks;
    var l := ReconcileLoad(app, status, d, env);
    LoadProgress(app, status, d, env);
    ProgressInv(status.programs, d, l.status.programs, l.daemon);
    LoopFacts(app, status, d, env, uuid);
    LoadedEntries(app, status, d, env);
    UnloadedFind(bad, status.programs, l.status.programs);
    MatchesDistinct(app.programs, status.programs);
    OnlyFinder(app.programs, l.status.programs, bad, j);
    FailedLoop(app.programs, l.status.programs, j, l.daemon, env, uuid);
    SuccessIsExact(app, status, d, env, uuid, now);
    var v := Visit(app, status, d, env, uuid, now);
    if HasCondition(v.status.conditions, CondSuccess) {
      ExactExpands(bad, v.status.programs, v.daemon, env);
    }
  }

  /** Loading changes program ids only. */
  lemma LoadedEntries(app: App, status: AppStatus, d: Daemon, env: Env)
    requires Valid(d) && AppInv(status.programs, d) && !app.deleting
    requires Selected(app.selector, env.labels) == Some(true) && ReconcileLoad(app, status, d, env).ok
    ensures var ps, ps' := status.programs, ReconcileLoad(app, status, d, env).status.programs;
            && |ps'| == |ps| && ProgramListMatches(app.programs, ps)
            && forall i :: 0 <= i < |ps| ==> ps'[i] == ps[i].(programId := ps'[i].programId)
  {
    hide ProgramListMatches, AppAccounted, IsLoaded, ReconcileLoad;
    LoadedOrNone(app, status, d, env);
  }

  /** No other program of the specs has the entry that `bad` has. */
  lemma OnlyFinder(specs: seq<ProgSpec>, ps: seq<ProgState>, bad: ProgSpec, j: nat)
    requires DistinctSpecs(specs) && bad in specs && FindProgState(bad, ps) == Some(j)
    ensures forall i :: 0 <= i < |specs| && FindProgState(specs[i], ps) == Some(j) ==> specs[i] == bad
  {
    forall i | 0 <= i < |specs| && FindProgState(specs[i], ps) == Some(j) ensures specs[i] == bad {
      var b :| 0 <= b < |specs| && specs[b] == bad;
      assert specs[i].name == specs[b].name;
    }
  }

  lemma ExactExpands(spec: ProgSpec, ps: seq<ProgState>, d: Daemon, env: Env)
    requires ProgramExact(spec, ps, d, env)
    ensures Expand(spec.infos, env).ok
  {
  }

  /** The loop over `first` and then, with uuids from `u` on, over `rest`. */
  function LoopTwice(first: seq<ProgSpec>, rest: seq<ProgSpec>, ps: seq<ProgState>, d: Daemon, env: Env, uuid: nat, u: nat): Progs {
    var a := ReconcileProgs(first, ps, d, env, uuid);
    if a.panicked then a
    else
      var b := ReconcileProgs(rest, a.programs, a.daemon, env, u);
      b.(found := a.found && b.found)
  }

  lemma {:induction false} LoopSplits(
    first: seq<ProgSpec>, rest: seq<ProgSpec>, ps: seq<ProgState>, d: Daemon, env: Env, uuid: nat)
    ensures ReconcileProgs(first + rest, ps, d, env, uuid) ==
            LoopTwice(first, rest, ps, d, env, uuid, ReconcileProgs(first, ps, d, env, uuid).uuid)
  {
    hide ReconcileProgram;
    if first == [] {
      assert first + rest == rest;
    } else {
      assert (first + rest)[0] == first[0] && (first + rest)[1..] == first[1..] + rest;
      var j := FindProgState(first[0], ps);
      if j.None? {
        LoopSplits(first[1..], rest, ps, d, env, uuid);
      } else {
        var r := ReconcileProgram(first[0], ps[j.value], d, env, uuid);
        if !r.panicked {
          LoopSplits(first[1..], rest, ps[j.value := r.prog], r.daemon, env, r.uuid);
        }
      }
    }
  }

  /** The same but for entry j. */
  ghost predicate SameBut(r: Progs, r': Progs, j: nat) {
    && r'.daemon == r.daemon && r'.uuid == r.uuid && r'.found == r.found && r'.panicked == r.panicked
    && |r'.programs| == |r.programs|
    && forall i :: 0 <= i < |r.programs| && i != j ==> r'.programs[i] == r.programs[i]
  }

  /** An entry that no program of the specs has makes no difference. */
  lemma {:induction false} EntryIgnored(
    specs: seq<ProgSpec>, ps: seq<ProgState>, ps': seq<ProgState>, j: nat, d: Daemon, env: Env, uuid: nat)
    requires SameShape(ps, ps') && forall i :: 0 <= i < |ps| && i != j ==> ps'[i] == ps[i]
    requires forall k :: 0 <= k < |specs| ==> FindProgState(specs[k], ps) != Some(j)
    ensures SameBut(ReconcileProgs(specs, ps, d, env, uuid), ReconcileProgs(specs, ps', d, env, uuid), j)
  {
    if specs != [] {
      var rest, f := specs[1..], FindProgState(specs[0], ps);
      assert forall k :: 0 <= k < |rest| ==> rest[k] == specs[k + 1];
      SameShapeFind(specs[0], ps, ps');
      if f.None? {
        EntryIgnored(rest, ps, ps', j, d, env, uuid);
      } else {
        var r := ReconcileProgram(specs[0], ps[f.value], d, env, uuid);
        var qs, qs' := ps[f.value := r.prog], ps'[f.value := r.prog];
        ShapeKept(specs[0], ps, f.value, d, env, uuid);
        if !r.panicked {
          forall k | 0 <= k < |rest| ensures FindProgState(rest[k], qs) != Some(j) {
            SameShapeFind(rest[k], ps, qs);
          }
          EntryIgnored(rest, qs, qs', j, r.daemon, env, r.uuid);
        }
      }
    }
  }

  lemma ShapeKept(spec: ProgSpec, ps: seq<ProgState>, j: nat, d: Daemon, env: Env, uuid: nat)
    requires j < |ps|
    ensures SameShape(ps, ps[j := ReconcileProgram(spec, ps[j], d, env, uuid).prog])
  {
  }

  lemma SkippedFirst(bad: ProgSpec, rest: seq<ProgSpec>, ps: seq<ProgState>, j: nat, d: Daemon, env: Env, uuid: nat)
    requires FindProgState(bad, ps) == Some(j) && !Expand(bad.infos, env).ok
    requires forall k :: 0 <= k < |rest| ==> rest[k].name != bad.name
    ensures SameBut(ReconcileProgs(rest, ps, d, env, uuid + |Expand(bad.infos, env).points|),
                    ReconcileProgs([bad] + rest, ps, d, env, uuid), j)
  {
    hide ReconcileProgram, Expand, SameBut, SameShape;
    var r := ReconcileProgram(bad, ps[j], d, env, uuid);
    FailedExpansion(bad, ps[j], d, env, uuid);
    BadUuids(bad, ps[j], d, env, uuid);
    ShapeKept(bad, ps, j, d, env, uuid);
    assert ([bad] + rest)[0] == bad && ([bad] + rest)[1..] == rest;
    EntryIgnored(rest, ps, ps[j := r.prog], j, d, env, r.uuid);
  }

  /**
   When the expected links of one program cannot be computed, every other program and the daemon come out of the
   loop as if that program were not in the spec, whatever calls fail, but for the uuids of the programs after it.
   */
  lemma FailedExpansionIsSkipped(
    first: seq<ProgSpec>, bad: ProgSpec, rest: seq<ProgSpec>, ps: seq<ProgState>, j: nat, d: Daemon, env: Env, uuid: nat)
    requires Valid(d) && AppAccounted(ps, d) && DistinctSpecs(first + [bad] + rest)
    requires FindProgState(bad, ps) == Some(j) && !Expand(bad.infos, env).ok
    ensures var u := ReconcileProgs(first, ps, d, env, uuid).uuid;
            && ReconcileProgs(first + rest, ps, d, env, uuid) == LoopTwice(first, rest, ps, d, env, uuid, u)
            && SameBut(LoopTwice(first, rest, ps, d, env, uuid, u + |Expand(bad.infos, env).points|),
                       ReconcileProgs(first + [bad] + rest, ps, d, env, uuid), j)
  {
    hide ReconcileProgs, AppAccounted, Valid, Expand, FindProgState, SameBut, DistinctSpecs, ProgsStanding, SameShape;
    var a := ReconcileProgs(first, ps, d, env, uuid);
    LoopSplits(first, rest, ps, d, env, uuid);
    assert first + [bad] + rest == first + ([bad] + rest);
    LoopSplits(first, [bad] + rest, ps, d, env, uuid);
    if a.panicked {
      SameButItself(a, j);
    } else {
      ReconcileProgsStanding(first, ps, d, env, uuid);
      StandingAccounted(ps, d, a.programs, a.daemon);
      SameShapeFind(bad, ps, a.programs);
      LaterDiffer(first, bad, rest);
      SkippedFirst(bad, rest, a.programs, j, a.daemon, env, a.uuid);
      SameButFound(ReconcileProgs(rest, a.programs, a.daemon, env, a.uuid + |Expand(bad.infos, env).points|),
                   ReconcileProgs([bad] + rest, a.programs, a.daemon, env, a.uuid), j, a.found);
    }
  }

  lemma LaterDiffer(first: seq<ProgSpec>, bad: ProgSpec, rest: seq<ProgSpec>)
    requires DistinctSpecs(first + [bad] + rest)
    ensures forall k :: 0 <= k < |rest| ==> rest[k].name != bad.name
  {
    var all := first + [bad] + rest;
    forall k | 0 <= k < |rest| ensures rest[k].name != bad.name {
      assert all[|first|] == bad && all[|first| + 1 + k] == rest[k];
    }
  }

  lemma SameButItself(r: Progs, j: nat)
    ensures SameBut(r, r, j)
  {
  }

  lemma SameButFound(r: Progs, r': Progs, j: nat, found: bool)
    requires SameBut(r, r', j)
    ensures SameBut(r.(found := found && r.found), r'.(found := found && r'.found), j)
  {
  }

  lemma BadUuids(spec: ProgSpec, prog: ProgState, d: Daemon, env: Env, uuid: nat)
    ensures ReconcileProgram(spec, prog, d, env, uuid).uuid == uuid + |Expand(spec.infos, env).points|
  {
  }
}
