/**
 Live applications on a node that they do not select: what a visit leaves behind where no link is asked for, and
 that further visits leave it alone.
 */
module Unselected {
  import opened Types
  import opened Links
  import opened Daemons
  import opened Expansion
  import opened Programs
  import opened Application
  import opened ApplicationProofs
  import opened VisitProofs

  /** No program of the spec has a link to attach here. */
  predicate AsksNothing(app: App, env: Env) {
    forall s :: s in app.programs ==> !Expand(s.infos, env).ok || ExpectedKeys(s.infos, env) == {}
  }

  /** No program of the specs has entry i. */
  predicate Unclaimed(specs: seq<ProgSpec>, ps: seq<ProgState>, i: nat) {
    forall s :: s in specs ==> FindProgState(s, ps) != Some(i)
  }

  /** The record of a live application on a node that it does not select, when nothing is left to do. */
  ghost predicate UnselectedAtRest(app: App, status: AppStatus, d: Daemon, env: Env) {
    var ps := status.programs;
    && status.loadStatus == NotSelected
    && (forall i :: 0 <= i < |ps| ==> ps[i].programId.None?)
    && (forall s :: s in app.programs && FindProgState(s, ps).Some? ==> Quiescent(s, ps[FindProgState(s, ps).value], d, env))
    && (forall i :: 0 <= i < |ps| && Unclaimed(app.programs, ps, i) ==> ps[i].linkStatus == ProgAttachSuccess)
    && HasCondition(status.conditions, CheckProgramStatus(status))
  }

  lemma NothingAsked(app: App, ps: seq<ProgState>, env: Env)
    requires AsksNothing(app, env)
    ensures !AnyAsks(app.programs, ps, env)
  {
    forall i | 0 <= i < |app.programs| ensures !AsksForLink(app.programs[i], ps, env) {
      assert app.programs[i] in app.programs;
    }
  }

  lemma NoneClaims(specs: seq<ProgSpec>, ps: seq<ProgState>, i: nat)
    requires Unclaimed(specs, ps, i)
    ensures forall k :: 0 <= k < |specs| ==> FindProgState(specs[k], ps) != Some(i)
  {
    forall k | 0 <= k < |specs| ensures FindProgState(specs[k], ps) != Some(i) {
      assert specs[k] in specs;
    }
  }

  /** The loop over unloaded programs, when none of them panics. */
  lemma UnselectedLoop(specs: seq<ProgSpec>, ps: seq<ProgState>, d: Daemon, env: Env, uuid: nat)
    requires Valid(d) && AppAccounted(ps, d) && DistinctSpecs(specs) && d.faults == {}
    requires forall i :: 0 <= i < |ps| ==> ps[i].programId.None? && ps[i].linkStatus == ProgAttachSuccess
    requires !ReconcileProgs(specs, ps, d, env, uuid).panicked
    ensures var r := ReconcileProgs(specs, ps, d, env, uuid);
            && SameShape(ps, r.programs) && r.daemon == d && r.found == AllFound(specs, ps)
            && (forall s :: s in specs && FindProgState(s, r.programs).Some? ==>
                  Quiescent(s, r.programs[FindProgState(s, r.programs).value], d, env))
            && (forall i :: 0 <= i < |ps| && Unclaimed(specs, r.programs, i) ==> r.programs[i].linkStatus == ProgAttachSuccess)
  {
    hide Quiescent, AppAccounted;
    var r := ReconcileProgs(specs, ps, d, env, uuid);
    assert [] + specs == specs;
    ReconcileProgsStanding(specs, ps, d, env, uuid);
    ReconcileProgsSettles([], specs, ps, d, env, uuid);
    ReconcileProgsFound(specs, ps, d, env, uuid);
    UnloadedIdle(specs, ps, d, env, uuid);
    forall s | s in specs && FindProgState(s, r.programs).Some?
      ensures Quiescent(s, r.programs[FindProgState(s, r.programs).value], d, env)
    {
      assert Settles(s, r.programs, r.daemon, env);
    }
    forall i | 0 <= i < |ps| && Unclaimed(specs, r.programs, i) ensures r.programs[i].linkStatus == ProgAttachSuccess {
      forall s ensures FindProgState(s, r.programs) == FindProgState(s, ps) {
        SameShapeFind(s, ps, r.programs);
      }
      NoneClaims(specs, ps, i);
      Untouched(specs, ps, i, d, env, uuid);
    }
  }

  lemma UnselectedVisit(app: App, status: AppStatus, d: Daemon, env: Env, uuid: nat, now: nat)
    requires Valid(d) && AppInv(status.programs, d) && d.faults == {}
    requires Selected(app.selector, env.labels) == Some(false) && !app.deleting
    requires DistinctSpecs(app.programs) && AllFound(app.programs, status.programs) && AsksNothing(app, env)
    ensures var v := Visit(app, status, d, env, uuid, now);
            && !v.panicked && !v.mustWrite && v.daemon.faults == {}
            && UnselectedAtRest(app, v.status, v.daemon, env) && AllFound(app.programs, v.status.programs)
            && v.daemon == UnloadUpTo(status.programs, |status.programs|, d).1
  {
    hide AppInv, AppAccounted, Quiescent, AsksNothing, AnyAsks, Progress, UnloadUpTo, ReconcileProgs, AllFound, Valid;
    var (ps', d1) := UnloadUpTo(status.programs, |status.programs|, d);
    VisitPanics(app, status, d, env, uuid, now);
    NothingAsked(app, status.programs, env);
    UnloadFacts(status.programs, |status.programs|, d);
    UnloadProgress(status.programs, d);
    ProgressInv(status.programs, d, ps', d1);
    UnselectedLoop(app.programs, ps', d1, env, uuid);
    var r := ReconcileProgs(app.programs, ps', d1, env, uuid);
    SameFound(app.programs, status.programs, ps');
    SameFound(app.programs, ps', r.programs);
  }

  lemma SameFound(specs: seq<ProgSpec>, ps: seq<ProgState>, ps': seq<ProgState>)
    requires |ps'| == |ps|
    requires forall i :: 0 <= i < |ps| ==> ps'[i].name == ps[i].name && ps'[i].kind == ps[i].kind && ps'[i].func == ps[i].func
    ensures AllFound(specs, ps') == AllFound(specs, ps)
  {
    forall s ensures FindProgState(s, ps') == FindProgState(s, ps) {
      UnloadedFind(s, ps, ps');
    }
  }

  // ---- a further visit ----

  /** The link status that a program enters with does not matter. */
  lemma LinkStatusIrrelevant(spec: ProgSpec, prog: ProgState, status: ProgramLinkStatus, d: Daemon, env: Env, uuid: nat)
    requires Quiescent(spec, prog, d, env)
    ensures var r := ReconcileProgram(spec, prog.(linkStatus := status), d, env, uuid);
            r.prog == prog && r.daemon == d && !r.panicked
  {
    hide Quiescent, UpdateLinks, ReconcileUpTo, Kept, AttachStatus;
    QuiescentNoop(spec, prog, d, env, uuid);
  }

  /** Entries that differ from `ps` in their link status only, and that some program of the specs has. */
  ghost predicate Restorable(specs: seq<ProgSpec>, ps: seq<ProgState>, ps': seq<ProgState>) {
    && |ps'| == |ps|
    && forall i :: 0 <= i < |ps| ==>
         ps'[i] == ps[i].(linkStatus := ps'[i].linkStatus) && (ps'[i] != ps[i] ==> !Unclaimed(specs, ps, i))
  }

  lemma {:induction false} LoopRestores(specs: seq<ProgSpec>, ps: seq<ProgState>, ps': seq<ProgState>, d: Daemon, env: Env, uuid: nat)
    requires Restorable(specs, ps, ps') && AllFound(specs, ps)
    requires forall s :: s in specs && FindProgState(s, ps).Some? ==> Quiescent(s, ps[FindProgState(s, ps).value], d, env)
    ensures var r := ReconcileProgs(specs, ps', d, env, uuid);
            r.programs == ps && r.daemon == d && !r.panicked && r.found
  {
    hide Quiescent, ReconcileProgram;
    if specs == [] {
      assert forall i :: 0 <= i < |ps| ==> Unclaimed([], ps, i);
    } else {
      var s, rest := specs[0], specs[1..];
      assert s in specs && forall t :: t in specs <==> t == s || t in rest;
      SameShapeFind(s, ps, ps');
      var j := FindProgState(s, ps).value;
      LinkStatusIrrelevant(s, ps[j], ps'[j].linkStatus, d, env, uuid);
      var r := ReconcileProgram(s, ps'[j], d, env, uuid);
      var qs := ps'[j := r.prog];
      forall i | 0 <= i < |ps| && qs[i] != ps[i] ensures !Unclaimed(rest, ps, i) {
        var t :| t in specs && FindProgState(t, ps) == Some(i);
      }
      LoopRestores(rest, ps, qs, d, env, r.uuid);
    }
  }

  lemma UnselectedNoop(app: App, status: AppStatus, d: Daemon, env: Env, uuid: nat, now: nat)
    requires Selected(app.selector, env.labels) == Some(false) && !app.deleting
    requires AllFound(app.programs, status.programs) && UnselectedAtRest(app, status, d, env)
    ensures var v := Visit(app, status, d, env, uuid, now);
            v.status == status && v.daemon == d && !v.mustWrite && !v.panicked
  {
    hide Quiescent;
    var ps := status.programs;
    UnloadFacts(ps, |ps|, d);
    UnloadNone(ps, |ps|, d);
    var ps' := UnloadUpTo(ps, |ps|, d).0;
    LoopRestores(app.programs, ps, ps', d, env, uuid);
  }
}
