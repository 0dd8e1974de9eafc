/** A live application whose record lacks a program of its spec blocks the applications behind it. */
module ChangedPrograms {
  import opened Types
  import opened Daemons
  import opened Programs
  import opened Application
  import opened ApplicationProofs
  import opened VisitProofs
  import opened Pass
  import opened PassProofs
  import opened Convergence
  import opened Limits

  /** The same entries, but for program ids, links and link statuses. */
  ghost predicate SameEntries(ps: seq<ProgState>, ps': seq<ProgState>) {
    && |ps'| == |ps|
    && forall i :: 0 <= i < |ps| ==> ps'[i].name == ps[i].name && ps'[i].kind == ps[i].kind && ps'[i].func == ps[i].func
  }

  lemma SameEntriesFound(specs: seq<ProgSpec>, ps: seq<ProgState>, ps': seq<ProgState>)
    requires SameEntries(ps, ps')
    ensures AllFound(specs, ps') == AllFound(specs, ps)
  {
    forall s ensures FindProgState(s, ps') == FindProgState(s, ps) {
      UnloadedFind(s, ps, ps');
    }
  }

  lemma {:induction false} AssignEntries(ps: seq<ProgState>, n: nat, response: seq<(string, nat)>)
    requires n <= |ps|
    ensures SameEntries(ps, AssignUpTo(ps, n, response).0)
  {
    if n > 0 {
      AssignEntries(ps, n - 1, response);
    }
  }

  lemma {:induction false} LoopEntries(specs: seq<ProgSpec>, ps: seq<ProgState>, d: Daemon, env: Env, uuid: nat)
    ensures var r := ReconcileProgs(specs, ps, d, env, uuid);
            SameEntries(ps, r.programs) && (!r.panicked ==> r.found == AllFound(specs, ps))
  {
    hide ReconcileProgram, FindProgState;
    if specs != [] {
      assert forall s :: s in specs <==> s == specs[0] || s in specs[1..];
      var j := FindProgState(specs[0], ps);
      if j.None? {
        LoopEntries(specs[1..], ps, d, env, uuid);
      } else {
        var r := ReconcileProgram(specs[0], ps[j.value], d, env, uuid);
        FoundBound(specs[0], ps);
        ProgramKeepsEntry(specs[0], ps[j.value], d, env, uuid);
        if !r.panicked {
          var ps' := ps[j.value := r.prog];
          LoopEntries(specs[1..], ps', r.daemon, env, r.uuid);
          SameEntriesFound(specs[1..], ps, ps');
        }
      }
    }
  }

  lemma FoundBound(spec: ProgSpec, ps: seq<ProgState>)
    ensures FindProgState(spec, ps).Some? ==> FindProgState(spec, ps).value < |ps|
  {
  }

  lemma ProgramKeepsEntry(spec: ProgSpec, prog: ProgState, d: Daemon, env: Env, uuid: nat)
    ensures var p := ReconcileProgram(spec, prog, d, env, uuid).prog;
            p.name == prog.name && p.kind == prog.kind && p.func == prog.func
  {
  }

  lemma LoadEntries(app: App, status: AppStatus, d: Daemon, env: Env)
    ensures var s := ReconcileLoad(app, status, d, env).status;
            SameEntries(status.programs, s.programs) && s.conditions == status.conditions
  {
    hide ProgramListMatches, IsLoaded, AssignUpTo, AllFound;
    UnloadFacts(status.programs, |status.programs|, d);
    AssignEntries(status.programs, |status.programs|, Response(SpecNames(app.programs), d.nextProgram));
  }

  /** The record of a live application lacks a program of its spec, and its condition is older than `now`. */
  predicate Unfound(app: App, status: AppStatus, now: nat) {
    && !app.deleting && !AllFound(app.programs, status.programs)
    && !HasCondition(status.conditions, CondProgramListChangedError)
    && forall c :: c in status.conditions ==> c.since < now
  }

  /** Whatever is recorded and whatever calls fail, a visit to it panics, takes the error path or changes the status. */
  lemma UnfoundStops(app: App, status: AppStatus, d: Daemon, env: Env, uuid: nat, now: nat)
    requires Unfound(app, status, now)
    ensures var v := Visit(app, status, d, env, uuid, now);
            && (v.panicked || v.mustWrite || v.status != status)
            && forall later :: later > now ==> Unfound(app, v.status, later)
  {
    hide AllFound, ReconcileLoad;
    var l := ReconcileLoad(app, status, d, env);
    LoadEntries(app, status, d, env);
    LoopEntries(app.programs, l.status.programs, l.daemon, env, uuid);
    SameEntriesFound(app.programs, status.programs, l.status.programs);
    var r := ReconcileProgs(app.programs, l.status.programs, l.daemon, env, uuid);
    SameEntriesFound(app.programs, l.status.programs, r.programs);
  }

  lemma UnfoundLater(app: App, status: AppStatus, now: nat, later: nat, count: nat)
    requires Unfound(app, status, now) && now <= later
    ensures Unfound(app, status.(updateCount := count), later)
  {
  }

  lemma UnfoundBlocksPass(apps: seq<App>, k: nat, i: nat, node: Node, inp: Inputs)
    requires k <= i < |apps| && DistinctApps(apps)
    requires apps[i].name in node.states && Unfound(apps[i], node.states[apps[i].name].status, inp.now)
    ensures var r := PassFrom(apps, k, node, inp);
            && !r.stop.AllVisited? && RestUntouched(apps, i, node, r.node) && apps[i].name in r.node.states
            && forall later :: later > inp.now ==> Unfound(apps[i], r.node.states[apps[i].name].status, later)
    decreases i - k
  {
    hide Visit, Unfound;
    var status := node.states[apps[i].name].status;
    forall later | later > inp.now ensures Unfound(apps[i], status, later) {
      UnfoundLater(apps[i], status, inp.now, later, status.updateCount);
    }
    if apps[k].name in node.states {
      var v := Visit(apps[k], node.states[apps[k].name].status, node.daemon, inp.env, node.uuid, inp.now);
      if k == i {
        UnfoundStops(apps[i], status, node.daemon, inp.env, node.uuid, inp.now);
        var status' := v.status.(updateCount := v.status.updateCount + 1);
        forall later | later > inp.now ensures Unfound(apps[i], status', later) {
          UnfoundLater(apps[i], v.status, later, later, v.status.updateCount + 1);
        }
      } else {
        UnfoundBlocksPass(apps, k + 1, i, node.(daemon := v.daemon, uuid := v.uuid), inp);
      }
    } else if apps[k].deleting {
      UnfoundBlocksPass(apps, k + 1, i, node, inp);
    }
  }

  /** Each pass is later than the one before. */
  predicate ClockRuns(inputs: seq<Inputs>) {
    forall i, j :: 0 <= i < j < |inputs| ==> inputs[i].now < inputs[j].now
  }

  lemma Earlier(inputs: seq<Inputs>)
    requires ClockRuns(inputs) && inputs != []
    ensures var init, inp := inputs[..|inputs| - 1], inputs[|inputs| - 1];
            ClockRuns(init) && forall x :: x in init ==> x.now < inp.now
  {
    forall x | x in inputs[..|inputs| - 1] ensures x.now < inputs[|inputs| - 1].now {
      var j :| 0 <= j < |inputs| - 1 && inputs[j] == x;
    }
  }

  lemma RestItself(apps: seq<App>, i: nat, node: Node)
    ensures RestUntouched(apps, i, node, node)
  {
  }

  lemma RestThrough(apps: seq<App>, i: nat, node: Node, node1: Node, node2: Node)
    requires RestUntouched(apps, i, node, node1) && RestUntouched(apps, i, node1, node2)
    ensures RestUntouched(apps, i, node, node2)
  {
  }

  /**
   A live application that lacks an entry for a program of its spec ends every pass, as the clock runs: whether its
   status is written or refused, and whatever calls fail, no application after it is created, updated or released.
   */
  lemma {:induction false} UnfoundBlocksTheRest(apps: seq<App>, i: nat, node: Node, start: nat, inputs: seq<Inputs>)
    requires i < |apps| && DistinctApps(apps) && ClockRuns(inputs) && forall inp :: inp in inputs ==> start <= inp.now
    requires apps[i].name in node.states && Unfound(apps[i], node.states[apps[i].name].status, start)
    ensures var node' := AfterPasses(apps, node, inputs);
            && RestUntouched(apps, i, node, node') && apps[i].name in node'.states
            && forall later :: start <= later && (forall inp :: inp in inputs ==> inp.now < later) ==>
                 Unfound(apps[i], node'.states[apps[i].name].status, later)
  {
    hide Unfound, PassFrom, ClockRuns, RestUntouched, DistinctApps;
    if inputs == [] {
      RestItself(apps, i, node);
      var status := node.states[apps[i].name].status;
      forall later | start <= later ensures Unfound(apps[i], status, later) {
        UnfoundLater(apps[i], status, start, later, status.updateCount);
      }
    } else {
      var init, inp := inputs[..|inputs| - 1], inputs[|inputs| - 1];
      var node1 := AfterPasses(apps, node, init);
      assert inp in inputs && forall x :: x in init ==> x in inputs;
      Earlier(inputs);
      UnfoundBlocksTheRest(apps, i, node, start, init);
      UnfoundBlocksPass(apps, 0, i, node1, inp);
      RestThrough(apps, i, node, node1, PassFrom(apps, 0, node1, inp).node);
    }
  }
}
