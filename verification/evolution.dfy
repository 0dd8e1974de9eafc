/** How a visit can change the daemon, whatever is recorded and whatever fails: ids are fresh and old links stay put. */
module Evolution {
  import opened Types
  import opened Links
  import opened Daemons
  import opened Expansion
  import opened Programs
  import opened Application
  import opened ApplicationProofs

  /**
   Counters and log only grow; a program that was not loaded is loaded only under a fresh id; a link with an
   old id is held only where it was held.
   */
  ghost predicate Evolves(d: Daemon, d': Daemon) {
    && d.nextProgram <= d'.nextProgram && d.nextLink <= d'.nextLink
    && |d.log| <= |d'.log| && d'.faults == d.faults
    && (forall p :: p in d'.programs ==> p in d.programs || d.nextProgram <= p)
    && (forall p, l :: p in d'.programs && l in d'.programs[p] && l < d.nextLink ==>
          p in d.programs && l in d.programs[p] && d'.programs[p][l] == d.programs[p][l])
  }

  lemma EvolvesTransitive(d: Daemon, d1: Daemon, d2: Daemon)
    requires Evolves(d, d1) && Evolves(d1, d2)
    ensures Evolves(d, d2)
  {
  }

  lemma EvolvesStart(d: Daemon)
    ensures Evolves(d, d)
  {
  }

  lemma LinkEvolves(l: Link, pid: Option<nat>, d: Daemon)
    requires l.shouldAttach ==> pid.Some?
    ensures Evolves(d, ReconcileLink(l, pid, d).1)
  {
  }

  lemma {:induction false} UpToEvolves(links: seq<Link>, n: nat, pid: Option<nat>, d: Daemon)
    requires n <= |links| && !Panics(links, pid)
    ensures Evolves(d, ReconcileUpTo(links, n, pid, d).1)
  {
    hide ReconcileLink, Evolves;
    if n == 0 {
      EvolvesStart(d);
    } else {
      UpToEvolves(links, n - 1, pid, d);
      var (ls, d1) := ReconcileUpTo(links, n - 1, pid, d);
      LinkEvolves(ls[n - 1], pid, d1);
      EvolvesTransitive(d, d1, ReconcileUpTo(links, n, pid, d).1);
    }
  }

  lemma ProgramEvolves(spec: ProgSpec, prog: ProgState, d: Daemon, env: Env, uuid: nat)
    ensures Evolves(d, ReconcileProgram(spec, prog, d, env, uuid).daemon)
  {
    hide Evolves;
    var e := Expand(spec.infos, env);
    var links := UpdateLinks(prog.links, Mint(e.points, uuid), env.netns);
    EvolvesStart(d);
    if e.ok && !Panics(links, prog.programId) {
      UpToEvolves(links, |links|, prog.programId, d);
    }
  }

  lemma {:induction false} ProgsEvolve(specs: seq<ProgSpec>, ps: seq<ProgState>, d: Daemon, env: Env, uuid: nat)
    ensures Evolves(d, ReconcileProgs(specs, ps, d, env, uuid).daemon)
  {
    hide Evolves;
    if specs == [] {
      EvolvesStart(d);
    } else {
      var j := FindProgState(specs[0], ps);
      if j.None? {
        ProgsEvolve(specs[1..], ps, d, env, uuid);
      } else {
        var r := ReconcileProgram(specs[0], ps[j.value], d, env, uuid);
        ProgramEvolves(specs[0], ps[j.value], d, env, uuid);
        if !r.panicked {
          ProgsEvolve(specs[1..], ps[j.value := r.prog], r.daemon, env, r.uuid);
          EvolvesTransitive(d, r.daemon, ReconcileProgs(specs[1..], ps[j.value := r.prog], r.daemon, env, r.uuid).daemon);
        }
      }
    }
  }

  lemma LoadAppEvolves(app: App, ps: seq<ProgState>, d: Daemon, env: Env)
    ensures Evolves(d, LoadApp(app, ps, d, env).daemon)
  {
    hide AssignUpTo, AllFound;
  }

  lemma LoadEvolves(app: App, status: AppStatus, d: Daemon, env: Env)
    ensures Evolves(d, ReconcileLoad(app, status, d, env).daemon)
  {
    hide ProgramListMatches, IsLoaded, LoadApp;
    UnloadFacts(status.programs, |status.programs|, d);
    LoadAppEvolves(app, status.programs, d, env);
  }

  lemma VisitEvolves(app: App, status: AppStatus, d: Daemon, env: Env, uuid: nat, now: nat)
    ensures Evolves(d, Visit(app, status, d, env, uuid, now).daemon)
  {
    hide Evolves, ReconcileLoad;
    var l := ReconcileLoad(app, status, d, env);
    LoadEvolves(app, status, d, env);
    if l.ok && !app.deleting {
      ProgsEvolve(app.programs, l.status.programs, l.daemon, env, uuid);
      EvolvesTransitive(d, l.daemon, ReconcileProgs(app.programs, l.status.programs, l.daemon, env, uuid).daemon);
    }
  }
}
