/** What a pass keeps, and how little it touches. */
module PassProofs {
  import opened Types
  import opened Daemons
  import opened Application
  import opened ApplicationProofs
  import opened VisitProofs
  import opened Pass

  predicate DistinctApps(apps: seq<App>) {
    forall i, j :: 0 <= i < j < |apps| ==> apps[i].name != apps[j].name
  }

  function Record(node: Node, name: string): seq<ProgState>
    requires name in node.states
  {
    node.states[name].status.programs
  }

  /** Every application's links are accounted for, and no program id is recorded for two applications. */
  ghost predicate NodeInv(node: Node) {
    && Valid(node.daemon)
    && (forall a :: a in node.states ==> AppInv(Record(node, a), node.daemon))
    && (forall a, b :: a in node.states && b in node.states && a != b ==>
          RecordedIds(Record(node, a)) !! RecordedIds(Record(node, b)))
  }

  lemma AppInvFrame(ps: seq<ProgState>, d: Daemon, d': Daemon, ids: set<nat>)
    requires Valid(d) && AppInv(ps, d) && Frame(d, d', ids) && RecordedIds(ps) !! ids
    ensures AppInv(ps, d')
  {
  }

  /** Putting the outcome of a visit to one application into the node keeps the invariant. */
  lemma PutProgress(node: Node, name: string, st: AppState, d': Daemon, uuid: nat)
    requires NodeInv(node) && name in node.states
    requires Progress(Record(node, name), node.daemon, st.status.programs, d')
    ensures NodeInv(Node(node.states[name := st], d', uuid))
  {
  }

  lemma AppInvBound(ps: seq<ProgState>, d: Daemon)
    requires AppInv(ps, d)
    ensures forall x :: x in RecordedIds(ps) ==> x < d.nextProgram
  {
  }

  // ---- creation ----

  lemma {:induction false} InitialFacts(specs: seq<ProgSpec>, n: nat)
    requires n <= |specs| && InitialPrograms(specs, n).Some?
    ensures var ps := InitialPrograms(specs, n).value;
            |ps| == n && forall i :: 0 <= i < n ==> ps[i] == InitialProg(specs[i])
  {
    if n > 0 {
      InitialFacts(specs, n - 1);
    }
  }

  lemma {:induction false} InitialExists(specs: seq<ProgSpec>, n: nat)
    requires n <= |specs| && DistinctSpecs(specs)
    ensures InitialPrograms(specs, n).Some?
  {
    if n > 0 {
      InitialExists(specs, n - 1);
      InitialFacts(specs, n - 1);
    }
  }

  lemma EntryTwice(s: ProgSpec, t: ProgSpec)
    ensures Matches(s, InitialProg(t)) <==> t.name == s.name && t.kind == s.kind && (t.kind in {Fentry, Fexit} ==> t.func == s.func)
  {
  }

  /** The list cannot be made exactly if a program comes twice. */
  lemma {:induction false} InitialNoneIff(specs: seq<ProgSpec>, n: nat)
    requires n <= |specs|
    ensures InitialPrograms(specs, n).None? <==> Repeats(specs[..n])
  {
    hide Matches;
    if n > 0 {
      InitialNoneIff(specs, n - 1);
      var last, init, all := specs[n - 1], specs[..n - 1], specs[..n];
      assert all[n - 1] == last && forall i :: 0 <= i < n - 1 ==> all[i] == init[i];
      if InitialPrograms(specs, n - 1).Some? {
        InitialFacts(specs, n - 1);
        var ps := InitialPrograms(specs, n - 1).value;
        forall i | 0 <= i < n - 1
          ensures Matches(last, ps[i]) <==>
                    all[i].name == last.name && all[i].kind == last.kind && (all[i].kind in {Fentry, Fexit} ==> all[i].func == last.func)
        {
          EntryTwice(last, specs[i]);
        }
      }
    }
  }

  lemma NoIds(ps: seq<ProgState>, d: Daemon)
    requires DistinctProgs(ps) && forall i :: 0 <= i < |ps| ==> ps[i].programId.None? && ps[i].links == []
    ensures AppInv(ps, d) && RecordedIds(ps) == {}
  {
  }

  lemma CreateInv(app: App, node: Node, inp: Inputs)
    requires NodeInv(node) && app.name !in node.states && DistinctSpecs(app.programs)
    ensures NodeInv(CreateState(app, node, inp))
  {
    hide AppInv;
    var node' := CreateState(app, node, inp);
    if inp.createOk {
      InitialExists(app.programs, |app.programs|);
      InitialFacts(app.programs, |app.programs|);
      NoIds(Record(node', app.name), node.daemon);
    }
  }

  // ---- the invariant over passes ----

  /**
   Link accounting survives every pass, for all the applications of the node at once, whatever calls fail on
   the way and even if the pass panics, unless it stops to write a status and the write is refused.
   */
  lemma {:induction false} PassInv(apps: seq<App>, i: nat, node: Node, inp: Inputs)
    requires i <= |apps| && NodeInv(node) && (inp.statusWriteOk || !PassFrom(apps, i, node, inp).stop.StatusWritten?)
    requires forall j :: 0 <= j < |apps| && !apps[j].deleting ==> DistinctSpecs(apps[j].programs)
    ensures NodeInv(PassFrom(apps, i, node, inp).node)
    decreases |apps| - i
  {
    hide NodeInv, Progress, AppInv;
    if i < |apps| {
      var app := apps[i];
      if app.name !in node.states {
        if app.deleting {
          PassInv(apps, i + 1, node, inp);
        } else {
          CreateInv(app, node, inp);
        }
      } else {
        var st := node.states[app.name];
        NodeInvAt(node, app.name);
        VisitProgress(app, st.status, node.daemon, inp.env, node.uuid, inp.now);
        var v := Visit(app, st.status, node.daemon, inp.env, node.uuid, inp.now);
        var node' := node.(daemon := v.daemon, uuid := v.uuid);
        if v.panicked || (!v.mustWrite && v.status == st.status) {
          PutProgress(node, app.name, st, v.daemon, v.uuid);
          assert node.states[app.name := st] == node.states;
          if !v.panicked {
            if app.deleting && !IsFailure(st.status.conditions) && st.finalizer {
              PutProgress(node, app.name, st.(finalizer := false), v.daemon, v.uuid);
            } else {
              PassInv(apps, i + 1, node', inp);
            }
          }
        } else {
          var status := v.status.(updateCount := v.status.updateCount + 1);
          PutProgress(node, app.name, st.(status := status), v.daemon, v.uuid);
        }
      }
    }
  }

  lemma NodeInvAt(node: Node, name: string)
    requires NodeInv(node) && name in node.states
    ensures Valid(node.daemon) && AppInv(Record(node, name), node.daemon)
  {
  }

  // ---- nothing stays loaded without a record ----

  /** Every loaded program is in the record of some application, and applications are loaded all or none. */
  ghost predicate NodeNoneLost(node: Node) {
    && (forall a :: a in node.states ==> AllOrNone(Record(node, a), node.daemon))
    && (forall p :: p in node.daemon.programs ==> exists a :: a in node.states && p in RecordedIds(Record(node, a)))
  }

  lemma AllOrNoneFrame(ps: seq<ProgState>, d: Daemon, d': Daemon, ids: set<nat>)
    requires Valid(d) && AppInv(ps, d) && AllOrNone(ps, d) && Frame(d, d', ids) && RecordedIds(ps) !! ids
    ensures AllOrNone(ps, d')
  {
  }

  lemma PutNoneLost(node: Node, name: string, st: AppState, d': Daemon, uuid: nat)
    requires NodeInv(node) && NodeNoneLost(node) && name in node.states
    requires Progress(Record(node, name), node.daemon, st.status.programs, d')
    requires NoneLost(Record(node, name), node.daemon, st.status.programs, d')
    ensures NodeNoneLost(Node(node.states[name := st], d', uuid))
  {
    hide AppInv, AppAccounted, AllOrNone, Valid;
    var d, ps := node.daemon, Record(node, name);
    var node' := Node(node.states[name := st], d', uuid);
    forall b | b in node.states && b != name ensures AllOrNone(Record(node', b), d') {
      AllOrNoneFrame(Record(node, b), d, d', RecordedIds(ps));
    }
    forall p | p in d'.programs ensures exists a :: a in node'.states && p in RecordedIds(Record(node', a)) {
      if p in RecordedIds(ps) || d.nextProgram <= p {
        assert p in RecordedIds(Record(node', name));
      } else {
        var b :| b in node.states && p in RecordedIds(Record(node, b));
        assert Record(node', b) == Record(node, b);
      }
    }
  }

  lemma CreateNoneLost(app: App, node: Node, inp: Inputs)
    requires NodeNoneLost(node) && app.name !in node.states && DistinctSpecs(app.programs)
    ensures NodeNoneLost(CreateState(app, node, inp))
  {
    var node' := CreateState(app, node, inp);
    if inp.createOk {
      InitialExists(app.programs, |app.programs|);
      InitialFacts(app.programs, |app.programs|);
      NoIds(Record(node', app.name), node.daemon);
      forall p | p in node.daemon.programs ensures exists a :: a in node'.states && p in RecordedIds(Record(node', a)) {
        var b :| b in node.states && p in RecordedIds(Record(node, b));
        assert Record(node', b) == Record(node, b);
      }
    }
  }

  /** No pass leaves a program loaded that no state object records, unless it stops to write a status and the write is refused. */
  lemma {:induction false} PassNoneLost(apps: seq<App>, i: nat, node: Node, inp: Inputs)
    requires i <= |apps| && NodeInv(node) && NodeNoneLost(node)
    requires inp.statusWriteOk || !PassFrom(apps, i, node, inp).stop.StatusWritten?
    requires forall j :: 0 <= j < |apps| && !apps[j].deleting ==> DistinctSpecs(apps[j].programs)
    ensures NodeNoneLost(PassFrom(apps, i, node, inp).node)
    decreases |apps| - i
  {
    hide NodeInv, NodeNoneLost, Progress, NoneLost, AppInv, AllOrNone;
    if i < |apps| {
      var app := apps[i];
      if app.name !in node.states {
        if app.deleting {
          PassNoneLost(apps, i + 1, node, inp);
        } else {
          CreateNoneLost(app, node, inp);
        }
      } else {
        var st := node.states[app.name];
        NodeInvAt(node, app.name);
        NodeNoneLostAt(node, app.name);
        VisitProgress(app, st.status, node.daemon, inp.env, node.uuid, inp.now);
        VisitNoneLost(app, st.status, node.daemon, inp.env, node.uuid, inp.now);
        var v := Visit(app, st.status, node.daemon, inp.env, node.uuid, inp.now);
        var node' := node.(daemon := v.daemon, uuid := v.uuid);
        if v.panicked || (!v.mustWrite && v.status == st.status) {
          PutProgress(node, app.name, st, v.daemon, v.uuid);
          PutNoneLost(node, app.name, st, v.daemon, v.uuid);
          assert node.states[app.name := st] == node.states;
          if !v.panicked {
            if app.deleting && !IsFailure(st.status.conditions) && st.finalizer {
              PutNoneLost(node, app.name, st.(finalizer := false), v.daemon, v.uuid);
            } else {
              PassNoneLost(apps, i + 1, node', inp);
            }
          }
        } else {
          var status := v.status.(updateCount := v.status.updateCount + 1);
          PutNoneLost(node, app.name, st.(status := status), v.daemon, v.uuid);
        }
      }
    }
  }

  lemma NodeNoneLostAt(node: Node, name: string)
    requires NodeNoneLost(node) && name in node.states
    ensures AllOrNone(Record(node, name), node.daemon)
  {
  }

  // ---- at most one application per pass ----

  function At(stop: Stop): nat
    requires !stop.AllVisited?
  {
    stop.at
  }

  /** Every other application's state object is the same, and so is every program outside this one's record. */
  ghost predicate OnlyTouches(node: Node, node': Node, name: string) {
    && (forall b :: b != name ==> (b in node'.states <==> b in node.states))
    && (forall b :: b != name && b in node.states ==> node'.states[b] == node.states[b])
    && (forall p :: p in node.daemon.programs && (name !in node.states || p !in RecordedIds(Record(node, name))) ==>
          p in node'.daemon.programs && node'.daemon.programs[p] == node.daemon.programs[p])
  }

  /** What a pass from node to r has touched: nothing, or the one application it stopped at. */
  ghost predicate Touched(apps: seq<App>, i: nat, node: Node, r: Result, written: bool) {
    if r.stop.AllVisited? then r.node.states == node.states && SameHoldings(node.daemon, r.node.daemon)
    else
      && i <= At(r.stop) < |apps|
      && var name := apps[At(r.stop)].name;
      && OnlyTouches(node, r.node, name)
      && (r.stop.Created? || r.stop.FinalizerRemoved? ==> SameHoldings(node.daemon, r.node.daemon))
      && (r.stop.StatusWritten? && written ==>
            name in node.states && name in r.node.states &&
            r.node.states[name].status.updateCount == node.states[name].status.updateCount + 1)
  }

  lemma TouchedLater(apps: seq<App>, i: nat, node: Node, node': Node, r: Result, written: bool)
    requires node'.states == node.states && SameHoldings(node.daemon, node'.daemon) && Touched(apps, i + 1, node', r, written)
    ensures Touched(apps, i, node, r, written)
  {
  }

  lemma VisitTouches(app: App, node: Node, node': Node, inp: Inputs, st: AppState)
    requires NodeInv(node) && app.name in node.states
    requires node'.daemon == Visit(app, node.states[app.name].status, node.daemon, inp.env, node.uuid, inp.now).daemon
    requires node'.states == node.states[app.name := st]
    ensures OnlyTouches(node, node', app.name)
  {
    hide AppInv, Visit;
    NodeInvAt(node, app.name);
    VisitProgress(app, node.states[app.name].status, node.daemon, inp.env, node.uuid, inp.now);
  }

  /**
   A pass that visits every application has changed no state object, no program and no link.  A pass that
   stops has touched only the application it stopped at; it has touched no program at all unless it stopped to
   write a status or by a panic.
   */
  lemma {:induction false} PassTouchesOne(apps: seq<App>, i: nat, node: Node, inp: Inputs)
    requires i <= |apps| && NodeInv(node)
    ensures Touched(apps, i, node, PassFrom(apps, i, node, inp), inp.statusWriteOk)
    decreases |apps| - i
  {
    hide NodeInv, Progress, AppInv, Visit, Valid;
    if i < |apps| {
      var app := apps[i];
      if app.name !in node.states {
        if app.deleting {
          PassTouchesOne(apps, i + 1, node, inp);
          TouchedLater(apps, i, node, node, PassFrom(apps, i + 1, node, inp), inp.statusWriteOk);
        }
      } else {
        var st := node.states[app.name];
        var v := Visit(app, st.status, node.daemon, inp.env, node.uuid, inp.now);
        var node' := node.(daemon := v.daemon, uuid := v.uuid);
        VisitKeepsCount(app, st.status, node.daemon, inp.env, node.uuid, inp.now);
        if v.panicked || v.mustWrite || v.status != st.status {
          var r := PassFrom(apps, i, node, inp);
          assert node.states[app.name := st] == node.states;
          assert r.node.states == node.states[app.name := r.node.states[app.name]];
          VisitTouches(app, node, r.node, inp, r.node.states[app.name]);
        } else {
          NodeInvAt(node, app.name);
          UnchangedVisit(app, st.status, node.daemon, inp.env, node.uuid, inp.now);
          VisitProgress(app, st.status, node.daemon, inp.env, node.uuid, inp.now);
          PutProgress(node, app.name, st, v.daemon, v.uuid);
          assert node.states[app.name := st] == node.states;
          if !(app.deleting && !IsFailure(st.status.conditions) && st.finalizer) {
            PassTouchesOne(apps, i + 1, node', inp);
            TouchedLater(apps, i, node, node', PassFrom(apps, i + 1, node', inp), inp.statusWriteOk);
          }
        }
      }
    }
  }

  lemma VisitKeepsCount(app: App, status: AppStatus, d: Daemon, env: Env, uuid: nat, now: nat)
    ensures Visit(app, status, d, env, uuid, now).status.updateCount == status.updateCount
  {
  }

  // ---- what a pass writes ----

  /** How the state objects differ, by what the pass stopped at and which writes the API server takes. */
  ghost predicate WritesAs(apps: seq<App>, i: nat, node: Node, r: Result, inp: Inputs) {
    var states, states' := node.states, r.node.states;
    match r.stop
    case AllVisited => states' == states
    case Panicked(_) => states' == states
    case Created(k) =>
      && i <= k < |apps| && apps[k].name !in states && !apps[k].deleting
      && var name := apps[k].name;
      if !inp.createOk then states' == states
      else name in states' && states'[name].finalizer && states' == states[name := states'[name]]
    case StatusWritten(k) =>
      && i <= k < |apps| && apps[k].name in states
      && var name := apps[k].name;
      if !inp.statusWriteOk then states' == states
      else
        && name in states' && states' == states[name := states'[name]] && states'[name].finalizer == states[name].finalizer
        && states'[name].status.updateCount == states[name].status.updateCount + 1
    case FinalizerRemoved(k) =>
      && i <= k < |apps| && apps[k].name in states && apps[k].deleting
      && var name := apps[k].name;
      && states[name].finalizer && !IsFailure(states[name].status.conditions)
      && states' == states[name := states[name].(finalizer := !inp.finalizerOk)]
  }

  /** A pass makes at most one write, at the application it stops at, and its outcome is what the API server takes of it. */
  lemma {:induction false} PassWrites(apps: seq<App>, i: nat, node: Node, inp: Inputs)
    requires i <= |apps|
    ensures WritesAs(apps, i, node, PassFrom(apps, i, node, inp), inp)
    decreases |apps| - i
  {
    hide Visit;
    if i < |apps| {
      var app := apps[i];
      if app.name !in node.states {
        if app.deleting {
          PassWrites(apps, i + 1, node, inp);
        }
      } else {
        var st := node.states[app.name];
        var v := Visit(app, st.status, node.daemon, inp.env, node.uuid, inp.now);
        VisitKeepsCount(app, st.status, node.daemon, inp.env, node.uuid, inp.now);
        if !v.panicked && !v.mustWrite && v.status == st.status {
          assert node.states == node.states[app.name := st];
          if !(app.deleting && !IsFailure(st.status.conditions) && st.finalizer) {
            PassWrites(apps, i + 1, node.(daemon := v.daemon, uuid := v.uuid), inp);
          }
        }
      }
    }
  }
}
