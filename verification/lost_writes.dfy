/**
 Visits whose status write is refused: exactly when the record that stays behind still accounts for every link.
 */
module LostWrites {
  import opened Types
  import opened Links
  import opened Daemons
  import opened Expansion
  import opened Programs
  import opened Application
  import opened ApplicationProofs
  import opened VisitProofs
  import opened Pass
  import opened PassProofs
  import opened Evolution
  import opened Requests

  // ---- which visits attach ----

  /** Link i is wanted and not attached. */
  predicate Wanting(l: Link, pid: Option<nat>, d: Daemon) {
    l.shouldAttach && !Attached(l, pid, d)
  }

  /** A link attached since d is held for program p. */
  ghost predicate HasNewLink(d: Daemon, d': Daemon, p: nat) {
    p in d'.programs && exists l :: l in d'.programs[p] && d.nextLink <= l
  }

  /** `attached` implies `needed` whatever calls fail, and `needed` implies `attached` when none does. */
  predicate ExactlyIf(d: Daemon, attached: bool, needed: bool) {
    (attached ==> needed) && (d.faults == {} && needed ==> attached)
  }

  /** Where processLinks stands after n links: what is still to come is as it was. */
  ghost predicate Attaching(links: seq<Link>, n: nat, p: nat, d: Daemon, d': Daemon) {
    && p in d'.programs && d'.faults == d.faults && d.nextLink <= d'.nextLink
    && (forall j :: n <= j < |links| ==> Attached(links[j], Some(p), d') == Attached(links[j], Some(p), d))
    && ExactlyIf(d, HasNewLink(d, d', p), exists j :: 0 <= j < n && j < |links| && Wanting(links[j], Some(p), d))
  }

  lemma LinkAttaching(links: seq<Link>, n: nat, p: nat, d: Daemon, d1: Daemon)
    requires n < |links| && DistinctIds(links, d) && Attaching(links, n, p, d, d1)
    ensures Attaching(links, n + 1, p, d, ReconcileLink(links[n], Some(p), d1).1)
  {
    var l := links[n];
    var (l', d2) := ReconcileLink(l, Some(p), d1);
    if Wanting(l, Some(p), d) && d.faults == {} {
      assert d1.nextLink in d2.programs[p];
    } else if d.faults == {} && HasNewLink(d, d1, p) {
      var m :| m in d1.programs[p] && d.nextLink <= m;
      assert m in d2.programs[p];
    }
  }

  lemma {:induction false} UpToAttaching(links: seq<Link>, n: nat, p: nat, d: Daemon)
    requires n <= |links| && !Panics(links, Some(p)) && Valid(d) && DistinctIds(links, d) && p in d.programs
    ensures Attaching(links, n, p, d, ReconcileUpTo(links, n, Some(p), d).1)
  {
    hide Attaching, DistinctIds, ReconcileLink;
    if n == 0 {
      AttachingStart(links, p, d);
    } else {
      UpToAttaching(links, n - 1, p, d);
      LinkAttaching(links, n - 1, p, d, ReconcileUpTo(links, n - 1, Some(p), d).1);
    }
  }

  lemma AttachingStart(links: seq<Link>, p: nat, d: Daemon)
    requires Valid(d) && p in d.programs
    ensures Attaching(links, 0, p, d, d)
  {
  }

  /** Some expected key's first entry is missing or not attached. */
  predicate LacksLink(links: seq<Link>, keys: set<LinkKey>, pid: Option<nat>, d: Daemon, netns: map<string, nat>) {
    exists k :: k in keys &&
                var f := FindLink(links, k, netns);
                f.None? || !Attached(links[f.value], pid, d)
  }

  lemma WantingIff(links: seq<Link>, es: seq<Link>, pid: Option<nat>, d: Daemon, netns: map<string, nat>)
    requires forall e :: e in es ==> e.shouldAttach && e.linkId.None?
    ensures var r := UpdateLinks(links, es, netns);
            (exists j :: 0 <= j < |r| && Wanting(r[j], pid, d)) <==> LacksLink(links, Keys(es, netns), pid, d, netns)
  {
    var r, EK := UpdateLinks(links, es, netns), Keys(es, netns);
    UpdateLinksIds(links, es, netns);
    UpdateLinksMarks(links, es, netns);
    if j :| 0 <= j < |r| && Wanting(r[j], pid, d) {
      assert Wanted(r, EK, netns, j);
      WantingLacks(links, r, EK, netns, j, pid, d);
    }
    if k :| k in EK && var f := FindLink(links, k, netns); f.None? || !Attached(links[f.value], pid, d) {
      KeysAt(r, netns, k);
      var g := FindLink(r, k, netns).value;
      assert Wanted(r, EK, netns, g);
      if g < |links| {
        SameFirst(links, r, k, netns, g);
      }
      assert Wanting(r[g], pid, d);
    }
  }

  lemma WantingLacks(
    links: seq<Link>, r: seq<Link>, EK: set<LinkKey>, netns: map<string, nat>, j: nat, pid: Option<nat>, d: Daemon)
    requires |links| <= |r| && j < |r| && Wanted(r, EK, netns, j) && !Attached(r[j], pid, d)
    requires forall i :: 0 <= i < |links| ==> r[i] == links[i].(shouldAttach := r[i].shouldAttach)
    ensures LacksLink(links, EK, pid, d, netns)
  {
    var k := KeyOf(r[j].point, netns).value;
    var f := FindLink(links, k, netns);
    if f.Some? {
      assert KeyOf(r[f.value].point, netns) == Some(k);
      assert f.value >= j;
      assert f.value == j;
    }
  }

  lemma SameFirst(links: seq<Link>, r: seq<Link>, k: LinkKey, netns: map<string, nat>, g: nat)
    requires |links| <= |r| && g < |links| && FindLink(r, k, netns) == Some(g)
    requires forall i :: 0 <= i < |links| ==> r[i] == links[i].(shouldAttach := r[i].shouldAttach)
    ensures FindLink(links, k, netns) == Some(g)
  {
    hide KeyOf;
    forall i | 0 <= i < |links| ensures KeyOf(r[i].point, netns) == KeyOf(links[i].point, netns) {
    }
  }

  /** The spec's program has an entry, its attachments expand, and an expected link is missing or not attached. */
  predicate NeedsLink(spec: ProgSpec, ps: seq<ProgState>, d: Daemon, env: Env) {
    var j := FindProgState(spec, ps);
    && j.Some? && Expand(spec.infos, env).ok
    && LacksLink(ps[j.value].links, ExpectedKeys(spec.infos, env), ps[j.value].programId, d, env.netns)
  }

  lemma ProgramAttaches(spec: ProgSpec, prog: ProgState, p: nat, d: Daemon, env: Env, uuid: nat)
    requires Valid(d) && Accounted(prog.links, Some(p), d) && prog.programId == Some(p)
    requires p in d.programs
    ensures var d' := ReconcileProgram(spec, prog, d, env, uuid).daemon;
            ExactlyIf(d, HasNewLink(d, d', p),
              Expand(spec.infos, env).ok && LacksLink(prog.links, ExpectedKeys(spec.infos, env), Some(p), d, env.netns))
  {
    hide LacksLink;
    var e := Expand(spec.infos, env);
    var es := Mint(e.points, uuid);
    var links := UpdateLinks(prog.links, es, env.netns);
    MintMembers(e.points, uuid);
    MintPoints(e.points, uuid);
    if e.ok {
      UpdateAccounted(prog.links, es, env.netns, Some(p), d);
      UpToAttaching(links, |links|, p, d);
      WantingIff(prog.links, es, Some(p), d, env.netns);
    }
  }

  /** Some program of the specs that has entry i needs a link. */
  predicate EntryNeeds(specs: seq<ProgSpec>, i: nat, ps: seq<ProgState>, d: Daemon, env: Env) {
    exists k :: 0 <= k < |specs| && FindProgState(specs[k], ps) == Some(i) && NeedsLink(specs[k], ps, d, env)
  }

  lemma EntryNeedsSplit(specs: seq<ProgSpec>, i: nat, ps: seq<ProgState>, d: Daemon, env: Env)
    requires specs != []
    ensures EntryNeeds(specs, i, ps, d, env) <==>
              (FindProgState(specs[0], ps) == Some(i) && NeedsLink(specs[0], ps, d, env)) ||
              EntryNeeds(specs[1..], i, ps, d, env)
  {
    hide NeedsLink;
    var rest := specs[1..];
    assert forall k :: 0 <= k < |rest| ==> rest[k] == specs[k + 1];
    if k :| 0 <= k < |specs| && FindProgState(specs[k], ps) == Some(i) && NeedsLink(specs[k], ps, d, env) {
      if k > 0 {
        assert rest[k - 1] == specs[k];
      }
    }
    if k :| 0 <= k < |rest| && FindProgState(rest[k], ps) == Some(i) && NeedsLink(rest[k], ps, d, env) {
      assert specs[k + 1] == rest[k];
    }
  }

  lemma EntryNeedsSame(
    specs: seq<ProgSpec>, i: nat, ps: seq<ProgState>, d: Daemon, ps': seq<ProgState>, d': Daemon, env: Env)
    requires SameShape(ps, ps') && i < |ps| && ps'[i] == ps[i] && ps[i].programId.Some?
    requires ps[i].programId.value in d.programs && SameLinks(ps[i].programId, d, d')
    ensures EntryNeeds(specs, i, ps', d', env) <==> EntryNeeds(specs, i, ps, d, env)
  {
    forall s ensures FindProgState(s, ps') == FindProgState(s, ps) {
      SameShapeFind(s, ps, ps');
    }
    assert forall l :: Attached(l, ps[i].programId, d') == Attached(l, ps[i].programId, d);
    forall s | FindProgState(s, ps) == Some(i) ensures NeedsLink(s, ps', d', env) == NeedsLink(s, ps, d, env) {
    }
  }

  lemma NewLinkLater(d: Daemon, d1: Daemon, d': Daemon, p: nat)
    requires Valid(d) && Evolves(d, d1) && Evolves(d1, d') && p in d.programs && SameLinks(Some(p), d, d1)
    ensures HasNewLink(d, d', p) <==> HasNewLink(d1, d', p)
  {
  }

  lemma NewLinkEarlier(d: Daemon, d1: Daemon, d': Daemon, p: nat)
    requires p in d1.programs && SameLinks(Some(p), d1, d')
    ensures HasNewLink(d, d', p) <==> HasNewLink(d, d1, p)
  {
  }

  /**
   The loop over the programs attaches for entry i only if its program needs a link, and does so if no call
   fails.
   */
  lemma {:induction false} ProgsAttach(specs: seq<ProgSpec>, ps: seq<ProgState>, i: nat, d: Daemon, env: Env, uuid: nat)
    requires Valid(d) && AppAccounted(ps, d) && IsLoaded(ps, d) && DistinctSpecs(specs) && i < |ps|
    ensures var d' := ReconcileProgs(specs, ps, d, env, uuid).daemon;
            ExactlyIf(d, HasNewLink(d, d', ps[i].programId.value), EntryNeeds(specs, i, ps, d, env))
  {
    hide AppAccounted, HasNewLink, EntryNeeds, NeedsLink, Evolves, SameLinks, ProgsStanding, Valid;
    var p := ps[i].programId.value;
    if specs == [] {
      NothingNew(ps, i, d, env);
    } else {
      var rest, f := specs[1..], FindProgState(specs[0], ps);
      assert forall k :: 0 <= k < |rest| ==> rest[k] == specs[k + 1];
      var d' := ReconcileProgs(specs, ps, d, env, uuid).daemon;
      EntryNeedsSplit(specs, i, ps, d, env);
      if f.None? {
        ProgsAttach(rest, ps, i, d, env, uuid);
      } else {
        var j := f.value;
        var r := ReconcileProgram(specs[0], ps[j], d, env, uuid);
        var ps' := ps[j := r.prog];
        PanicsIff(specs[0], ps[j], d, env, uuid);
        StepStanding(specs[0], ps, j, d, env, uuid);
        StandingAccounted(ps, d, ps', r.daemon);
        StandingLoaded(ps, d, ps', r.daemon);
        ProgramEvolves(specs[0], ps[j], d, env, uuid);
        SameFaults(d, r.daemon);
        ProgsEvolve(rest, ps', r.daemon, env, r.uuid);
        if j == i {
          EntryAttaches(specs[0], ps, i, d, env, uuid);
          NotAgain(specs, i, ps, d, env);
          forall k | 0 <= k < |rest| ensures FindProgState(rest[k], ps') != Some(i) {
            SameShapeFind(rest[k], ps, ps');
          }
          FailedLoop(rest, ps', i, r.daemon, env, r.uuid);
          NewLinkEarlier(d, r.daemon, d', p);
        } else {
          OtherSameLinks(specs[0], ps, j, i, d, env, uuid);
          ProgsAttach(rest, ps', i, r.daemon, env, r.uuid);
          EntryNeedsSame(rest, i, ps, d, ps', r.daemon, env);
          NewLinkLater(d, r.daemon, d', p);
        }
      }
    }
  }

  lemma NothingNew(ps: seq<ProgState>, i: nat, d: Daemon, env: Env)
    requires Valid(d) && i < |ps| && ps[i].programId.Some?
    ensures !HasNewLink(d, d, ps[i].programId.value) && !EntryNeeds([], i, ps, d, env)
  {
  }

  lemma SameFaults(d: Daemon, d': Daemon)
    requires Evolves(d, d')
    ensures d'.faults == d.faults
  {
  }

  lemma EntryAttaches(spec: ProgSpec, ps: seq<ProgState>, i: nat, d: Daemon, env: Env, uuid: nat)
    requires Valid(d) && AppAccounted(ps, d) && IsLoaded(ps, d) && FindProgState(spec, ps) == Some(i)
    ensures var d' := ReconcileProgram(spec, ps[i], d, env, uuid).daemon;
            ExactlyIf(d, HasNewLink(d, d', ps[i].programId.value), NeedsLink(spec, ps, d, env))
  {
    hide Accounted, LacksLink, HasNewLink;
    ProgramAttaches(spec, ps[i], ps[i].programId.value, d, env, uuid);
  }

  /** Only one program of the specs has entry i. */
  lemma NotAgain(specs: seq<ProgSpec>, i: nat, ps: seq<ProgState>, d: Daemon, env: Env)
    requires specs != [] && DistinctSpecs(specs) && FindProgState(specs[0], ps) == Some(i)
    ensures forall k :: 1 <= k < |specs| ==> FindProgState(specs[k], ps) != Some(i)
    ensures !EntryNeeds(specs[1..], i, ps, d, env)
  {
    forall k | 1 <= k < |specs| ensures FindProgState(specs[k], ps) != Some(i) {
      assert specs[0].name != specs[k].name;
    }
  }

  // ---- the record from before the visit ----

  /** No link attached since d is held for a program that the record knows. */
  ghost predicate NoNewLinks(ps: seq<ProgState>, d: Daemon, d': Daemon) {
    forall p :: p in RecordedIds(ps) ==> !HasNewLink(d, d', p)
  }

  /**
   What a caller can see beforehand: the application is live, selected and loaded under the record's ids, and
   some program of its spec has an expected link that is missing from the record or not attached.
   */
  predicate WillAttach(app: App, status: AppStatus, d: Daemon, env: Env) {
    && Selected(app.selector, env.labels) == Some(true) && !app.deleting
    && ProgramListMatches(app.programs, status.programs) && IsLoaded(status.programs, d)
    && exists s :: s in app.programs && NeedsLink(s, status.programs, d, env)
  }

  lemma DiscardedAccounted(links: seq<Link>, pid: Option<nat>, d: Daemon, d': Daemon)
    requires Accounted(links, pid, d) && Evolves(d, d') && (pid.Some? ==> !HasNewLink(d, d', pid.value))
    ensures Accounted(links, pid, d')
  {
  }

  /** The old record still accounts for every link after a visit exactly if the visit attached none to its programs. */
  lemma DiscardedVisit(app: App, status: AppStatus, d: Daemon, env: Env, uuid: nat, now: nat)
    requires Valid(d) && AppInv(status.programs, d)
    ensures var d' := Visit(app, status, d, env, uuid, now).daemon;
            AppInv(status.programs, d') <==> NoNewLinks(status.programs, d, d')
  {
    hide Visit, Progress;
    var ps, d' := status.programs, Visit(app, status, d, env, uuid, now).daemon;
    VisitEvolves(app, status, d, env, uuid, now);
    VisitFacts(app, status, d, env, uuid, now);
    if NoNewLinks(ps, d, d') {
      forall i | 0 <= i < |ps| ensures Accounted(ps[i].links, ps[i].programId, d') {
        if ps[i].programId.Some? {
          RecordedAt(ps, i);
        }
        DiscardedAccounted(ps[i].links, ps[i].programId, d, d');
      }
    }
    if AppInv(ps, d') {
      forall p, l | p in RecordedIds(ps) && p in d'.programs && l in d'.programs[p] ensures l < d.nextLink {
        RecordedHas(ps, p);
        var i :| 0 <= i < |ps| && ps[i].programId == Some(p);
        assert Accounted(ps[i].links, ps[i].programId, d') && Accounted(ps[i].links, ps[i].programId, d);
        var j :| Records(ps[i].links, j, l, d'.programs[p][l]);
      }
    }
  }

  lemma VisitFacts(app: App, status: AppStatus, d: Daemon, env: Env, uuid: nat, now: nat)
    requires Valid(d) && AppInv(status.programs, d)
    ensures var d' := Visit(app, status, d, env, uuid, now).daemon;
            Valid(d') && Frame(d, d', RecordedIds(status.programs))
  {
    VisitProgress(app, status, d, env, uuid, now);
  }

  lemma NoneNew(ps: seq<ProgState>, d: Daemon)
    requires Valid(d)
    ensures NoNewLinks(ps, d, d)
  {
  }

  /** A visit to an application that is loaded attaches to its programs only if one of them needs a link. */
  lemma LoadedAttaches(app: App, status: AppStatus, d: Daemon, env: Env, uuid: nat, now: nat)
    requires Valid(d) && AppInv(status.programs, d) && !app.deleting
    requires Selected(app.selector, env.labels) == Some(true)
    requires ProgramListMatches(app.programs, status.programs) && IsLoaded(status.programs, d)
    ensures var d' := Visit(app, status, d, env, uuid, now).daemon;
            ExactlyIf(d, !NoNewLinks(status.programs, d, d'),
              exists s :: s in app.programs && NeedsLink(s, status.programs, d, env))
  {
    hide AppAccounted, HasNewLink, NeedsLink, ProgramListMatches;
    var ps := status.programs;
    var d' := Visit(app, status, d, env, uuid, now).daemon;
    MatchesDistinct(app.programs, ps);
    assert d' == ReconcileProgs(app.programs, ps, d, env, uuid).daemon;
    forall i | 0 <= i < |ps|
      ensures ExactlyIf(d, HasNewLink(d, d', ps[i].programId.value), EntryNeeds(app.programs, i, ps, d, env))
    {
      ProgsAttach(app.programs, ps, i, d, env, uuid);
    }
    if s :| s in app.programs && NeedsLink(s, ps, d, env) {
      var k :| 0 <= k < |app.programs| && app.programs[k] == s;
      NeedsEntry(s, ps, d, env);
      var i := FindProgState(s, ps).value;
      assert EntryNeeds(app.programs, i, ps, d, env);
      RecordedAt(ps, i);
    }
    if p :| p in RecordedIds(ps) && HasNewLink(d, d', p) {
      RecordedHas(ps, p);
      var i :| 0 <= i < |ps| && ps[i].programId == Some(p);
      assert EntryNeeds(app.programs, i, ps, d, env);
    }
  }

  lemma NeedsEntry(s: ProgSpec, ps: seq<ProgState>, d: Daemon, env: Env)
    requires NeedsLink(s, ps, d, env)
    ensures FindProgState(s, ps).Some?
  {
  }

  /** A visit that does not find its programs loaded attaches to none of them. */
  lemma ReloadAttachesElsewhere(app: App, status: AppStatus, d: Daemon, env: Env, uuid: nat, now: nat)
    requires Valid(d) && AppInv(status.programs, d) && ReconcileLoad(app, status, d, env).ok && !app.deleting
    requires Selected(app.selector, env.labels) == Some(true) && !IsLoaded(status.programs, d)
    ensures NoNewLinks(status.programs, d, Visit(app, status, d, env, uuid, now).daemon)
  {
    hide ProgramListMatches, AppAccounted, GoodLoad, Evolves;
    var ps, l := status.programs, ReconcileLoad(app, status, d, env);
    LoadFacts(app, ps, d, env);
    LoadProgress(app, status, d, env);
    LoadedFresh(app, status, d, env);
    AppInvBound(ps, d);
    ReconcileProgsStanding(app.programs, l.status.programs, l.daemon, env, uuid);
  }

  lemma LoadedFresh(app: App, status: AppStatus, d: Daemon, env: Env)
    requires Valid(d) && AppInv(status.programs, d) && ReconcileLoad(app, status, d, env).ok && !app.deleting
    requires Selected(app.selector, env.labels) == Some(true) && !IsLoaded(status.programs, d)
    ensures forall x :: x in RecordedIds(ReconcileLoad(app, status, d, env).status.programs) ==> d.nextProgram <= x
    ensures ReconcileLoad(app, status, d, env).daemon.nextLink == d.nextLink
  {
    hide ProgramListMatches, AppAccounted;
    var ps' := ReconcileLoad(app, status, d, env).status.programs;
    LoadFacts(app, status.programs, d, env);
    forall x | x in RecordedIds(ps') ensures d.nextProgram <= x {
      RecordedHas(ps', x);
    }
  }

  /** A visit that unloads attaches nothing. */
  lemma UnloadAttachesNothing(app: App, status: AppStatus, d: Daemon, env: Env, uuid: nat, now: nat)
    requires Valid(d) && (app.deleting || Selected(app.selector, env.labels) == Some(false))
    ensures NoNewLinks(status.programs, d, Visit(app, status, d, env, uuid, now).daemon)
  {
    var ps := status.programs;
    UnloadFacts(ps, |ps|, d);
    var (ps', d1) := UnloadUpTo(ps, |ps|, d);
    UnloadedIdle(app.programs, ps', d1, env, uuid);
  }

  /**
   A visit whose outcome is discarded leaves link accounting intact, whatever calls fail, if it was not going to
   attach, which can be told from the record, the daemon and the spec before the visit; and without failing calls
   only then.
   */
  lemma DiscardedIff(app: App, status: AppStatus, d: Daemon, env: Env, uuid: nat, now: nat)
    requires Valid(d) && AppInv(status.programs, d)
    ensures ExactlyIf(d, !AppInv(status.programs, Visit(app, status, d, env, uuid, now).daemon), WillAttach(app, status, d, env))
  {
    hide Visit, AppInv, NoNewLinks, NeedsLink, ProgramListMatches, IsLoaded;
    DiscardedVisit(app, status, d, env, uuid, now);
    var selected := Selected(app.selector, env.labels);
    if app.deleting || selected == Some(false) {
      UnloadAttachesNothing(app, status, d, env, uuid, now);
    } else if !ReconcileLoad(app, status, d, env).ok {
      FailedLoadAttachesNothing(app, status, d, env, uuid, now);
    } else if IsLoaded(status.programs, d) {
      LoadedAttaches(app, status, d, env, uuid, now);
    } else {
      ReloadAttachesElsewhere(app, status, d, env, uuid, now);
    }
  }

  lemma FailedLoadAttachesNothing(app: App, status: AppStatus, d: Daemon, env: Env, uuid: nat, now: nat)
    requires Valid(d) && AppInv(status.programs, d) && !app.deleting
    requires Selected(app.selector, env.labels) != Some(false) && !ReconcileLoad(app, status, d, env).ok
    ensures NoNewLinks(status.programs, d, Visit(app, status, d, env, uuid, now).daemon)
    ensures !WillAttach(app, status, d, env)
  {
    hide ProgramListMatches, AppAccounted;
    NoneNew(status.programs, d);
    if ProgramListMatches(app.programs, status.programs) {
      LoadFacts(app, status.programs, d, env);
    }
  }

  // ---- passes ----

  /** No link attached since `node` is held for a program some record knows. */
  ghost predicate NodeNoNewLinks(node: Node, d': Daemon) {
    forall a :: a in node.states ==> NoNewLinks(Record(node, a), node.daemon, d')
  }

  lemma OthersNoNewLinks(ps: seq<ProgState>, d: Daemon, d': Daemon, ids: set<nat>)
    requires Valid(d) && AppInv(ps, d) && Frame(d, d', ids) && RecordedIds(ps) !! ids
    ensures NoNewLinks(ps, d, d')
  {
    AppInvBound(ps, d);
  }

  /** A visit's outcome, kept or discarded, concerns the link accounting of no other application. */
  lemma DiscardedWrite(app: App, node: Node, node': Node, env: Env, uuid: nat, now: nat)
    requires NodeInv(node) && app.name in node.states && node'.states == node.states
    requires node'.daemon == Visit(app, node.states[app.name].status, node.daemon, env, uuid, now).daemon
    ensures NodeInv(node') <==> AppInv(Record(node, app.name), node'.daemon)
    ensures NodeInv(node') <==> NodeNoNewLinks(node, node'.daemon)
  {
    hide AppInv, Visit, Valid, Frame, NoNewLinks;
    var st, d, d' := node.states[app.name], node.daemon, node'.daemon;
    NodeInvAt(node, app.name);
    DiscardedVisit(app, st.status, d, env, uuid, now);
    VisitFacts(app, st.status, d, env, uuid, now);
    var ids := RecordedIds(Record(node, app.name));
    forall b | b in node.states && b != app.name
      ensures AppInv(Record(node, b), d') && NoNewLinks(Record(node, b), d, d')
    {
      AppInvFrame(Record(node, b), d, d', ids);
      OthersNoNewLinks(Record(node, b), d, d', ids);
    }
    forall b | b in node.states ensures Record(node', b) == Record(node, b) {
    }
  }

  /** A visit that changes nothing: the pass goes on from a node that differs in log and uuids only. */
  lemma GoesOn(app: App, node: Node, inp: Inputs)
    requires NodeInv(node) && app.name in node.states
    requires var v := Visit(app, node.states[app.name].status, node.daemon, inp.env, node.uuid, inp.now);
             !v.panicked && !v.mustWrite && v.status == node.states[app.name].status
    ensures var v := Visit(app, node.states[app.name].status, node.daemon, inp.env, node.uuid, inp.now);
            && NodeInv(node.(daemon := v.daemon, uuid := v.uuid))
            && SameHoldings(node.daemon, v.daemon) && v.daemon.faults == node.daemon.faults
  {
    hide Progress, AppInv, Valid;
    var st := node.states[app.name];
    var v := Visit(app, st.status, node.daemon, inp.env, node.uuid, inp.now);
    NodeInvAt(node, app.name);
    UnchangedVisit(app, st.status, node.daemon, inp.env, node.uuid, inp.now);
    VisitProgress(app, st.status, node.daemon, inp.env, node.uuid, inp.now);
    VisitEvolves(app, st.status, node.daemon, inp.env, node.uuid, inp.now);
    PutProgress(node, app.name, st, v.daemon, v.uuid);
    assert node.states[app.name := st] == node.states;
  }

  /**
   A pass whose status write is refused keeps link accounting if and only if it attached no link to a recorded
   program, whatever calls fail.  (It keeps it in every case when the write is taken.)
   */
  lemma {:induction false} RefusedWrite(apps: seq<App>, i: nat, node: Node, inp: Inputs)
    requires i <= |apps| && NodeInv(node) && !inp.statusWriteOk && PassFrom(apps, i, node, inp).stop.StatusWritten?
    ensures var r := PassFrom(apps, i, node, inp); NodeInv(r.node) <==> NodeNoNewLinks(node, r.node.daemon)
    decreases |apps| - i
  {
    hide NodeInv, Visit, NoNewLinks, SameHoldings;
    var app := apps[i];
    if app.name !in node.states {
      RefusedWrite(apps, i + 1, node, inp);
    } else {
      var st := node.states[app.name];
      var v := Visit(app, st.status, node.daemon, inp.env, node.uuid, inp.now);
      var node' := node.(daemon := v.daemon, uuid := v.uuid);
      if v.mustWrite || v.status != st.status {
        DiscardedWrite(app, node, node', inp.env, node.uuid, inp.now);
      } else {
        GoesOn(app, node, inp);
        RefusedWrite(apps, i + 1, node', inp);
        SameNewLinks(node, node', PassFrom(apps, i + 1, node', inp).node.daemon);
      }
    }
  }

  lemma SameNewLinks(node: Node, node': Node, d': Daemon)
    requires node'.states == node.states && SameHoldings(node.daemon, node'.daemon)
    ensures NodeNoNewLinks(node', d') == NodeNoNewLinks(node, d')
  {
  }

  lemma SameWillAttach(app: App, status: AppStatus, d: Daemon, d': Daemon, env: Env)
    requires SameHoldings(d, d')
    ensures WillAttach(app, status, d', env) == WillAttach(app, status, d, env)
  {
    hide ProgramListMatches;
    assert forall l, pid :: Attached(l, pid, d') == Attached(l, pid, d);
    forall s ensures NeedsLink(s, status.programs, d', env) == NeedsLink(s, status.programs, d, env) {
    }
  }

  /**
   A pass whose status write is refused keeps link accounting, whatever calls fail, if the application at which
   it stops was not going to have a link attached, as its record, the daemon and its spec stood before the pass;
   and without failing calls only then.
   */
  lemma {:induction false} RefusedWriteIff(apps: seq<App>, i: nat, node: Node, inp: Inputs)
    requires i <= |apps| && NodeInv(node) && !inp.statusWriteOk
    requires PassFrom(apps, i, node, inp).stop.StatusWritten?
    ensures var r := PassFrom(apps, i, node, inp);
            && i <= r.stop.at < |apps| && apps[r.stop.at].name in node.states
            && var app := apps[r.stop.at];
            ExactlyIf(node.daemon, !NodeInv(r.node), WillAttach(app, node.states[app.name].status, node.daemon, inp.env))
    decreases |apps| - i
  {
    hide NodeInv, Visit, WillAttach, SameHoldings, AppInv, NodeNoNewLinks;
    var app := apps[i];
    if app.name !in node.states {
      RefusedWriteIff(apps, i + 1, node, inp);
    } else {
      var st := node.states[app.name];
      var v := Visit(app, st.status, node.daemon, inp.env, node.uuid, inp.now);
      var node' := node.(daemon := v.daemon, uuid := v.uuid);
      if v.mustWrite || v.status != st.status {
        NodeInvAt(node, app.name);
        DiscardedWrite(app, node, node', inp.env, node.uuid, inp.now);
        DiscardedIff(app, st.status, node.daemon, inp.env, node.uuid, inp.now);
      } else {
        GoesOn(app, node, inp);
        RefusedWriteIff(apps, i + 1, node', inp);
        var stopped := apps[PassFrom(apps, i + 1, node', inp).stop.at];
        SameWillAttach(stopped, node.states[stopped.name].status, node.daemon, node'.daemon, inp.env);
      }
    }
  }

  // ---- programs loaded without a record ----

  /** The visit is going to ask for a load, as can be seen beforehand. */
  predicate WillLoad(app: App, status: AppStatus, d: Daemon, env: Env) {
    && Selected(app.selector, env.labels) == Some(true) && !app.deleting
    && ProgramListMatches(app.programs, status.programs) && !IsLoaded(status.programs, d)
    && app.name in env.bytecode && AllFound(app.programs, status.programs)
  }

  lemma LoopKeepsKeys(app: App, status: AppStatus, d: Daemon, env: Env, uuid: nat, now: nat)
    requires Valid(d) && AppInv(status.programs, d)
    requires Selected(app.selector, env.labels) == Some(true) && !app.deleting
    ensures Visit(app, status, d, env, uuid, now).daemon.programs.Keys == ReconcileLoad(app, status, d, env).daemon.programs.Keys
  {
    hide AppAccounted, ReconcileLoad, Progress;
    var l := ReconcileLoad(app, status, d, env);
    LoadProgress(app, status, d, env);
    ProgressInv(status.programs, d, l.status.programs, l.daemon);
    if l.ok {
      ReconcileProgsStanding(app.programs, l.status.programs, l.daemon, env, uuid);
    }
  }

  /** A visit that loads leaves a program loaded under a fresh id. */
  lemma LoadsFresh(app: App, status: AppStatus, d: Daemon, env: Env, uuid: nat, now: nat)
    requires Valid(d) && AppInv(status.programs, d) && WillLoad(app, status, d, env) && !Fails(d)
    ensures exists p :: p in Visit(app, status, d, env, uuid, now).daemon.programs && d.nextProgram <= p
  {
    hide AppAccounted, ProgramListMatches, Visit, AllFound;
    var ps, l := status.programs, ReconcileLoad(app, status, d, env);
    LoadOk(app, ps, d);
    LoopKeepsKeys(app, status, d, env, uuid, now);
    assert |ps| > 0;
    var p := l.status.programs[0].programId.value;
    assert p in l.daemon.programs.Keys && d.nextProgram <= p;
  }

  /** A visit that unloads leaves none of the recorded programs loaded, and no others either than before. */
  lemma UnloadLeaves(app: App, status: AppStatus, d: Daemon, env: Env, uuid: nat, now: nat)
    requires app.deleting || Selected(app.selector, env.labels) == Some(false)
    requires Selected(app.selector, env.labels).Some?
    ensures var d' := Visit(app, status, d, env, uuid, now).daemon;
            && d'.programs.Keys == d.programs.Keys - RecordedIds(status.programs)
  {
    hide AnyAsks;
    var (ps', d1) := UnloadUpTo(status.programs, |status.programs|, d);
    UnloadFacts(status.programs, |status.programs|, d);
    UnloadKeys(status.programs, d);
    UnloadedIdle(app.programs, ps', d1, env, uuid);
  }

  /** A visit to a live application that does not load leaves exactly the programs loaded that were. */
  lemma NoLoadLeaves(app: App, status: AppStatus, d: Daemon, env: Env, uuid: nat, now: nat)
    requires Valid(d) && AppInv(status.programs, d) && !(WillLoad(app, status, d, env) && !Fails(d))
    requires Selected(app.selector, env.labels) == Some(true) && !app.deleting
    ensures Visit(app, status, d, env, uuid, now).daemon.programs.Keys == d.programs.Keys
  {
    hide AppAccounted, ProgramListMatches, Visit, AllFound, IsLoaded;
    LoopKeepsKeys(app, status, d, env, uuid, now);
    if ProgramListMatches(app.programs, status.programs) && !IsLoaded(status.programs, d) {
      LoadFacts(app, status.programs, d, env);
    }
  }

  lemma NoLoadAllOrNone(app: App, status: AppStatus, d: Daemon, env: Env, uuid: nat, now: nat)
    requires Valid(d) && AppInv(status.programs, d) && AllOrNone(status.programs, d)
    requires !(WillLoad(app, status, d, env) && !Fails(d))
    ensures var d' := Visit(app, status, d, env, uuid, now).daemon;
            AllOrNone(status.programs, d') && d'.programs.Keys <= d.programs.Keys
  {
    hide Visit, WillLoad, AppInv;
    var selected := Selected(app.selector, env.labels);
    var d' := Visit(app, status, d, env, uuid, now).daemon;
    if selected.None? {
      UnparsableLeaves(app, status, d, env, uuid, now);
    } else if app.deleting || selected == Some(false) {
      UnloadLeaves(app, status, d, env, uuid, now);
      assert forall x :: x in RecordedIds(status.programs) ==> x !in d'.programs.Keys;
    } else {
      NoLoadLeaves(app, status, d, env, uuid, now);
      assert forall x :: x in d'.programs <==> x in d.programs.Keys;
    }
  }

  lemma UnparsableLeaves(app: App, status: AppStatus, d: Daemon, env: Env, uuid: nat, now: nat)
    requires Selected(app.selector, env.labels).None?
    ensures Visit(app, status, d, env, uuid, now).daemon == d
  {
  }

  /**
   A visit whose outcome is discarded leaves a program loaded that nothing records if and only if it loads:
   exactly when the application is live, selected and not loaded, its list matches, its bytecode and entries are
   there, and the daemon does not refuse.
   */
  lemma DiscardedNoneLost(app: App, node: Node, node': Node, env: Env, uuid: nat, now: nat)
    requires NodeInv(node) && NodeNoneLost(node) && app.name in node.states && node'.states == node.states
    requires node'.daemon == Visit(app, node.states[app.name].status, node.daemon, env, uuid, now).daemon
    ensures NodeNoneLost(node') <==> !(WillLoad(app, node.states[app.name].status, node.daemon, env) && !Fails(node.daemon))
  {
    hide AppInv, Visit, Valid, Frame, WillLoad, AllOrNone, Fails;
    var status, d, d' := node.states[app.name].status, node.daemon, node'.daemon;
    NodeInvAt(node, app.name);
    VisitFacts(app, status, d, env, uuid, now);
    forall b | b in node.states ensures Record(node', b) == Record(node, b) {
    }
    if WillLoad(app, status, d, env) && !Fails(d) {
      LoadsFresh(app, status, d, env, uuid, now);
      var p :| p in d'.programs && d.nextProgram <= p;
      forall b | b in node.states ensures p !in RecordedIds(Record(node', b)) {
        AppInvBound(Record(node, b), d);
      }
    } else {
      NoLoadAllOrNone(app, status, d, env, uuid, now);
      forall b | b in node.states && b != app.name ensures AllOrNone(Record(node', b), d') {
        AllOrNoneFrame(Record(node, b), d, d', RecordedIds(Record(node, app.name)));
      }
      forall p | p in d'.programs ensures exists b :: b in node'.states && p in RecordedIds(Record(node', b)) {
        assert p in d'.programs.Keys;
        var b :| b in node.states && p in RecordedIds(Record(node, b));
        assert p in RecordedIds(Record(node', b));
      }
    }
  }

  lemma SameNoneLost(node: Node, node': Node)
    requires NodeNoneLost(node) && node'.states == node.states && SameHoldings(node.daemon, node'.daemon)
    ensures NodeNoneLost(node')
  {
    forall b | b in node.states ensures AllOrNone(Record(node', b), node'.daemon) {
      assert AllOrNone(Record(node, b), node.daemon);
    }
    forall p | p in node'.daemon.programs ensures exists b :: b in node'.states && p in RecordedIds(Record(node', b)) {
      var b :| b in node.states && p in RecordedIds(Record(node, b));
      assert p in RecordedIds(Record(node', b));
    }
  }

  /**
   A pass whose status write is refused leaves a program loaded that nothing records only if the application at
   which it stops was going to be loaded, and without failing calls exactly then.
   */
  lemma {:induction false} RefusedNoneLost(apps: seq<App>, i: nat, node: Node, inp: Inputs)
    requires i <= |apps| && NodeInv(node) && NodeNoneLost(node) && !inp.statusWriteOk
    requires PassFrom(apps, i, node, inp).stop.StatusWritten?
    ensures var r := PassFrom(apps, i, node, inp);
            && i <= r.stop.at < |apps| && apps[r.stop.at].name in node.states
            && var app := apps[r.stop.at];
            ExactlyIf(node.daemon, !NodeNoneLost(r.node), WillLoad(app, node.states[app.name].status, node.daemon, inp.env))
    decreases |apps| - i
  {
    hide NodeInv, NodeNoneLost, Visit, SameHoldings, AppInv, AllFound, ProgramListMatches;
    var app := apps[i];
    if app.name !in node.states {
      RefusedNoneLost(apps, i + 1, node, inp);
    } else {
      var st := node.states[app.name];
      var v := Visit(app, st.status, node.daemon, inp.env, node.uuid, inp.now);
      var node' := node.(daemon := v.daemon, uuid := v.uuid);
      if v.mustWrite || v.status != st.status {
        DiscardedNoneLost(app, node, node', inp.env, node.uuid, inp.now);
      } else {
        GoesOn(app, node, inp);
        SameNoneLost(node, node');
        RefusedNoneLost(apps, i + 1, node', inp);
        var stopped := apps[PassFrom(apps, i + 1, node', inp).stop.at];
        SameWillLoad(stopped, node.states[stopped.name].status, node.daemon, node'.daemon, inp.env);
      }
    }
  }

  lemma SameWillLoad(app: App, status: AppStatus, d: Daemon, d': Daemon, env: Env)
    requires SameHoldings(d, d')
    ensures WillLoad(app, status, d', env) == WillLoad(app, status, d, env)
  {
    hide ProgramListMatches, AllFound;
  }

  // ---- passes that forget nothing ----

  /**
   The pass writes the status it decides on, or the application at which it stops was going to have no link
   attached and, where `loads` matters, was not going to be loaded.
   */
  predicate Harmless(listed: seq<App>, node: Node, inp: Inputs, loads: bool) {
    var stop := OnePass(listed, node, inp).stop;
    || inp.statusWriteOk || !stop.StatusWritten?
    || (&& stop.at < |listed| && listed[stop.at].name in node.states
        && var app, status := listed[stop.at], node.states[listed[stop.at].name].status;
        !WillAttach(app, status, node.daemon, inp.env) && (loads ==> !WillLoad(app, status, node.daemon, inp.env)))
  }

  lemma HarmlessPass(listed: seq<App>, node: Node, inp: Inputs, noneLost: bool)
    requires NodeInv(node) && (noneLost ==> NodeNoneLost(node)) && Harmless(listed, node, inp, noneLost)
    requires forall j :: 0 <= j < |listed| && !listed[j].deleting ==> DistinctSpecs(listed[j].programs)
    ensures var node' := OnePass(listed, node, inp).node; NodeInv(node') && (noneLost ==> NodeNoneLost(node'))
  {
    hide NodeInv, NodeNoneLost, PassFrom, WillAttach, WillLoad;
    if inp.statusWriteOk || !OnePass(listed, node, inp).stop.StatusWritten? {
      PassInv(listed, 0, node, inp);
      if noneLost {
        PassNoneLost(listed, 0, node, inp);
      }
    } else {
      RefusedWriteIff(listed, 0, node, inp);
      if noneLost {
        RefusedNoneLost(listed, 0, node, inp);
      }
    }
  }
}
