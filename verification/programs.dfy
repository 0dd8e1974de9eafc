/**
 One program of an application: reconciling its link list against the daemon (reconcileProgram,
 processLinks, reconcileBpfLink), the link accounting every step keeps, and the states that a further
 reconciliation leaves alone.
 */
module Programs {
  import opened Types
  import opened Links
  import opened Daemons
  import opened Expansion

  /** isAttached. */
  predicate Attached(l: Link, pid: Option<nat>, d: Daemon) {
    pid.Some? && l.linkId.Some? && LinkExists(d, pid.value, l.linkId.value)
  }

  /** reconcileBpfLink.  An attach request dereferences the program id, so there must be one. */
  function ReconcileLink(l: Link, pid: Option<nat>, d: Daemon): (Link, Daemon)
    requires l.shouldAttach ==> pid.Some?
  {
    if l.shouldAttach then
      if Attached(l, pid, d) then (l.(status := ApAttachAttached), d)
      else
        var d' := AfterAttach(d, pid.value, l.point, l.uuid);
        if AttachSucceeds(d, pid.value) then (l.(linkId := Some(d.nextLink), status := ApAttachAttached), d')
        else (l.(status := ApAttachError), d')
    else if Attached(l, pid, d) then
      var d' := AfterDetach(d, l.linkId.value);
      if Fails(d) then (l.(status := ApDetachError), d')
      else (l.(linkId := None, status := ApAttachNotAttached), d')
    else (l.(status := ApAttachNotAttached), d)
  }

  predicate Removable(l: Link) {
    !l.shouldAttach && l.status == ApAttachNotAttached
  }

  /** An unloaded program has a link to attach, so building the attach request panics. */
  predicate Panics(links: seq<Link>, pid: Option<nat>) {
    pid.None? && exists i :: 0 <= i < |links| && links[i].shouldAttach
  }

  /** The list and the daemon after the first n links have been reconciled in place. */
  function ReconcileUpTo(links: seq<Link>, n: nat, pid: Option<nat>, d: Daemon): (r: (seq<Link>, Daemon))
    requires n <= |links| && !Panics(links, pid)
    ensures |r.0| == |links|
    ensures forall j :: n <= j < |links| ==> r.0[j] == links[j]
    ensures forall j :: 0 <= j < n ==> r.0[j] == links[j].(linkId := r.0[j].linkId, status := r.0[j].status)
  {
    if n == 0 then (links, d)
    else
      var (ls, d1) := ReconcileUpTo(links, n - 1, pid, d);
      var (l, d2) := ReconcileLink(ls[n - 1], pid, d1);
      (ls[n - 1 := l], d2)
  }

  /** removeLinks. */
  function Kept(links: seq<Link>): (r: seq<Link>)
    ensures forall l :: l in r <==> l in links && !Removable(l)
  {
    if links == [] then []
    else
      var init, l := Kept(links[..|links| - 1]), links[|links| - 1];
      assert links == links[..|links| - 1] + [l];
      if Removable(l) then init else init + [l]
  }

  lemma KeptSnoc(ls: seq<Link>, l: Link)
    ensures Kept(ls + [l]) == if !l.shouldAttach && l.status == ApAttachNotAttached then Kept(ls) else Kept(ls) + [l]
  {
    assert (ls + [l])[..|ls|] == ls;
  }

  /** removeLinks goes entry by entry and keeps their order. */
  lemma {:induction false} KeptInOrder(ls: seq<Link>, ms: seq<Link>)
    ensures Kept(ls + ms) == Kept(ls) + Kept(ms)
  {
    hide Kept;
    if ms == [] {
      assert ls + ms == ls && Kept([]) == [] by {
        KeptNothing();
      }
    } else {
      var init, l := ms[..|ms| - 1], ms[|ms| - 1];
      assert ms == init + [l] && ls + ms == (ls + init) + [l];
      KeptInOrder(ls, init);
      KeptSnoc(init, l);
      KeptSnoc(ls + init, l);
      assert Kept(ls) + (Kept(init) + [l]) == (Kept(ls) + Kept(init)) + [l];
    }
  }

  lemma KeptNothing()
    ensures Kept([]) == []
  {
  }

  predicate AttachSuccess(l: Link) {
    if l.shouldAttach then l.status == ApAttachAttached else l.status == ApAttachNotAttached
  }

  function AttachStatus(links: seq<Link>): ProgramLinkStatus {
    if forall l :: l in links ==> AttachSuccess(l) then ProgAttachSuccess else ProgAttachError
  }

  datatype ProgResult = ProgResult(prog: ProgState, daemon: Daemon, uuid: nat, panicked: bool)

  /** reconcileProgram on a program of an application that is not being deleted. */
  function ReconcileProgram(spec: ProgSpec, prog: ProgState, d: Daemon, env: Env, uuid: nat): ProgResult {
    var e := Expand(spec.infos, env);
    var links := UpdateLinks(prog.links, Mint(e.points, uuid), env.netns);
    var uuid' := uuid + |e.points|;
    if !e.ok then ProgResult(prog.(links := links, linkStatus := UpdateAttachInfoError), d, uuid', false)
    else if Panics(links, prog.programId) then ProgResult(prog, d, uuid', true)
    else
      var (ls, d') := ReconcileUpTo(links, |links|, prog.programId, d);
      ProgResult(prog.(links := Kept(ls), linkStatus := AttachStatus(Kept(ls))), d', uuid', false)
  }

  // ---- link accounting ----

  /** Entry i records link l, attached at `point`. */
  predicate Records(links: seq<Link>, i: int, l: nat, point: AttachPoint) {
    0 <= i < |links| && links[i].linkId == Some(l) && links[i].point == point
  }

  /** No two entries record the same link, and every recorded link id has been handed out. */
  ghost predicate DistinctIds(links: seq<Link>, d: Daemon) {
    && (forall i :: 0 <= i < |links| && links[i].linkId.Some? ==> links[i].linkId.value < d.nextLink)
    && (forall i, j :: 0 <= i < j < |links| && links[i].linkId.Some? ==> links[i].linkId != links[j].linkId)
  }

  /** Every link the daemon holds for the program is recorded, where it is attached, by exactly one entry. */
  ghost predicate Accounted(links: seq<Link>, pid: Option<nat>, d: Daemon) {
    && DistinctIds(links, d)
    && (pid.Some? ==> pid.value < d.nextProgram)
    && (pid.Some? && pid.value in d.programs ==>
          forall l :: l in d.programs[pid.value] ==> exists i :: Records(links, i, l, d.programs[pid.value][l]))
  }

  ghost function Owned(pid: Option<nat>): set<nat> {
    if pid.Some? then {pid.value} else {}
  }

  lemma UpdateLinksIds(links: seq<Link>, es: seq<Link>, netns: map<string, nat>)
    requires forall e :: e in es ==> e.shouldAttach && e.linkId.None?
    ensures var r := UpdateLinks(links, es, netns);
            && |links| <= |r|
            && (forall i :: 0 <= i < |links| ==> r[i] == links[i].(shouldAttach := r[i].shouldAttach))
            && (forall i :: |links| <= i < |r| ==> r[i].linkId.None?)
  {
    var r, miss := UpdateLinks(links, es, netns), Missing(es, Keys(links, netns), netns);
    UpdateLinksRefines(links, es, netns);
    MissingKeys(es, Keys(links, netns), netns);
    forall i | |links| <= i < |r| ensures r[i].linkId.None? {
      assert r[i] in miss;
    }
  }

  lemma UpdateAccounted(links: seq<Link>, es: seq<Link>, netns: map<string, nat>, pid: Option<nat>, d: Daemon)
    requires Accounted(links, pid, d)
    requires forall e :: e in es ==> e.shouldAttach && e.linkId.None?
    ensures Accounted(UpdateLinks(links, es, netns), pid, d)
  {
    var r := UpdateLinks(links, es, netns);
    UpdateLinksIds(links, es, netns);
    if pid.Some? && pid.value in d.programs {
      forall l | l in d.programs[pid.value] ensures exists i :: Records(r, i, l, d.programs[pid.value][l]) {
        var i :| Records(links, i, l, d.programs[pid.value][l]);
        assert Records(r, i, l, d.programs[pid.value][l]);
      }
    }
  }

  lemma AttachedPoint(links: seq<Link>, i: nat, pid: Option<nat>, d: Daemon)
    requires Accounted(links, pid, d) && i < |links| && Attached(links[i], pid, d)
    ensures d.programs[pid.value][links[i].linkId.value] == links[i].point
  {
  }

  lemma LinkAccounted(links: seq<Link>, i: nat, pid: Option<nat>, d: Daemon)
    requires Valid(d) && Accounted(links, pid, d) && i < |links| && (links[i].shouldAttach ==> pid.Some?)
    ensures var (l, d') := ReconcileLink(links[i], pid, d);
            Valid(d') && Frame(d, d', Owned(pid)) && Accounted(links[i := l], pid, d') && d'.nextProgram == d.nextProgram &&
            (pid.Some? ==> (pid.value in d'.programs <==> pid.value in d.programs))
  {
    var (l, d') := ReconcileLink(links[i], pid, d);
    var links' := links[i := l];
    if pid.Some? && pid.value in d.programs {
      var p := pid.value;
      if links[i].shouldAttach {
        AttachValid(d, p, links[i].point, links[i].uuid);
      } else if Attached(links[i], pid, d) {
        DetachValid(d, p, links[i].linkId.value);
      }
      forall m | m in d'.programs[p] ensures exists j :: Records(links', j, m, d'.programs[p][m]) {
        if m in d.programs[p] {
          var j :| Records(links, j, m, d.programs[p][m]);
          assert Records(links', j, m, d'.programs[p][m]);
        } else {
          assert Records(links', i, m, d'.programs[p][m]);
        }
      }
    } else if links[i].shouldAttach {
      AttachValid(d, pid.value, links[i].point, links[i].uuid);
    }
  }

  /** What processLinks knows about a link it has reconciled. */
  ghost predicate Processed(l: Link, pid: Option<nat>, d: Daemon) {
    && (l.shouldAttach ==> l.status == ApAttachAttached || l.status == ApAttachError)
    && (!l.shouldAttach ==> l.status == ApAttachNotAttached || l.status == ApDetachError)
    && (l.status == ApAttachAttached ==> Attached(l, pid, d))
    && (l.status == ApAttachNotAttached ==> !Attached(l, pid, d))
    && (d.faults == {} && (pid.Some? ==> pid.value in d.programs) ==> AttachSuccess(l))
  }

  /** Either the daemon's programs are as they were, or some recorded link id has appeared or disappeared. */
  ghost predicate Traced(links: seq<Link>, d: Daemon, ls: seq<Link>, n: nat, d': Daemon) {
    || (d'.programs == d.programs && d'.nextLink == d.nextLink)
    || (exists j :: 0 <= j < n <= |ls| && ls[j].shouldAttach && ls[j].linkId.Some? && ls[j].linkId.value >= d.nextLink)
    || (exists j :: 0 <= j < |links| && links[j].linkId.Some? && links[j].linkId.value < d.nextLink &&
                    forall k :: 0 <= k < |ls| ==> ls[k].linkId != links[j].linkId)
  }

  /** Where processLinks stands: the accounting holds, and only the program's own links have been touched. */
  ghost predicate Standing(ls: seq<Link>, pid: Option<nat>, d: Daemon, d': Daemon) {
    && Valid(d') && Frame(d, d', Owned(pid)) && Accounted(ls, pid, d') && d'.nextProgram == d.nextProgram
    && (pid.Some? ==> (pid.value in d'.programs <==> pid.value in d.programs))
  }

  lemma StandingStart(ls: seq<Link>, pid: Option<nat>, d: Daemon)
    requires Valid(d) && Accounted(ls, pid, d)
    ensures Standing(ls, pid, d, d)
  {
  }

  lemma StandingStep(ls: seq<Link>, i: nat, pid: Option<nat>, d: Daemon, d1: Daemon)
    requires Valid(d) && Standing(ls, pid, d, d1) && i < |ls| && (ls[i].shouldAttach ==> pid.Some?)
    ensures var (l, d2) := ReconcileLink(ls[i], pid, d1); Standing(ls[i := l], pid, d, d2)
  {
    LinkAccounted(ls, i, pid, d1);
    FrameTransitive(d, d1, ReconcileLink(ls[i], pid, d1).1, Owned(pid));
  }

  lemma {:induction false} UpToStanding(links: seq<Link>, n: nat, pid: Option<nat>, d: Daemon)
    requires n <= |links| && !Panics(links, pid) && Valid(d) && Accounted(links, pid, d)
    ensures var (ls, d') := ReconcileUpTo(links, n, pid, d); Standing(ls, pid, d, d')
  {
    hide Standing;
    if n == 0 {
      StandingStart(links, pid, d);
    } else {
      UpToStanding(links, n - 1, pid, d);
      var (ls, d1) := ReconcileUpTo(links, n - 1, pid, d);
      StandingStep(ls, n - 1, pid, d, d1);
    }
  }

  lemma LinkProcessed(ls: seq<Link>, i: nat, pid: Option<nat>, d: Daemon)
    requires Valid(d) && Accounted(ls, pid, d) && i < |ls| && (ls[i].shouldAttach ==> pid.Some?)
    requires forall j :: 0 <= j < i ==> Processed(ls[j], pid, d)
    ensures var (l, d') := ReconcileLink(ls[i], pid, d);
            Processed(l, pid, d') && forall j :: 0 <= j < i ==> Processed(ls[j], pid, d')
  {
  }

  lemma {:induction false} UpToProcessed(links: seq<Link>, n: nat, pid: Option<nat>, d: Daemon)
    requires n <= |links| && !Panics(links, pid) && Valid(d) && Accounted(links, pid, d)
    ensures var (ls, d') := ReconcileUpTo(links, n, pid, d);
            forall j :: 0 <= j < n ==> Processed(ls[j], pid, d')
  {
    hide ReconcileLink, Processed, Accounted;
    if n > 0 {
      UpToProcessed(links, n - 1, pid, d);
      UpToStanding(links, n - 1, pid, d);
      var (ls, d1) := ReconcileUpTo(links, n - 1, pid, d);
      LinkProcessed(ls, n - 1, pid, d1);
    }
  }

  lemma LinkTraced(links: seq<Link>, ls: seq<Link>, i: nat, pid: Option<nat>, d: Daemon, d1: Daemon)
    requires i < |ls| == |links| && ls[i] == links[i] && (ls[i].shouldAttach ==> pid.Some?)
    requires DistinctIds(links, d) && DistinctIds(ls, d1) && d.nextLink <= d1.nextLink
    requires Traced(links, d, ls, i, d1)
    ensures var (l, d2) := ReconcileLink(ls[i], pid, d1); Traced(links, d, ls[i := l], i + 1, d2)
  {
    var (l, d2) := ReconcileLink(ls[i], pid, d1);
    var ls' := ls[i := l];
    if j :| 0 <= j < i && ls[j].shouldAttach && ls[j].linkId.Some? && ls[j].linkId.value >= d.nextLink {
      assert ls'[j] == ls[j];
    } else if j :| 0 <= j < |links| && links[j].linkId.Some? && links[j].linkId.value < d.nextLink &&
                   forall k :: 0 <= k < |ls| ==> ls[k].linkId != links[j].linkId {
      assert forall k :: 0 <= k < |ls| ==> ls'[k].linkId != links[j].linkId;
    } else if ls[i].shouldAttach {
      if !Attached(ls[i], pid, d1) && AttachSucceeds(d1, pid.value) {
        assert ls'[i] == l;
      }
    } else if Attached(ls[i], pid, d1) && !Fails(d1) {
      assert forall k :: 0 <= k < |ls| ==> ls'[k].linkId != links[i].linkId;
    }
  }

  lemma {:induction false} UpToTraced(links: seq<Link>, n: nat, pid: Option<nat>, d: Daemon)
    requires n <= |links| && !Panics(links, pid) && Valid(d) && Accounted(links, pid, d)
    ensures var (ls, d') := ReconcileUpTo(links, n, pid, d); Traced(links, d, ls, n, d')
  {
    hide ReconcileLink, Valid, Standing, Traced, Accounted, DistinctIds;
    StandingDistinct(links, pid, d, d);
    if n == 0 {
      TracedStart(links, d);
    } else {
      UpToTraced(links, n - 1, pid, d);
      UpToStanding(links, n - 1, pid, d);
      var (ls, d1) := ReconcileUpTo(links, n - 1, pid, d);
      StandingDistinct(ls, pid, d, d1);
      LinkTraced(links, ls, n - 1, pid, d, d1);
    }
  }

  lemma TracedStart(links: seq<Link>, d: Daemon)
    ensures Traced(links, d, links, 0, d)
  {
  }

  lemma StandingDistinct(ls: seq<Link>, pid: Option<nat>, d: Daemon, d': Daemon)
    requires Standing(ls, pid, d, d') || (d' == d && Accounted(ls, pid, d))
    ensures DistinctIds(ls, d') && d.nextLink <= d'.nextLink
  {
  }

  // ---- removeLinks ----

  lemma {:induction false} KeptDistinctIds(links: seq<Link>, d: Daemon)
    requires DistinctIds(links, d)
    ensures DistinctIds(Kept(links), d)
  {
    if links != [] {
      var init, l := links[..|links| - 1], links[|links| - 1];
      KeptDistinctIds(init, d);
      forall i | 0 <= i < |Kept(init)| && l.linkId.Some? ensures Kept(init)[i].linkId != l.linkId {
        assert Kept(init)[i] in Kept(init);
        var k :| 0 <= k < |init| && init[k] == Kept(init)[i];
        assert links[k] == init[k];
      }
    }
  }

  lemma {:induction false} KeptDistinctKeys(links: seq<Link>, netns: map<string, nat>)
    requires forall i, j :: 0 <= i < j < |links| && !Removable(links[i]) && !Removable(links[j]) ==>
               KeyOf(links[i].point, netns) != KeyOf(links[j].point, netns)
    ensures forall i, j :: 0 <= i < j < |Kept(links)| ==>
              KeyOf(Kept(links)[i].point, netns) != KeyOf(Kept(links)[j].point, netns)
  {
    if links != [] {
      var init := links[..|links| - 1];
      KeptDistinctKeys(init, netns);
      forall i | 0 <= i < |Kept(init)| ensures Kept(init)[i] in init && !Removable(Kept(init)[i]) {
        assert Kept(init)[i] in Kept(init);
      }
    }
  }

  lemma KeptAccounted(ls: seq<Link>, pid: Option<nat>, d: Daemon)
    requires Accounted(ls, pid, d) && forall l :: l in ls ==> Processed(l, pid, d)
    ensures Accounted(Kept(ls), pid, d)
  {
    KeptDistinctIds(ls, d);
    if pid.Some? && pid.value in d.programs {
      forall l | l in d.programs[pid.value] ensures exists i :: Records(Kept(ls), i, l, d.programs[pid.value][l]) {
        var i :| Records(ls, i, l, d.programs[pid.value][l]);
        assert ls[i] in ls && Attached(ls[i], pid, d);
        var j :| 0 <= j < |Kept(ls)| && Kept(ls)[j] == ls[i];
        assert Records(Kept(ls), j, l, d.programs[pid.value][l]);
      }
    }
  }

  // ---- one program ----

  lemma MintMembers(points: seq<AttachPoint>, uuid: nat)
    ensures forall e :: e in Mint(points, uuid) ==> e.shouldAttach && e.linkId.None?
  {
  }

  /**
   Link accounting survives reconciling one program, whatever fails on the way, and no other program's
   links are touched.
   */
  lemma ProgramStanding(spec: ProgSpec, prog: ProgState, d: Daemon, env: Env, uuid: nat)
    requires Valid(d) && Accounted(prog.links, prog.programId, d)
    ensures var r := ReconcileProgram(spec, prog, d, env, uuid);
            && Standing(r.prog.links, prog.programId, d, r.daemon)
            && r.prog == prog.(links := r.prog.links, linkStatus := r.prog.linkStatus)
  {
    var e := Expand(spec.infos, env);
    var links := UpdateLinks(prog.links, Mint(e.points, uuid), env.netns);
    MintMembers(e.points, uuid);
    UpdateAccounted(prog.links, Mint(e.points, uuid), env.netns, prog.programId, d);
    StandingStart(prog.links, prog.programId, d);
    StandingStart(links, prog.programId, d);
    if e.ok && !Panics(links, prog.programId) {
      UpToStanding(links, |links|, prog.programId, d);
      UpToProcessed(links, |links|, prog.programId, d);
      var (ls, d') := ReconcileUpTo(links, |links|, prog.programId, d);
      KeptAccounted(ls, prog.programId, d');
    }
  }

  /**
   A failed expansion attaches and detaches nothing and forgets nothing: every prior entry keeps its place,
   its uuid, its link id and its status.
   */
  lemma FailedExpansion(spec: ProgSpec, prog: ProgState, d: Daemon, env: Env, uuid: nat)
    requires !Expand(spec.infos, env).ok
    ensures var r := ReconcileProgram(spec, prog, d, env, uuid);
            && r.daemon == d && !r.panicked && r.prog.linkStatus == UpdateAttachInfoError
            && r.prog.programId == prog.programId && |prog.links| <= |r.prog.links|
            && (forall i :: 0 <= i < |prog.links| ==>
                  r.prog.links[i] == prog.links[i].(shouldAttach := r.prog.links[i].shouldAttach))
            && (forall i :: |prog.links| <= i < |r.prog.links| ==> r.prog.links[i].linkId.None?)
  {
    MintMembers(Expand(spec.infos, env).points, uuid);
    UpdateLinksIds(prog.links, Mint(Expand(spec.infos, env).points, uuid), env.netns);
  }

  /** The program's record is what the node calls for, so reconciling it again will leave it alone. */
  ghost predicate Quiescent(spec: ProgSpec, prog: ProgState, d: Daemon, env: Env) {
    var e, EK := Expand(spec.infos, env), ExpectedKeys(spec.infos, env);
    && prog.links == Remark(prog.links, EK, env.netns)
    && EK <= Keys(prog.links, env.netns)
    && (if e.ok then
          && prog.linkStatus == ProgAttachSuccess
          && forall l :: l in prog.links ==>
               l.shouldAttach && l.status == ApAttachAttached && Attached(l, prog.programId, d)
        else prog.linkStatus == UpdateAttachInfoError)
  }

  lemma {:induction false} AllAttachedNoop(links: seq<Link>, n: nat, pid: Option<nat>, d: Daemon)
    requires n <= |links| && !Panics(links, pid)
    requires forall l :: l in links ==> l.shouldAttach && l.status == ApAttachAttached && Attached(l, pid, d)
    ensures ReconcileUpTo(links, n, pid, d) == (links, d)
  {
    if n > 0 {
      AllAttachedNoop(links, n - 1, pid, d);
      assert links[n - 1] in links;
      assert links[n - 1 := links[n - 1]] == links;
    }
  }

  lemma {:induction false} KeptAll(links: seq<Link>)
    requires forall l :: l in links ==> !Removable(l)
    ensures Kept(links) == links
  {
    if links != [] {
      assert links == links[..|links| - 1] + [links[|links| - 1]];
      KeptAll(links[..|links| - 1]);
    }
  }

  /** Reconciling a quiescent program makes no call and changes no field, whatever uuids are minted. */
  lemma QuiescentNoop(spec: ProgSpec, prog: ProgState, d: Daemon, env: Env, uuid: nat)
    requires Quiescent(spec, prog, d, env)
    ensures var r := ReconcileProgram(spec, prog, d, env, uuid);
            r.prog == prog && r.daemon == d && !r.panicked
  {
    var e := Expand(spec.infos, env);
    MintMembers(e.points, uuid);
    MintPoints(e.points, uuid);
    UpdateLinksStable(prog.links, Mint(e.points, uuid), env.netns);
    if e.ok {
      assert !Panics(prog.links, prog.programId) by {
        assert forall i :: 0 <= i < |prog.links| ==> prog.links[i] in prog.links;
      }
      AllAttachedNoop(prog.links, |prog.links|, prog.programId, d);
      KeptAll(prog.links);
    }
  }

  lemma KeptWanted(ls: seq<Link>, EK: set<LinkKey>, netns: map<string, nat>)
    requires ls == Remark(ls, EK, netns) && EK <= Keys(ls, netns)
    requires forall l :: l in Kept(ls) ==> l.shouldAttach
    ensures Kept(ls) == Remark(Kept(ls), EK, netns) && EK <= Keys(Kept(ls), netns)
  {
    var kept := Kept(ls);
    forall i | 0 <= i < |ls| && !Removable(ls[i]) ensures Wanted(ls, EK, netns, i) {
      assert ls[i] in kept;
    }
    KeptDistinctKeys(ls, netns);
    forall i | 0 <= i < |kept| ensures Wanted(kept, EK, netns, i) && kept[i].shouldAttach {
      assert kept[i] in kept;
      var j :| 0 <= j < |ls| && ls[j] == kept[i];
      assert Wanted(ls, EK, netns, j);
    }
    forall k | k in EK ensures k in Keys(kept, netns) {
      KeysAt(ls, netns, k);
      var i := FindLink(ls, k, netns).value;
      assert Wanted(ls, EK, netns, i);
      assert ls[i] in kept;
      var j :| 0 <= j < |kept| && kept[j] == ls[i];
      KeysAt(kept, netns, k);
    }
  }

  /** Reconciling links changes neither their places nor their marks. */
  lemma SameMarks(links: seq<Link>, ls: seq<Link>, EK: set<LinkKey>, netns: map<string, nat>)
    requires links == Remark(links, EK, netns) && EK <= Keys(links, netns) && |ls| == |links|
    requires forall i :: 0 <= i < |ls| ==> ls[i].point == links[i].point && ls[i].shouldAttach == links[i].shouldAttach
    ensures ls == Remark(ls, EK, netns) && EK <= Keys(ls, netns)
  {
    hide KeyOf;
    assert Points(ls) == Points(links);
    forall i | 0 <= i < |ls| ensures ls[i].shouldAttach == Wanted(ls, EK, netns, i) {
      assert Wanted(ls, EK, netns, i) == Wanted(links, EK, netns, i);
      assert links[i] == Remark(links, EK, netns)[i];
    }
  }

  /** A program that ends in Success is quiescent; so is any loaded program when no call fails. */
  lemma BecomesQuiescent(spec: ProgSpec, prog: ProgState, d: Daemon, env: Env, uuid: nat)
    requires Valid(d) && Accounted(prog.links, prog.programId, d)
    requires !ReconcileProgram(spec, prog, d, env, uuid).panicked
    requires || ReconcileProgram(spec, prog, d, env, uuid).prog.linkStatus == ProgAttachSuccess
             || (d.faults == {} && (prog.programId.Some? ==> prog.programId.value in d.programs))
    ensures var r := ReconcileProgram(spec, prog, d, env, uuid); Quiescent(spec, r.prog, r.daemon, env)
  {
    hide Accounted, Remark, UpdateLinks, Mint;
    var e, EK := Expand(spec.infos, env), ExpectedKeys(spec.infos, env);
    var es, pid := Mint(e.points, uuid), prog.programId;
    var links := UpdateLinks(prog.links, es, env.netns);
    MintMembers(e.points, uuid);
    MintPoints(e.points, uuid);
    UpdateLinksMarks(prog.links, es, env.netns);
    if e.ok {
      UpdateAccounted(prog.links, es, env.netns, pid, d);
      UpToStanding(links, |links|, pid, d);
      UpToProcessed(links, |links|, pid, d);
      var (ls, d') := ReconcileUpTo(links, |links|, pid, d);
      SameMarks(links, ls, EK, env.netns);
      forall l | l in Kept(ls) ensures l.shouldAttach && l.status == ApAttachAttached && Attached(l, pid, d') {
        assert l in ls && Processed(l, pid, d') && AttachSuccess(l);
      }
      KeptWanted(ls, EK, env.netns);
    }
  }

  /** The links the daemon holds are exactly one per expected key, attached where the key says. */
  ghost predicate Exact(held: map<nat, AttachPoint>, EK: set<LinkKey>, netns: map<string, nat>) {
    && (forall l :: l in held ==> KeyOf(held[l], netns).Some? && KeyOf(held[l], netns).value in EK)
    && (forall k :: k in EK ==> exists l :: l in held && KeyOf(held[l], netns) == Some(k))
    && (forall l, m :: l in held && m in held && KeyOf(held[l], netns) == KeyOf(held[m], netns) ==> l == m)
  }

  lemma RecordedExact(links: seq<Link>, d: Daemon, p: nat, EK: set<LinkKey>, netns: map<string, nat>)
    requires p in d.programs && Accounted(links, Some(p), d)
    requires forall i :: 0 <= i < |links| ==> Wanted(links, EK, netns, i) && Attached(links[i], Some(p), d)
    requires EK <= Keys(links, netns)
    ensures Exact(d.programs[p], EK, netns)
  {
    var held := d.programs[p];
    forall k | k in EK ensures exists l :: l in held && KeyOf(held[l], netns) == Some(k) {
      KeysAt(links, netns, k);
      var i :| 0 <= i < |links| && KeyOf(links[i].point, netns) == Some(k);
      AttachedPoint(links, i, Some(p), d);
      assert links[i].linkId.value in held;
    }
    forall l, m | l in held && m in held && KeyOf(held[l], netns) == KeyOf(held[m], netns) ensures l == m {
      var i :| Records(links, i, l, held[l]);
      var j :| Records(links, j, m, held[m]);
    }
  }

  lemma QuiescentExact(spec: ProgSpec, prog: ProgState, d: Daemon, env: Env, p: nat)
    requires Quiescent(spec, prog, d, env) && Expand(spec.infos, env).ok
    requires prog.programId == Some(p) && p in d.programs && Accounted(prog.links, Some(p), d)
    ensures Exact(d.programs[p], ExpectedKeys(spec.infos, env), env.netns)
  {
    forall i | 0 <= i < |prog.links|
      ensures Wanted(prog.links, ExpectedKeys(spec.infos, env), env.netns, i) && Attached(prog.links[i], Some(p), d)
    {
      assert prog.links[i] in prog.links;
    }
    RecordedExact(prog.links, d, p, ExpectedKeys(spec.infos, env), env.netns);
  }

  /** When a program's record comes out as it was, the daemon's programs and links are as they were. */
  lemma UnchangedProgram(spec: ProgSpec, prog: ProgState, d: Daemon, env: Env, uuid: nat)
    requires Valid(d) && Accounted(prog.links, prog.programId, d)
    requires ReconcileProgram(spec, prog, d, env, uuid).prog == prog
    ensures var d' := ReconcileProgram(spec, prog, d, env, uuid).daemon;
            d'.programs == d.programs && d'.nextLink == d.nextLink && d'.nextProgram == d.nextProgram
  {
    hide Traced, UpdateLinks, DistinctIds, Kept;
    var e := Expand(spec.infos, env);
    var es, pid := Mint(e.points, uuid), prog.programId;
    var links := UpdateLinks(prog.links, es, env.netns);
    if e.ok && !Panics(links, pid) {
      MintMembers(e.points, uuid);
      UpdateLinksIds(prog.links, es, env.netns);
      UpdateAccounted(prog.links, es, env.netns, pid, d);
      UpToStanding(links, |links|, pid, d);
      UpToTraced(links, |links|, pid, d);
      var (ls, d') := ReconcileUpTo(links, |links|, pid, d);
      KeptUntraced(prog.links, links, ls, d, d');
    }
  }

  /** If what is kept is the old list, no link id has appeared or disappeared, so the daemon is as it was. */
  lemma KeptUntraced(prior: seq<Link>, links: seq<Link>, ls: seq<Link>, d: Daemon, d': Daemon)
    requires Kept(ls) == prior && |prior| <= |links| == |ls| && DistinctIds(prior, d) && Traced(links, d, ls, |ls|, d')
    requires forall i :: 0 <= i < |prior| ==> links[i].linkId == prior[i].linkId
    requires forall i :: |prior| <= i < |links| ==> links[i].linkId.None?
    ensures d'.programs == d.programs && d'.nextLink == d.nextLink
  {
    forall j | 0 <= j < |ls| && ls[j].shouldAttach && ls[j].linkId.Some? ensures ls[j].linkId.value < d.nextLink {
      assert ls[j] in Kept(ls);
      var i :| 0 <= i < |prior| && prior[i] == ls[j];
    }
    forall j | 0 <= j < |links| && links[j].linkId.Some?
      ensures exists k :: 0 <= k < |ls| && ls[k].linkId == links[j].linkId
    {
      assert Kept(ls)[j] in Kept(ls);
    }
  }
}
