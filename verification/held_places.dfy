/** What a program's links are, place by place: in its record and, at Success, in the daemon. */
module HeldPlaces {
  import opened Types
  import opened Links
  import opened Daemons
  import opened Expansion
  import opened AttachPlaces
  import opened ExpectedPoints
  import opened Programs
  import opened Application
  import opened ApplicationProofs
  import opened VisitProofs

  // ---- the record ----

  /** Some expected link is at the place. */
  ghost predicate ExpectedAt(es: seq<Link>, p: AttachPoint, netns: map<string, nat>) {
    exists e :: e in es && SamePlace(e.point, p, netns)
  }

  lemma ExpectedAtIff(es: seq<Link>, p: AttachPoint, netns: map<string, nat>)
    requires Resolves(p, netns)
    ensures KeyOf(p, netns).Some? && (ExpectedAt(es, p, netns) <==> KeyOf(p, netns).value in Keys(es, netns))
  {
    hide SamePlace, Resolves, KeyOf;
    ResolvesIff(p, netns);
    KeysAt(es, netns, KeyOf(p, netns).value);
    forall e: Link ensures SamePlace(e.point, p, netns) <==> KeyOf(e.point, netns) == KeyOf(p, netns) {
      ResolvesIff(e.point, netns);
      if Resolves(e.point, netns) {
        KeysIdentify(e.point, p, netns);
      } else if SamePlace(e.point, p, netns) {
        SameResolves(e.point, p, netns);
      }
    }
    if i :| 0 <= i < |es| && KeyOf(es[i].point, netns) == KeyOf(p, netns) {
      assert es[i] in es;
    }
  }

  lemma FirstIff(links: seq<Link>, i: nat, netns: map<string, nat>)
    requires i < |links| && Resolves(links[i].point, netns)
    ensures FirstAt(links, i, links[i].point, netns) <==> IsFirst(links, netns, i)
  {
    hide SamePlace, Resolves, KeyOf;
    forall j | 0 <= j <= i
      ensures SamePlace(links[j].point, links[i].point, netns) <==> KeyOf(links[j].point, netns) == KeyOf(links[i].point, netns)
    {
      ResolvesIff(links[i].point, netns);
      ResolvesIff(links[j].point, netns);
      if Resolves(links[j].point, netns) {
        KeysIdentify(links[j].point, links[i].point, netns);
      } else if SamePlace(links[j].point, links[i].point, netns) {
        SameResolves(links[j].point, links[i].point, netns);
      }
    }
  }

  /**
   After updateLinks an entry is marked exactly if its namespace resolves, an expected link is at its place, and it
   is the first entry there; and there is an entry at the place of every expected link that resolves.
   */
  lemma MarksByPlace(links: seq<Link>, es: seq<Link>, netns: map<string, nat>)
    requires forall e :: e in es ==> e.shouldAttach
    ensures var r := UpdateLinks(links, es, netns);
            && (forall i :: 0 <= i < |r| ==>
                  (r[i].shouldAttach <==>
                     Resolves(r[i].point, netns) && ExpectedAt(es, r[i].point, netns) && FirstAt(r, i, r[i].point, netns)))
            && (forall e :: e in es && Resolves(e.point, netns) ==> exists i :: FirstAt(r, i, e.point, netns))
  {
    hide SamePlace, Resolves, KeyOf, UpdateLinks, FirstAt, ExpectedAt, IsFirst;
    var r := UpdateLinks(links, es, netns);
    UpdateLinksMarks(links, es, netns);
    forall i | 0 <= i < |r|
      ensures r[i].shouldAttach <==>
                Resolves(r[i].point, netns) && ExpectedAt(es, r[i].point, netns) && FirstAt(r, i, r[i].point, netns)
    {
      assert r[i] == Remark(r, Keys(es, netns), netns)[i];
      ResolvesIff(r[i].point, netns);
      if Resolves(r[i].point, netns) {
        ExpectedAtIff(es, r[i].point, netns);
        FirstIff(r, i, netns);
      }
    }
    forall e | e in es && Resolves(e.point, netns) ensures exists i :: FirstAt(r, i, e.point, netns) {
      FindLinkFindsPlace(r, e.point, netns);
      var j :| 0 <= j < |es| && es[j] == e;
      KeysAt(es, netns, KeyOf(e.point, netns).value);
      KeysAt(r, netns, KeyOf(e.point, netns).value);
      var found := FindLink(r, KeyOf(e.point, netns).value, netns);
      assert found.Some?;
    }
  }

  // ---- the daemon ----

  /** The links held are one for every resolvable place that the spec calls for, each at its place, and no others. */
  ghost predicate HeldAsWanted(held: map<nat, AttachPoint>, infos: seq<AttachInfo>, env: Env) {
    && (forall l :: l in held ==> exists p :: CalledFor(infos, env, p) && SamePlace(held[l], p, env.netns))
    && (forall p :: CalledFor(infos, env, p) && Resolves(p, env.netns) ==> exists l :: l in held && SamePlace(held[l], p, env.netns))
    && (forall l, m :: l in held && m in held && SamePlace(held[l], held[m], env.netns) ==> l == m)
  }

  lemma SamePlaceIff(p: AttachPoint, q: AttachPoint, netns: map<string, nat>)
    ensures SamePlace(p, q, netns) && Resolves(q, netns) <==> KeyOf(q, netns).Some? && KeyOf(p, netns) == KeyOf(q, netns)
  {
    hide SamePlace, Resolves, KeyOf;
    ResolvesIff(p, netns);
    ResolvesIff(q, netns);
    if Resolves(p, netns) && Resolves(q, netns) {
      KeysIdentify(p, q, netns);
    } else if SamePlace(p, q, netns) {
      SameResolves(p, q, netns);
    }
  }

  lemma ExactMeans(held: map<nat, AttachPoint>, infos: seq<AttachInfo>, env: Env)
    requires Expand(infos, env).ok && Exact(held, ExpectedKeys(infos, env), env.netns)
    ensures HeldAsWanted(held, infos, env)
  {
    hide SamePlace, Resolves, KeyOf, Expand, CalledFor;
    var netns := env.netns;
    ExpandMeans(infos, env);
    forall p: AttachPoint, q: AttachPoint
      ensures SamePlace(p, q, netns) && Resolves(q, netns) <==> KeyOf(q, netns).Some? && KeyOf(p, netns) == KeyOf(q, netns)
      ensures Resolves(q, netns) <==> KeyOf(q, netns).Some?
    {
      SamePlaceIff(p, q, netns);
      ResolvesIff(q, netns);
    }
    forall l | l in held ensures exists p :: CalledFor(infos, env, p) && SamePlace(held[l], p, netns) {
      var p :| p in Expand(infos, env).points && KeyOf(p, netns) == KeyOf(held[l], netns);
      assert CalledFor(infos, env, p) && SamePlace(held[l], p, netns);
    }
    forall p | CalledFor(infos, env, p) && Resolves(p, netns) ensures exists l :: l in held && SamePlace(held[l], p, netns) {
      assert p in Expand(infos, env).points;
      assert KeyOf(p, netns).value in ExpectedKeys(infos, env);
      var l :| l in held && KeyOf(held[l], netns) == Some(KeyOf(p, netns).value);
      assert SamePlace(held[l], p, netns);
    }
    forall l, m | l in held && m in held && SamePlace(held[l], held[m], netns) ensures l == m {
      assert Resolves(held[m], netns);
    }
  }

  /** Two wanted places that differ in some field are held by two links. */
  lemma BothHeld(held: map<nat, AttachPoint>, infos: seq<AttachInfo>, env: Env, p: AttachPoint, q: AttachPoint)
    requires HeldAsWanted(held, infos, env) && CalledFor(infos, env, p) && CalledFor(infos, env, q)
    requires Resolves(p, env.netns) && Resolves(q, env.netns) && !SamePlace(p, q, env.netns)
    ensures exists l, m :: l in held && m in held && l != m && SamePlace(held[l], p, env.netns) && SamePlace(held[m], q, env.netns)
  {
    hide CalledFor, SamePlace, Resolves, KeyOf;
    var l :| l in held && SamePlace(held[l], p, env.netns);
    var m :| m in held && SamePlace(held[m], q, env.netns);
    SamePlaceIff(held[l], p, env.netns);
    SamePlaceIff(held[m], q, env.netns);
    SamePlaceIff(p, q, env.netns);
  }

  // ---- entries ----

  /** The entry is the program's: its type and name, and the traced function of fentry and fexit programs. */
  predicate IsEntryOf(spec: ProgSpec, prog: ProgState) {
    && prog.name == spec.name && prog.kind == spec.kind
    && (spec.kind == Fentry ==> prog.func == spec.func) && (spec.kind == Fexit ==> prog.func == spec.func)
  }

  /** getProgState finds the first entry of the program, and nothing exactly if there is none. */
  lemma FoundIsEntry(spec: ProgSpec, ps: seq<ProgState>)
    ensures var found := FindProgState(spec, ps);
            && (found.Some? ==>
                  && found.value < |ps| && IsEntryOf(spec, ps[found.value])
                  && forall j :: 0 <= j < found.value ==> !IsEntryOf(spec, ps[j]))
            && (found.None? ==> forall j :: 0 <= j < |ps| ==> !IsEntryOf(spec, ps[j]))
  {
    forall p: ProgState ensures Matches(spec, p) == IsEntryOf(spec, p) {
    }
  }

  /** The spec's program is recorded, loaded, expanded, and its links are held as wanted. */
  ghost predicate Realised(spec: ProgSpec, ps: seq<ProgState>, d: Daemon, env: Env) {
    && (forall info :: info in spec.infos ==> !CannotExpand(info, env))
    && exists i :: 0 <= i < |ps| && IsEntryOf(spec, ps[i]) && ps[i].programId.Some? && ps[i].programId.value in d.programs &&
                   HeldAsWanted(d.programs[ps[i].programId.value], spec.infos, env)
  }

  lemma ExactIsRealised(spec: ProgSpec, ps: seq<ProgState>, d: Daemon, env: Env)
    requires ProgramExact(spec, ps, d, env)
    ensures Realised(spec, ps, d, env)
  {
    hide HeldAsWanted, Exact, CannotExpand, Expand;
    FoundIsEntry(spec, ps);
    ExpandMeans(spec.infos, env);
    ExactMeans(d.programs[ps[FindProgState(spec, ps).value].programId.value], spec.infos, env);
  }

  /**
   Success on a node, place by place: every program of the spec has an entry of its own type, name and traced
   function, is loaded, and holds one link for every resolvable place that one of its attachments calls for, and
   no other.
   */
  lemma SuccessIsRealised(app: App, status: AppStatus, d: Daemon, env: Env, uuid: nat, now: nat)
    requires Valid(d) && AppInv(status.programs, d)
    requires Selected(app.selector, env.labels) == Some(true) && !app.deleting
    ensures var v := Visit(app, status, d, env, uuid, now);
            HasCondition(v.status.conditions, CondSuccess) ==>
              forall s :: s in app.programs ==> Realised(s, v.status.programs, v.daemon, env)
  {
    hide Visit, AppInv, Valid, ProgramExact, Realised, HasCondition;
    var v := Visit(app, status, d, env, uuid, now);
    SuccessIsExact(app, status, d, env, uuid, now);
    if HasCondition(v.status.conditions, CondSuccess) {
      forall s | s in app.programs ensures Realised(s, v.status.programs, v.daemon, env) {
        ExactIsRealised(s, v.status.programs, v.daemon, env);
      }
    }
  }
}
