/**
 The bpfman daemon as the agent sees it through Load, Unload, Attach, Detach and Get.

 Ids are never reused and a call that fails changes nothing but the log.  A call fails when its position in
 the log is in `faults`, so one daemon value fixes one pattern of failures and a theorem about every daemon
 is a theorem about every pattern.  Get fails only for a program that is not loaded, and so does Unload.
 */
module Daemons {
  import opened Types

  datatype Call =
    | LoadCall(names: seq<string>)
    | UnloadCall(programId: nat)
    | AttachCall(programId: nat, point: AttachPoint, uuid: nat)
    | DetachCall(linkId: nat)

  /** `programs[p][l]` is the place where link l of program p is attached. */
  datatype Daemon = Daemon(
    programs: map<nat, map<nat, AttachPoint>>,
    nextProgram: nat,
    nextLink: nat,
    log: seq<Call>,
    faults: set<nat>)

  ghost predicate Valid(d: Daemon) {
    && (forall p :: p in d.programs ==> p < d.nextProgram)
    && (forall p, l :: p in d.programs && l in d.programs[p] ==> l < d.nextLink)
    && (forall p, q, l :: p in d.programs && q in d.programs && l in d.programs[p] && l in d.programs[q] ==> p == q)
  }

  predicate Fails(d: Daemon) {
    |d.log| in d.faults
  }

  function Logged(d: Daemon, c: Call): Daemon {
    d.(log := d.log + [c])
  }

  /** The response of a successful Load: one (name, id) pair per requested program, in request order. */
  function Response(names: seq<string>, first: nat): seq<(string, nat)> {
    seq(|names|, i requires 0 <= i < |names| => (names[i], first + i))
  }

  /** `programs` with n freshly loaded programs, numbered from `first`, that hold no link. */
  function WithNew(programs: map<nat, map<nat, AttachPoint>>, first: nat, n: nat): (r: map<nat, map<nat, AttachPoint>>)
    ensures forall p :: p in r <==> p in programs || first <= p < first + n
    ensures forall p :: p in r ==> r[p] == if first <= p < first + n then map[] else programs[p]
  {
    if n == 0 then programs else WithNew(programs, first, n - 1)[first + n - 1 := map[]]
  }

  function AfterLoad(d: Daemon, names: seq<string>): Daemon {
    var d' := Logged(d, LoadCall(names));
    if Fails(d) then d'
    else d'.(programs := WithNew(d.programs, d.nextProgram, |names|), nextProgram := d.nextProgram + |names|)
  }

  function AfterUnload(d: Daemon, p: nat): Daemon {
    Logged(d, UnloadCall(p)).(programs := d.programs - {p})
  }

  predicate AttachSucceeds(d: Daemon, p: nat) {
    !Fails(d) && p in d.programs
  }

  function AfterAttach(d: Daemon, p: nat, point: AttachPoint, uuid: nat): Daemon {
    var d' := Logged(d, AttachCall(p, point, uuid));
    if !AttachSucceeds(d, p) then d'
    else
      var held: map<nat, AttachPoint> := map[d.nextLink := point];
      d'.(programs := d.programs[p := d.programs[p] + held], nextLink := d.nextLink + 1)
  }

  function AfterDetach(d: Daemon, l: nat): Daemon {
    var d' := Logged(d, DetachCall(l));
    if Fails(d) then d' else d'.(programs := map p | p in d.programs :: d.programs[p] - {l})
  }

  /** doesLinkExist: a Get that fails reads as "not attached". */
  predicate LinkExists(d: Daemon, p: nat, l: nat) {
    p in d.programs && l in d.programs[p]
  }

  /** d' is d after calls that touched no loaded program outside `ids`. */
  ghost predicate Frame(d: Daemon, d': Daemon, ids: set<nat>) {
    && d.nextProgram <= d'.nextProgram && d.nextLink <= d'.nextLink
    && d.log <= d'.log && d'.faults == d.faults
    && (forall p :: p < d.nextProgram && p !in ids ==> (p in d'.programs <==> p in d.programs))
    && (forall p :: p in d.programs && p !in ids ==> p in d'.programs && d'.programs[p] == d.programs[p])
  }

  lemma FrameTransitive(d0: Daemon, d1: Daemon, d2: Daemon, ids: set<nat>)
    requires Valid(d0) && Frame(d0, d1, ids) && Frame(d1, d2, ids)
    ensures Frame(d0, d2, ids)
  {
  }

  lemma LoadValid(d: Daemon, names: seq<string>)
    requires Valid(d)
    ensures Valid(AfterLoad(d, names)) && Frame(d, AfterLoad(d, names), {})
  {
  }

  lemma AttachValid(d: Daemon, p: nat, point: AttachPoint, uuid: nat)
    requires Valid(d) && p < d.nextProgram
    ensures Valid(AfterAttach(d, p, point, uuid)) && Frame(d, AfterAttach(d, p, point, uuid), {p})
  {
  }

  lemma DetachValid(d: Daemon, p: nat, l: nat)
    requires Valid(d) && LinkExists(d, p, l)
    ensures Valid(AfterDetach(d, l)) && Frame(d, AfterDetach(d, l), {p})
    ensures p in AfterDetach(d, l).programs
    ensures !Fails(d) ==> AfterDetach(d, l).programs[p] == d.programs[p] - {l}
  {
  }

  /** The gRPC client of the daemon, whose calls change it in place. */
  class Bpfman {
    var programs: map<nat, map<nat, AttachPoint>>
    var nextProgram: nat
    var nextLink: nat
    var log: seq<Call>
    var faults: set<nat>

    function State(): Daemon
      reads this
    {
      Daemon(programs, nextProgram, nextLink, log, faults)
    }

    constructor (d: Daemon)
      ensures State() == d
    {
      programs, nextProgram, nextLink, log, faults := d.programs, d.nextProgram, d.nextLink, d.log, d.faults;
    }

    method Load(names: seq<string>) returns (response: Option<seq<(string, nat)>>)
      modifies this
      ensures State() == AfterLoad(old(State()), names)
      ensures response == if Fails(old(State())) then None else Some(Response(names, old(nextProgram)))
    {
      var ok := |log| !in faults;
      log := log + [LoadCall(names)];
      if !ok {
        return None;
      }
      var first: nat := nextProgram;
      for i := 0 to |names|
        invariant programs == WithNew(old(programs), first, i)
        invariant log == old(log) + [LoadCall(names)]
        modifies `programs
      {
        programs := programs[first + i := map[]];
      }
      nextProgram := first + |names|;
      response := Some(Response(names, first));
    }

    method Unload(p: nat) returns (ok: bool)
      modifies this
      ensures State() == AfterUnload(old(State()), p)
      ensures ok == (p in old(programs))
    {
      log := log + [UnloadCall(p)];
      ok := p in programs;
      programs := programs - {p};
    }

    method Attach(p: nat, point: AttachPoint, uuid: nat) returns (linkId: Option<nat>)
      modifies this
      ensures State() == AfterAttach(old(State()), p, point, uuid)
      ensures linkId == if AttachSucceeds(old(State()), p) then Some(old(nextLink)) else None
    {
      var fails := |log| in faults || p !in programs;
      log := log + [AttachCall(p, point, uuid)];
      if fails {
        return None;
      }
      linkId := Some(nextLink);
      var l: nat := nextLink;
      var held: map<nat, AttachPoint> := map[l := point];
      programs := programs[p := programs[p] + held];
      nextLink := nextLink + 1;
    }

    method Detach(l: nat) returns (ok: bool)
      modifies this
      ensures State() == AfterDetach(old(State()), l)
      ensures ok == !Fails(old(State()))
    {
      ok := |log| !in faults;
      log := log + [DetachCall(l)];
      if ok {
        programs := map p | p in programs :: programs[p] - {l};
      }
    }

    method Get(p: nat) returns (links: Option<set<nat>>)
      ensures links.Some? <==> p in programs
      ensures forall l: nat :: LinkExists(State(), p, l) <==> links.Some? && l in links.value
    {
      links := if p in programs then Some(programs[p].Keys) else None;
    }
  }
}
