/**
 The reconciler of one program (ClTcProgramReconciler and its siblings): the loops that update its link list
 in place and act on the daemon, proved against the functions of Programs.
 */
module ProgramReconcilers {
  import opened Types
  import L = Links
  import opened Daemons
  import opened Expansion
  import P = Programs
  import opened AttachPlaces
  import opened ExpectedPoints
  import opened NetNs

  /** The namespace path of an interface-based link. */
  function PathOf(p: AttachPoint): Option<string> {
    match p
    case TcPoint(_, path, _, _, _) => Some(path)
    case TcxPoint(_, path, _, _) => Some(path)
    case XdpPoint(_, path, _, _) => Some(path)
    case _ => None
  }

  /** Everything findLink compares but the namespace. */
  function Blank(p: AttachPoint): AttachPoint {
    match p
    case TcPoint(i, _, prio, dir, on) => TcPoint(i, "", prio, dir, on)
    case TcxPoint(i, _, prio, dir) => TcxPoint(i, "", prio, dir)
    case XdpPoint(i, _, prio, on) => XdpPoint(i, "", prio, on)
    case _ => p
  }

  lemma KeySplits(p: AttachPoint, netns: map<string, nat>)
    ensures L.KeyOf(p, netns) == match PathOf(p)
                                 case None => Some(L.LinkKey(p, None))
                                 case Some(path) => L.NetnsKey(Blank(p), L.NetnsId(netns, path))
  {
  }

  lemma MintSnoc(points: seq<AttachPoint>, p: AttachPoint, uuid: nat)
    ensures L.Mint(points + [p], uuid) == L.Mint(points, uuid) + [Link(p, true, uuid + |points|, None, ApAttachNotAttached)]
  {
  }

  lemma MintAppend(ps: seq<AttachPoint>, qs: seq<AttachPoint>, uuid: nat)
    ensures L.Mint(ps + qs, uuid) == L.Mint(ps, uuid) + L.Mint(qs, uuid + |ps|)
  {
  }

  lemma MintPlaces(info: AttachInfo, ps: seq<(string, string)>, qs: seq<(string, string)>, uuid: nat)
    requires info.TcInfo? || info.TcxInfo? || info.XdpInfo?
    ensures L.Mint(AtPlaces(info, ps + qs), uuid) ==
            L.Mint(AtPlaces(info, ps), uuid) + L.Mint(AtPlaces(info, qs), uuid + |ps|)
  {
    assert AtPlaces(info, ps + qs) == AtPlaces(info, ps) + AtPlaces(info, qs);
    MintAppend(AtPlaces(info, ps), AtPlaces(info, qs), uuid);
  }

  lemma NoPlaces(info: AttachInfo, uuid: nat)
    requires info.TcInfo? || info.TcxInfo? || info.XdpInfo?
    ensures L.Mint(AtPlaces(info, []), uuid) == []
  {
  }

  lemma NoneToRemove(links: seq<Link>, linksToRemove: set<nat>)
    requires linksToRemove == {} && forall k: nat :: k < |links| ==> (k in linksToRemove <==> P.Removable(links[k]))
    ensures P.Kept(links) == links
  {
    forall l | l in links ensures !P.Removable(l) {
      var k: nat :| k < |links| && links[k] == l;
      assert k !in linksToRemove;
    }
    P.KeptAll(links);
  }

  /** One entry, wanted and not attached, for each point the attachment calls for, under consecutive uuids. */
  ghost predicate EntriesFor(entries: seq<Link>, info: AttachInfo, env: Env, uuid: nat) {
    && (forall k :: 0 <= k < |entries| ==>
          && WantsPoint(info, env, entries[k].point) && entries[k].uuid == uuid + k
          && entries[k].shouldAttach && entries[k].linkId == None && entries[k].status == ApAttachNotAttached)
    && (forall p :: WantsPoint(info, env, p) ==> exists k :: 0 <= k < |entries| && entries[k].point == p)
  }

  lemma MintedFor(info: AttachInfo, env: Env, uuid: nat)
    requires ExpandInfo(info, env).Some?
    ensures EntriesFor(L.Mint(ExpandInfo(info, env).value, uuid), info, env, uuid)
  {
    hide WantsPoint, ExpandInfo;
    ExpandInfoMeans(info, env);
    var points := ExpandInfo(info, env).value;
    var entries := L.Mint(points, uuid);
    forall k | 0 <= k < |entries| ensures WantsPoint(info, env, entries[k].point) {
      assert points[k] in points;
    }
    forall p | WantsPoint(info, env, p) ensures exists k :: 0 <= k < |entries| && entries[k].point == p {
      var k :| 0 <= k < |points| && points[k] == p;
      assert entries[k].point == p;
    }
  }

  lemma MergeNone(links: seq<Link>, netns: map<string, nat>)
    ensures L.MergeAll(links, [], netns) == links
  {
  }

  lemma {:induction false} MergeAppend(links: seq<Link>, es: seq<Link>, fs: seq<Link>, netns: map<string, nat>)
    ensures L.MergeAll(links, es + fs, netns) == L.MergeAll(L.MergeAll(links, es, netns), fs, netns)
  {
    if fs == [] {
      assert es + fs == es;
    } else {
      assert (es + fs)[..|es + fs| - 1] == es + fs[..|fs| - 1];
      MergeAppend(links, es, fs[..|fs| - 1], netns);
    }
  }

  lemma {:induction false} ExpandSnoc(infos: seq<AttachInfo>, i: nat, env: Env)
    requires i < |infos| && Expand(infos[..i], env).ok
    ensures var e := ExpandInfo(infos[i], env);
            && Expand(infos[..i + 1], env) ==
               (if e.Some? then Expanded(Expand(infos[..i], env).points + e.value, true)
                else Expanded(Expand(infos[..i], env).points, false))
            && (e.None? ==> Expand(infos, env) == Expanded(Expand(infos[..i], env).points, false))
  {
    hide ExpandInfo;
    if i == 0 {
      assert infos[..1][1..] == [] && infos[..1][0] == infos[0];
    } else {
      var rest := infos[1..];
      assert infos[..i][1..] == rest[..i - 1] && infos[..i + 1][1..] == rest[..i];
      ExpandSnoc(rest, i - 1, env);
      var e0, e := ExpandInfo(infos[0], env).value, ExpandInfo(infos[i], env);
      if e.Some? {
        assert e0 + (Expand(rest[..i - 1], env).points + e.value) == (e0 + Expand(rest[..i - 1], env).points) + e.value;
      }
    }
  }

  class ProgramReconciler {
    const spec: ProgSpec
    const env: Env
    const client: Bpfman
    const netNs: NetNsCache
    const entry: ProgState
    var links: seq<Link>
    var linkStatus: ProgramLinkStatus
    var uuid: nat
    var currentLink: nat

    constructor (spec: ProgSpec, entry: ProgState, env: Env, client: Bpfman, netNs: NetNsCache, uuid: nat)
      ensures this.spec == spec && this.entry == entry && this.env == env
      ensures this.client == client && this.netNs == netNs && this.uuid == uuid
      ensures links == entry.links && linkStatus == entry.linkStatus
    {
      this.spec, this.entry, this.env, this.client, this.netNs, this.uuid := spec, entry, env, client, netNs, uuid;
      links, linkStatus, currentLink := entry.links, entry.linkStatus, 0;
    }

    /** The entry of the state object as it stands. */
    function Prog(): ProgState
      reads this
    {
      entry.(links := links, linkStatus := linkStatus)
    }

    // ---- getExpectedLinks ----

    method CreateLinkEntry(point: AttachPoint) returns (l: Link)
      modifies this`uuid
      ensures l == Link(point, true, old(uuid), None, ApAttachNotAttached) && uuid == old(uuid) + 1
    {
      l := Link(point, true, uuid, None, ApAttachNotAttached);
      uuid := uuid + 1;
    }

    /** One entry per place. */
    method CreateEntriesAt(info: AttachInfo, places: seq<(string, string)>) returns (nodeLinks: seq<Link>)
      requires info.TcInfo? || info.TcxInfo? || info.XdpInfo?
      modifies this`uuid
      ensures nodeLinks == L.Mint(AtPlaces(info, places), old(uuid)) && uuid == old(uuid) + |places|
    {
      nodeLinks := [];
      for k := 0 to |places|
        invariant nodeLinks == L.Mint(AtPlaces(info, places[..k]), old(uuid)) && uuid == old(uuid) + k
      {
        var link := CreateLinkEntry(AtPlace(info, places[k]));
        assert AtPlaces(info, places[..k + 1]) == AtPlaces(info, places[..k]) + [AtPlace(info, places[k])];
        MintSnoc(AtPlaces(info, places[..k]), AtPlace(info, places[k]), old(uuid));
        nodeLinks := nodeLinks + [link];
      }
      assert places[..|places|] == places;
    }

    /** One entry per container and interface, in that order. */
    method CreateEntriesInPods(info: AttachInfo, cs: seq<ContainerInfo>, ifaces: seq<string>) returns (nodeLinks: seq<Link>)
      requires info.TcInfo? || info.TcxInfo? || info.XdpInfo?
      modifies this`uuid
      ensures nodeLinks == L.Mint(AtPlaces(info, PlacesInPods(cs, ifaces)), old(uuid))
      ensures uuid == old(uuid) + |PlacesInPods(cs, ifaces)|
    {
      hide L.Mint, AtPlaces, PlacesIn;
      nodeLinks := [];
      NoPlaces(info, uuid);
      for i := 0 to |cs|
        invariant nodeLinks == L.Mint(AtPlaces(info, PlacesInPods(cs[..i], ifaces)), old(uuid))
        invariant uuid == old(uuid) + |PlacesInPods(cs[..i], ifaces)|
      {
        var netnsPath := NetnsPathFromPid(cs[i].pid);
        var entries := CreateEntriesAt(info, PlacesIn(ifaces, netnsPath));
        assert cs[..i + 1][..i] == cs[..i];
        MintPlaces(info, PlacesInPods(cs[..i], ifaces), PlacesIn(ifaces, netnsPath), old(uuid));
        nodeLinks := nodeLinks + entries;
      }
      assert cs[..|cs|] == cs;
    }

    method CreateUprobeEntries(info: AttachInfo, cs: seq<ContainerInfo>) returns (nodeLinks: seq<Link>)
      requires info.UprobeInfo?
      modifies this`uuid
      ensures nodeLinks == L.Mint(UprobesIn(info, cs), old(uuid)) && uuid == old(uuid) + |cs|
    {
      nodeLinks := [];
      for i := 0 to |cs|
        invariant nodeLinks == L.Mint(UprobesIn(info, cs[..i]), old(uuid)) && uuid == old(uuid) + i
      {
        var point := UprobePoint(info.func, info.offset, info.target, info.pid, Some(cs[i].pid));
        var link := CreateLinkEntry(point);
        assert UprobesIn(info, cs[..i + 1]) == UprobesIn(info, cs[..i]) + [point];
        MintSnoc(UprobesIn(info, cs[..i]), point, old(uuid));
        nodeLinks := nodeLinks + [link];
      }
      assert cs[..|cs|] == cs;
    }

    /**
     The expected links of one requested attachment: a fresh entry for each point it calls for; None if it cannot be
     expanded.
     */
    method GetExpectedLinks(info: AttachInfo) returns (nodeLinks: Option<seq<Link>>)
      modifies this`uuid
      ensures nodeLinks.Some? == ExpandInfo(info, env).Some?
      ensures nodeLinks.Some? ==>
                && nodeLinks.value == L.Mint(ExpandInfo(info, env).value, old(uuid))
                && uuid == old(uuid) + |ExpandInfo(info, env).value|
      ensures nodeLinks.None? ==> uuid == old(uuid)
      ensures nodeLinks.None? <==> CannotExpand(info, env)
      ensures nodeLinks.Some? ==> EntriesFor(nodeLinks.value, info, env, old(uuid)) && uuid == old(uuid) + |nodeLinks.value|
    {
      hide CannotExpand, EntriesFor;
      ExpandInfoMeans(info, env);
      if ExpandInfo(info, env).Some? {
        MintedFor(info, env, uuid);
      }
      nodeLinks := ExpandEntries(info);
    }

    method ExpandEntries(info: AttachInfo) returns (nodeLinks: Option<seq<Link>>)
      modifies this`uuid
      ensures nodeLinks.Some? == ExpandInfo(info, env).Some?
      ensures nodeLinks.Some? ==>
                && nodeLinks.value == L.Mint(ExpandInfo(info, env).value, old(uuid))
                && uuid == old(uuid) + |ExpandInfo(info, env).value|
      ensures nodeLinks.None? ==> uuid == old(uuid)
    {
      match info
      case UprobeInfo(func, offset, target, pid, sel) =>
        if sel.None? {
          var link := CreateLinkEntry(UprobePoint(func, offset, target, pid, None));
          return Some([link]);
        }
        match ContainersFor(sel.value, env) {
          case QueryFailed => return None;
          case NoContainers => return Some([]);
          case Containers(cs) =>
            var entries := CreateUprobeEntries(info, cs);
            return Some(entries);
        }
      case TcInfo(_, _, _, _, _) => nodeLinks := GetInterfaceLinks(info);
      case TcxInfo(_, _, _, _) => nodeLinks := GetInterfaceLinks(info);
      case XdpInfo(_, _, _, _) => nodeLinks := GetInterfaceLinks(info);
      case FentryInfo => nodeLinks := GetOneLink(FentryPoint);
      case FexitInfo => nodeLinks := GetOneLink(FexitPoint);
      case KprobeInfo(func, offset) => nodeLinks := GetOneLink(KprobePoint(func, offset));
      case KretprobeInfo(func) => nodeLinks := GetOneLink(KretprobePoint(func));
      case TracepointInfo(name) => nodeLinks := GetOneLink(TracepointPoint(name));
    }

    method GetOneLink(point: AttachPoint) returns (nodeLinks: Option<seq<Link>>)
      modifies this`uuid
      ensures nodeLinks == Some(L.Mint([point], old(uuid))) && uuid == old(uuid) + 1
    {
      var link := CreateLinkEntry(point);
      assert L.Mint([point], old(uuid)) == [link];
      nodeLinks := Some([link]);
    }

    method GetInterfaceLinks(info: AttachInfo) returns (nodeLinks: Option<seq<Link>>)
      requires info.TcInfo? || info.TcxInfo? || info.XdpInfo?
      modifies this`uuid
      ensures nodeLinks.Some? == ExpandInfo(info, env).Some?
      ensures nodeLinks.Some? ==>
                && nodeLinks.value == L.Mint(ExpandInfo(info, env).value, old(uuid))
                && uuid == old(uuid) + |ExpandInfo(info, env).value|
      ensures nodeLinks.None? ==> uuid == old(uuid)
    {
      var sel := info.ifaces;
      if sel.discovery.Some? && sel.discovery.value.enabled {
        var found := GetDiscoveredInterfaces(sel.discovery.value, env);
        var entries := CreateEntriesAt(info, found);
        return Some(entries);
      }
      var ifaces := Interfaces(sel, env);
      if ifaces.None? {
        return None;
      }
      if info.netns.Some? {
        match ContainersFor(info.netns.value, env) {
          case QueryFailed => return None;
          case NoContainers => return Some([]);
          case Containers(found) =>
            var cs := GetOneContainerPerPod(found);
            var entries := CreateEntriesInPods(info, cs, ifaces.value);
            return Some(entries);
        }
      }
      var entries := CreateEntriesAt(info, PlacesIn(ifaces.value, ""));
      return Some(entries);
    }

    // ---- updateLinks ----

    /** `valid` is false when the namespace of the new link cannot be resolved. */
    method FindLink(link: Link) returns (valid: bool, index: Option<nat>)
      requires netNs.Agrees(env.netns)
      modifies netNs
      ensures netNs.Agrees(env.netns)
      ensures valid <==> L.KeyOf(link.point, env.netns).Some?
      ensures valid ==> index == L.FindLink(links, L.KeyOf(link.point, env.netns).value, env.netns)
      ensures valid <==> Resolves(link.point, env.netns)
      ensures valid && index.Some? ==> FirstAt(links, index.value, link.point, env.netns)
      ensures valid && index.None? ==> forall i :: 0 <= i < |links| ==> !SamePlace(links[i].point, link.point, env.netns)
    {
      hide Resolves, SamePlace, FirstAt;
      ResolvesIff(link.point, env.netns);
      if Resolves(link.point, env.netns) {
        FindLinkFindsPlace(links, link.point, env.netns);
      }
      KeySplits(link.point, env.netns);
      var path, newId := PathOf(link.point), None;
      if path.Some? {
        newId := netNs.GetNetNsId(path.value, env.netns);
        if newId.None? {
          return false, None;
        }
      }
      ghost var key := L.KeyOf(link.point, env.netns).value;
      var i := 0;
      while i < |links|
        invariant 0 <= i <= |links| && netNs.Agrees(env.netns)
        invariant L.FindLink(links, key, env.netns) == L.FindLink(links, key, env.netns, i)
      {
        var a := links[i].point;
        KeySplits(a, env.netns);
        if Blank(a) == Blank(link.point) {
          var oldId := None;
          if path.Some? && PathOf(a).Some? {
            oldId := netNs.GetNetNsId(PathOf(a).value, env.netns);
          }
          if oldId == newId {
            return true, Some(i);
          }
        }
        i := i + 1;
      }
      return true, None;
    }

    method UnmarkLinks()
      modifies this`links
      ensures links == L.UnmarkAll(old(links))
    {
      for i := 0 to |links|
        invariant |links| == |old(links)|
        invariant forall k :: 0 <= k < i ==> links[k] == old(links)[k].(shouldAttach := false)
        invariant forall k :: i <= k < |links| ==> links[k] == old(links)[k]
      {
        links := links[i := links[i].(shouldAttach := false)];
      }
    }

    /** Mark each expected link that is there and append each that is not. */
    method MergeLinks(expected: seq<Link>)
      requires netNs.Agrees(env.netns)
      modifies this`links, netNs
      ensures netNs.Agrees(env.netns)
      ensures links == L.MergeAll(old(links), expected, env.netns)
    {
      for j := 0 to |expected|
        invariant netNs.Agrees(env.netns)
        invariant links == L.MergeAll(old(links), expected[..j], env.netns)
      {
        var link := expected[j];
        assert expected[..j + 1][..j] == expected[..j];
        var valid, index := FindLink(link);
        if valid {
          if index.Some? {
            links := links[index.value := links[index.value].(shouldAttach := true)];
          } else {
            links := links + [link];
          }
        }
      }
      assert expected[..|expected|] == expected;
    }

    method UpdateLinks(isBeingDeleted: bool) returns (ok: bool)
      requires netNs.Agrees(env.netns)
      modifies this`links, this`uuid, netNs
      ensures netNs.Agrees(env.netns)
      ensures isBeingDeleted ==> ok && links == L.UnmarkAll(old(links)) && uuid == old(uuid)
      ensures !isBeingDeleted ==>
                var e := Expand(spec.infos, env);
                && ok == e.ok && uuid == old(uuid) + |e.points|
                && links == L.UpdateLinks(old(links), L.Mint(e.points, old(uuid)), env.netns)
    {
      hide L.MergeAll, L.FindLink, L.Merge, L.UnmarkAll, ExpandInfo;
      UnmarkLinks();
      if isBeingDeleted {
        return true;
      }
      ghost var unmarked := links;
      MergeNone(unmarked, env.netns);
      for i := 0 to |spec.infos|
        invariant netNs.Agrees(env.netns)
        invariant Expand(spec.infos[..i], env).ok
        invariant uuid == old(uuid) + |Expand(spec.infos[..i], env).points|
        invariant links == L.MergeAll(unmarked, L.Mint(Expand(spec.infos[..i], env).points, old(uuid)), env.netns)
      {
        ExpandSnoc(spec.infos, i, env);
        ghost var points := Expand(spec.infos[..i], env).points;
        var expected := GetExpectedLinks(spec.infos[i]);
        if expected.None? {
          return false;
        }
        MintAppend(points, ExpandInfo(spec.infos[i], env).value, old(uuid));
        MergeAppend(unmarked, L.Mint(points, old(uuid)), expected.value, env.netns);
        MergeLinks(expected.value);
      }
      assert spec.infos[..|spec.infos|] == spec.infos;
      return true;
    }

    // ---- processLinks ----

    method DoesLinkExist(programId: nat, linkId: nat) returns (found: bool)
      ensures found == LinkExists(client.State(), programId, linkId)
    {
      var held := client.Get(programId);
      found := held.Some? && linkId in held.value;
    }

    method IsAttached() returns (attached: bool)
      requires currentLink < |links|
      ensures attached == P.Attached(links[currentLink], entry.programId, client.State())
    {
      if entry.programId.None? || links[currentLink].linkId.None? {
        return false;
      }
      attached := DoesLinkExist(entry.programId.value, links[currentLink].linkId.value);
    }

    method SetLink(linkId: Option<nat>, status: LinkStatus)
      requires currentLink < |links|
      modifies this`links
      ensures links == old(links)[currentLink := old(links)[currentLink].(linkId := linkId, status := status)]
    {
      links := links[currentLink := links[currentLink].(linkId := linkId, status := status)];
    }

    /** `panicked`: the attach request dereferences a program id that is not there. */
    method ReconcileBpfLink() returns (remove: bool, panicked: bool)
      requires currentLink < |links|
      modifies this`links, client
      ensures panicked <==> old(links)[currentLink].shouldAttach && entry.programId.None?
      ensures panicked ==> links == old(links) && client.State() == old(client.State())
      ensures !panicked ==>
                && (links, client.State()) == (
                     var (l, d) := P.ReconcileLink(old(links)[currentLink], entry.programId, old(client.State()));
                     (old(links)[currentLink := l], d))
                && remove == P.Removable(links[currentLink])
    {
      var link := links[currentLink];
      var attached := IsAttached();
      panicked := false;
      if link.shouldAttach {
        if attached {
          SetLink(link.linkId, ApAttachAttached);
        } else {
          if entry.programId.None? {
            return false, true;
          }
          var linkId := client.Attach(entry.programId.value, link.point, link.uuid);
          if linkId.None? {
            SetLink(link.linkId, ApAttachError);
          } else {
            SetLink(linkId, ApAttachAttached);
          }
        }
      } else {
        if attached {
          var ok := client.Detach(link.linkId.value);
          if !ok {
            SetLink(link.linkId, ApDetachError);
          } else {
            SetLink(None, ApAttachNotAttached);
          }
        } else {
          SetLink(link.linkId, ApAttachNotAttached);
        }
      }
      remove := !link.shouldAttach && links[currentLink].status == ApAttachNotAttached;
    }

    method RemoveLinks(ls: seq<Link>, linksToRemove: set<nat>) returns (remaining: seq<Link>)
      requires forall i: nat :: i < |ls| ==> (i in linksToRemove <==> P.Removable(ls[i]))
      ensures remaining == P.Kept(ls)
    {
      remaining := [];
      for i := 0 to |ls|
        invariant remaining == P.Kept(ls[..i])
      {
        assert ls[..i + 1][..i] == ls[..i];
        if i !in linksToRemove {
          remaining := remaining + [ls[i]];
        }
      }
      assert ls[..|ls|] == ls;
    }

    method UpdateProgramAttachStatus()
      modifies this`linkStatus
      ensures linkStatus == P.AttachStatus(links)
    {
      for i := 0 to |links|
        invariant forall k :: 0 <= k < i ==> P.AttachSuccess(links[k])
      {
        if !P.AttachSuccess(links[i]) {
          assert links[i] in links;
          linkStatus := ProgAttachError;
          return;
        }
      }
      linkStatus := ProgAttachSuccess;
    }

    method ProcessLinks() returns (panicked: bool)
      modifies this`links, this`linkStatus, this`currentLink, client
      ensures panicked <==> P.Panics(old(links), entry.programId)
      ensures panicked ==> client.State() == old(client.State())
      ensures !panicked ==>
                var (ls, d) := P.ReconcileUpTo(old(links), |old(links)|, entry.programId, old(client.State()));
                client.State() == d && links == P.Kept(ls) && linkStatus == P.AttachStatus(links)
    {
      hide P.AttachStatus, P.Kept, P.Removable;
      var linksToRemove: set<nat> := {};
      ghost var panics := P.Panics(links, entry.programId);
      for i := 0 to |links|
        invariant |links| == |old(links)| && (forall k :: i <= k < |links| ==> links[k] == old(links)[k])
        invariant panics ==> client.State() == old(client.State()) && forall k :: 0 <= k < i ==> !old(links)[k].shouldAttach
        invariant !panics ==> (links, client.State()) == P.ReconcileUpTo(old(links), i, entry.programId, old(client.State()))
        invariant forall k: nat :: k < i ==> (k in linksToRemove <==> P.Removable(links[k]))
        invariant forall k :: k in linksToRemove ==> k < i
      {
        currentLink := i;
        var remove, stop := ReconcileBpfLink();
        if stop {
          return true;
        }
        if remove {
          linksToRemove := linksToRemove + {i};
        }
      }
      if |linksToRemove| > 0 {
        links := RemoveLinks(links, linksToRemove);
      } else {
        NoneToRemove(links, linksToRemove);
      }
      UpdateProgramAttachStatus();
      return false;
    }

    // ---- reconcileProgram ----

    method ReconcileProgram() returns (panicked: bool)
      requires netNs.Agrees(env.netns) && links == entry.links && linkStatus == entry.linkStatus
      modifies this, client, netNs
      ensures netNs.Agrees(env.netns)
      ensures var r := P.ReconcileProgram(spec, old(Prog()), old(client.State()), env, old(uuid));
              && panicked == r.panicked && client.State() == r.daemon && uuid == r.uuid
              && (!panicked ==> Prog() == r.prog)
    {
      var ok := UpdateLinks(false);
      if !ok {
        linkStatus := UpdateAttachInfoError;
        return false;
      }
      panicked := ProcessLinks();
    }
  }
}
