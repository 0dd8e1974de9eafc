/**
 getExpectedLinks: how one requested attachment expands to the attach points it means on this node, through
 interface discovery, the node's interfaces and the containers found by a selector.
 */
module Expansion {
  import opened Types
  import opened Links

  const DEFAULT_ATTACH_PRIORITY := 1000
  const NETNS_PATH := "/run/netns"

  function Priority(p: Option<int>): int {
    if p.Some? then p.value else DEFAULT_ATTACH_PRIORITY
  }

  function Digits(n: nat): string {
    var d := ["0", "1", "2", "3", "4", "5", "6", "7", "8", "9"][n % 10];
    if n < 10 then d else Digits(n / 10) + d
  }

  function NetnsPathFromPid(pid: int): string {
    "/host/proc/" + (if pid < 0 then "-" + Digits(-pid) else Digits(pid)) + "/ns/net"
  }

  // ---- interface events ----

  datatype Event = Added(i: Interface) | Deleted(i: Interface) | OtherEvent

  function Handle(store: set<Interface>, e: Event): set<Interface> {
    match e
    case Added(i) => store + {i}
    case Deleted(i) => store - {i}
    case OtherEvent => store
  }

  function HandleAll(store: set<Interface>, events: seq<Event>): set<Interface> {
    if events == [] then store
    else Handle(HandleAll(store, events[..|events| - 1]), events[|events| - 1])
  }

  /** Event n is about i and no later event is. */
  ghost predicate IsLatest(events: seq<Event>, i: Interface, n: int) {
    && 0 <= n < |events| && !events[n].OtherEvent? && events[n].i == i
    && forall m :: n < m < |events| ==> events[m].OtherEvent? || events[m].i != i
  }

  /** After any events on an empty store it holds exactly the interfaces whose latest event is Added. */
  lemma {:induction false} StoreHoldsLatestAdded(events: seq<Event>, i: Interface)
    ensures i in HandleAll({}, events) <==> exists n :: IsLatest(events, i, n) && events[n].Added?
  {
    if events != [] {
      var init, e := events[..|events| - 1], events[|events| - 1];
      StoreHoldsLatestAdded(init, i);
      if !e.OtherEvent? && e.i == i {
        assert IsLatest(events, i, |events| - 1);
      } else {
        assert forall n :: IsLatest(init, i, n) <==> IsLatest(events, i, n);
      }
    }
  }

  class InterfaceDiscovery {
    var interfaces: set<Interface>

    constructor ()
      ensures interfaces == {}
    {
      interfaces := {};
    }

    /** The events received until the context is cancelled or the channel closes. */
    method Run(events: seq<Event>)
      modifies this
      ensures interfaces == HandleAll(old(interfaces), events)
    {
      for n := 0 to |events|
        invariant interfaces == HandleAll(old(interfaces), events[..n])
      {
        assert events[..n + 1][..n] == events[..n];
        match events[n] {
          case Added(i) => interfaces := interfaces + {i};
          case Deleted(i) => interfaces := interfaces - {i};
          case OtherEvent =>
        }
      }
      assert events[..|events|] == events;
    }
  }

  // ---- interface discovery ----

  function TrimLeft(s: string): string {
    if s != "" && s[0] == ' ' then TrimLeft(s[1..]) else s
  }

  function TrimRight(s: string): string {
    if s != "" && s[|s| - 1] == ' ' then TrimRight(s[..|s| - 1]) else s
  }

  /** A definition between slashes is a pattern, any other is an exact name. */
  predicate IsPattern(def: string) {
    |def| >= 2 && def[0] == '/' && def[|def| - 1] == '/'
  }

  /** The patterns and the exact names; a pattern that does not compile ends the list. */
  function AllowedLists(defs: seq<string>, compiles: set<string>): (seq<string>, seq<string>) {
    if defs == [] then ([], [])
    else
      var def := TrimLeft(TrimRight(defs[0]));
      if IsPattern(def) then
        var re := def[1..|def| - 1];
        if re !in compiles then ([], [])
        else
          var rest := AllowedLists(defs[1..], compiles);
          ([re] + rest.0, rest.1)
      else
        var rest := AllowedLists(defs[1..], compiles);
        (rest.0, [def] + rest.1)
  }

  method SetupAllowedInterfacesLists(defs: seq<string>, compiles: set<string>) returns (res: seq<string>, names: seq<string>)
    ensures (res, names) == AllowedLists(defs, compiles)
  {
    res, names := [], [];
    assert defs[0..] == defs;
    for n := 0 to |defs|
      invariant AllowedLists(defs, compiles).0 == res + AllowedLists(defs[n..], compiles).0
      invariant AllowedLists(defs, compiles).1 == names + AllowedLists(defs[n..], compiles).1
    {
      assert defs[n..][0] == defs[n] && defs[n..][1..] == defs[n + 1..];
      var def := TrimLeft(TrimRight(defs[n]));
      if IsPattern(def) {
        var re := def[1..|def| - 1];
        if re !in compiles {
          assert AllowedLists(defs[n..], compiles) == ([], []);
          assert res + [] == res && names + [] == names;
          return;
        }
        res := res + [re];
      } else {
        names := names + [def];
      }
    }
    assert defs[|defs|..] == [] && res + [] == res && names + [] == names;
  }

  predicate InAllowedList(name: string, res: seq<string>, names: seq<string>, matching: set<(string, string)>) {
    || (res == [] && names == [])
    || (exists re :: re in res && (re, name) in matching)
    || name in names
  }

  predicate Passes(i: Interface, cfg: DiscoveryConfig, env: Env) {
    var lists := AllowedLists(cfg.allowed, env.patterns);
    i.name !in cfg.exclude && InAllowedList(i.name, lists.0, lists.1, env.matching)
  }

  /** The (interface name, namespace path) pair a discovered interface stands for. */
  function PlaceOf(i: Interface): (string, string) {
    (i.name, if i.nsName == "" then "" else NETNS_PATH + "/" + i.nsName)
  }

  function Discovered(interfaces: seq<Interface>, cfg: DiscoveryConfig, env: Env): seq<(string, string)> {
    if interfaces == [] then []
    else
      var init, i := Discovered(interfaces[..|interfaces| - 1], cfg, env), interfaces[|interfaces| - 1];
      if Passes(i, cfg, env) && PlaceOf(i) !in init then init + [PlaceOf(i)] else init
  }

  /** In any iteration order: no duplicates, and exactly the places of the stored interfaces that pass. */
  lemma {:induction false} DiscoveredExact(interfaces: seq<Interface>, cfg: DiscoveryConfig, env: Env)
    ensures forall m, n :: 0 <= m < n < |Discovered(interfaces, cfg, env)| ==>
              Discovered(interfaces, cfg, env)[m] != Discovered(interfaces, cfg, env)[n]
    ensures forall p :: p in Discovered(interfaces, cfg, env) <==>
              exists i :: i in interfaces && Passes(i, cfg, env) && PlaceOf(i) == p
  {
    if interfaces != [] {
      var init, last := interfaces[..|interfaces| - 1], interfaces[|interfaces| - 1];
      DiscoveredExact(init, cfg, env);
      assert interfaces == init + [last];
      forall p
        ensures p in Discovered(interfaces, cfg, env) <==>
                exists i :: i in interfaces && Passes(i, cfg, env) && PlaceOf(i) == p
      {
        if i :| i in interfaces && Passes(i, cfg, env) && PlaceOf(i) == p {
          assert i in init || i == last;
        }
        if p in Discovered(init, cfg, env) {
          var i :| i in init && Passes(i, cfg, env) && PlaceOf(i) == p;
          assert i in interfaces;
        }
      }
    }
  }

  method GetDiscoveredInterfaces(cfg: DiscoveryConfig, env: Env) returns (r: seq<(string, string)>)
    ensures r == Discovered(env.interfaces, cfg, env)
  {
    r := [];
    var res, names := SetupAllowedInterfacesLists(cfg.allowed, env.patterns);
    var seen := {};
    for n := 0 to |env.interfaces|
      invariant r == Discovered(env.interfaces[..n], cfg, env)
      invariant forall p :: p in seen <==> p in r
    {
      assert env.interfaces[..n + 1][..n] == env.interfaces[..n];
      var i := env.interfaces[n];
      if i.name !in cfg.exclude && InAllowedList(i.name, res, names, env.matching) {
        var place := (i.name, "");
        if i.nsName != "" {
          place := (i.name, NETNS_PATH + "/" + i.nsName);
        }
        if place !in seen {
          r := r + [place];
          seen := seen + {place};
        }
      }
    }
    assert env.interfaces[..|env.interfaces|] == env.interfaces;
  }

  // ---- containers ----

  /** The first container of each pod, in order. */
  function OnePerPod(cs: seq<ContainerInfo>): seq<ContainerInfo> {
    if cs == [] then []
    else
      var init, c := cs[..|cs| - 1], cs[|cs| - 1];
      if exists b :: b in init && b.podName == c.podName then OnePerPod(init) else OnePerPod(init) + [c]
  }

  method GetOneContainerPerPod(cs: seq<ContainerInfo>) returns (r: seq<ContainerInfo>)
    ensures r == OnePerPod(cs)
  {
    r := [];
    var pods := {};
    for n := 0 to |cs|
      invariant r == OnePerPod(cs[..n])
      invariant forall p :: p in pods <==> exists b :: b in cs[..n] && b.podName == p
    {
      assert cs[..n + 1][..n] == cs[..n];
      assert forall b :: b in cs[..n + 1] <==> b in cs[..n] || b == cs[n];
      if cs[n].podName !in pods {
        pods := pods + {cs[n].podName};
        r := r + [cs[n]];
      }
    }
    assert cs[..|cs|] == cs;
  }

  /** c is in the list, and no earlier container is of its pod. */
  ghost predicate FirstOfPod(cs: seq<ContainerInfo>, c: ContainerInfo) {
    exists n :: 0 <= n < |cs| && cs[n] == c && forall m :: 0 <= m < n ==> cs[m].podName != c.podName
  }

  lemma FirstOfPodSnoc(cs: seq<ContainerInfo>, c: ContainerInfo, b: ContainerInfo)
    requires FirstOfPod(cs, b) || (b == c && forall x :: x in cs ==> x.podName != c.podName)
    ensures FirstOfPod(cs + [c], b)
  {
    var all := cs + [c];
    if n :| 0 <= n < |cs| && cs[n] == b && forall m :: 0 <= m < n ==> cs[m].podName != b.podName {
      assert all[n] == b && forall m :: 0 <= m < n ==> all[m] == cs[m];
    } else {
      assert all[|cs|] == c && forall m :: 0 <= m < |cs| ==> all[m] == cs[m] && cs[m] in cs;
    }
  }

  lemma {:induction false} OnePerPodFirst(cs: seq<ContainerInfo>)
    ensures forall b :: b in OnePerPod(cs) ==> b in cs && FirstOfPod(cs, b)
  {
    if cs != [] {
      var init, c := cs[..|cs| - 1], cs[|cs| - 1];
      assert cs == init + [c];
      OnePerPodFirst(init);
      forall b | b in OnePerPod(cs) ensures b in cs && FirstOfPod(cs, b) {
        FirstOfPodSnoc(init, c, b);
      }
    }
  }

  lemma {:induction false} OnePerPodCovers(cs: seq<ContainerInfo>, x: ContainerInfo)
    requires x in cs
    ensures exists b :: b in OnePerPod(cs) && b.podName == x.podName
  {
    var init, c := cs[..|cs| - 1], cs[|cs| - 1];
    assert cs == init + [c];
    if y :| y in init && y.podName == x.podName {
      OnePerPodCovers(init, y);
      var b :| b in OnePerPod(init) && b.podName == y.podName;
      assert b in OnePerPod(cs);
    } else {
      assert x == c && OnePerPod(cs)[|OnePerPod(cs)| - 1] == c;
    }
  }

  /** Exactly one container for every pod that has one, and it is the pod's first. */
  lemma {:induction false} OnePerPodExact(cs: seq<ContainerInfo>)
    ensures forall m, n :: 0 <= m < n < |OnePerPod(cs)| ==> OnePerPod(cs)[m].podName != OnePerPod(cs)[n].podName
    ensures forall c :: c in cs ==> exists b :: b in OnePerPod(cs) && b.podName == c.podName
    ensures forall b :: b in OnePerPod(cs) ==> b in cs && FirstOfPod(cs, b)
  {
    OnePerPodFirst(cs);
    forall c | c in cs ensures exists b :: b in OnePerPod(cs) && b.podName == c.podName {
      OnePerPodCovers(cs, c);
    }
    if cs != [] {
      var init, c := cs[..|cs| - 1], cs[|cs| - 1];
      OnePerPodExact(init);
      if OnePerPod(cs) != OnePerPod(init) {
        forall m | 0 <= m < |OnePerPod(init)| ensures OnePerPod(init)[m].podName != c.podName {
          assert OnePerPod(init)[m] in init;
        }
      }
    }
  }

  function ContainersFor(sel: ContainerSelector, env: Env): ContainerQuery {
    if sel in env.containers then env.containers[sel] else NoContainers
  }

  // ---- getExpectedLinks ----

  /** getInterfaces: the listed interfaces, or the primary one; None is an error. */
  function Interfaces(sel: InterfaceSelector, env: Env): Option<seq<string>> {
    if sel.interfaces != [] then Some(sel.interfaces)
    else if sel.primary then (if env.primaryInterface.Some? then Some([env.primaryInterface.value]) else None)
    else None
  }

  function PlacesIn(ifaces: seq<string>, path: string): (r: seq<(string, string)>)
    ensures |r| == |ifaces|
  {
    seq(|ifaces|, i requires 0 <= i < |ifaces| => (ifaces[i], path))
  }

  function PlacesInPods(cs: seq<ContainerInfo>, ifaces: seq<string>): seq<(string, string)> {
    if cs == [] then []
    else PlacesInPods(cs[..|cs| - 1], ifaces) + PlacesIn(ifaces, NetnsPathFromPid(cs[|cs| - 1].pid))
  }

  /** The (interface, namespace path) pairs of a TC, TCX or XDP attachment; None is an error. */
  function Places(sel: InterfaceSelector, netns: Option<ContainerSelector>, env: Env): Option<seq<(string, string)>> {
    if sel.discovery.Some? && sel.discovery.value.enabled then
      Some(Discovered(env.interfaces, sel.discovery.value, env))
    else
      var ifaces := Interfaces(sel, env);
      if ifaces.None? then None
      else if netns.Some? then
        match ContainersFor(netns.value, env)
        case QueryFailed => None
        case NoContainers => Some([])
        case Containers(cs) => Some(PlacesInPods(OnePerPod(cs), ifaces.value))
      else Some(PlacesIn(ifaces.value, ""))
  }

  /** The attach point of an interface-based attachment at one place. */
  function AtPlace(info: AttachInfo, place: (string, string)): AttachPoint
    requires info.TcInfo? || info.TcxInfo? || info.XdpInfo?
  {
    var p := Priority(info.prio);
    match info
    case TcInfo(_, _, _, dir, on) => TcPoint(place.0, place.1, p, dir, on)
    case TcxInfo(_, _, _, dir) => TcxPoint(place.0, place.1, p, dir)
    case XdpInfo(_, _, _, on) => XdpPoint(place.0, place.1, p, on)
  }

  function AtPlaces(info: AttachInfo, places: seq<(string, string)>): (r: seq<AttachPoint>)
    requires info.TcInfo? || info.TcxInfo? || info.XdpInfo?
    ensures |r| == |places|
  {
    seq(|places|, i requires 0 <= i < |places| => AtPlace(info, places[i]))
  }

  function UprobesIn(info: AttachInfo, cs: seq<ContainerInfo>): (r: seq<AttachPoint>)
    requires info.UprobeInfo?
    ensures |r| == |cs|
  {
    seq(|cs|, i requires 0 <= i < |cs| =>
      UprobePoint(info.func, info.offset, info.target, info.pid, Some(cs[i].pid)))
  }

  /** The attach points of one requested attachment, in order; None is an error. */
  function ExpandInfo(info: AttachInfo, env: Env): Option<seq<AttachPoint>> {
    match info
    case FentryInfo => Some([FentryPoint])
    case FexitInfo => Some([FexitPoint])
    case KprobeInfo(f, off) => Some([KprobePoint(f, off)])
    case KretprobeInfo(f) => Some([KretprobePoint(f)])
    case TracepointInfo(n) => Some([TracepointPoint(n)])
    case UprobeInfo(f, off, target, pid, sel) =>
      if sel.None? then Some([UprobePoint(f, off, target, pid, None)])
      else (
        match ContainersFor(sel.value, env)
        case QueryFailed => None
        case NoContainers => Some([])
        case Containers(cs) => Some(UprobesIn(info, cs)))
    case _ =>
      var places := Places(info.ifaces, info.netns, env);
      if places.None? then None else Some(AtPlaces(info, places.value))
  }

  /** The points of the attachments up to the first that fails to expand, and whether none did. */
  datatype Expanded = Expanded(points: seq<AttachPoint>, ok: bool)

  function Expand(infos: seq<AttachInfo>, env: Env): Expanded {
    if infos == [] then Expanded([], true)
    else
      var e := ExpandInfo(infos[0], env);
      if e.None? then Expanded([], false)
      else
        var rest := Expand(infos[1..], env);
        Expanded(e.value + rest.points, rest.ok)
  }

  function ExpectedKeys(infos: seq<AttachInfo>, env: Env): set<LinkKey> {
    PointKeys(Expand(infos, env).points, env.netns)
  }

  // ---- iteration order does not matter ----

  /** The same node seen with the discovered interfaces in another order. */
  ghost predicate Reordered(env: Env, env': Env) {
    env' == env.(interfaces := env'.interfaces) && multiset(env'.interfaces) == multiset(env.interfaces)
  }

  lemma ReorderedInfo(info: AttachInfo, env: Env, env': Env)
    requires Reordered(env, env')
    ensures ExpandInfo(info, env).Some? == ExpandInfo(info, env').Some?
    ensures ExpandInfo(info, env).Some? ==>
              forall p :: p in ExpandInfo(info, env).value <==> p in ExpandInfo(info, env').value
  {
    if info.TcInfo? || info.TcxInfo? || info.XdpInfo? {
      if info.ifaces.discovery.Some? && info.ifaces.discovery.value.enabled {
        var cfg := info.ifaces.discovery.value;
        var ps, ps' := Discovered(env.interfaces, cfg, env), Discovered(env'.interfaces, cfg, env');
        DiscoveredExact(env.interfaces, cfg, env);
        DiscoveredExact(env'.interfaces, cfg, env');
        forall i ensures i in env.interfaces <==> i in env'.interfaces {
          assert i in multiset(env.interfaces) <==> i in multiset(env'.interfaces);
        }
        assert forall i :: Passes(i, cfg, env) == Passes(i, cfg, env');
        AtPlacesMembers(info, ps);
        AtPlacesMembers(info, ps');
      }
    }
  }

  lemma AtPlacesMembers(info: AttachInfo, places: seq<(string, string)>)
    requires info.TcInfo? || info.TcxInfo? || info.XdpInfo?
    ensures forall p :: p in AtPlaces(info, places) <==> exists q :: q in places && AtPlace(info, q) == p
  {
    forall p | p in AtPlaces(info, places) ensures exists q :: q in places && AtPlace(info, q) == p {
      var i :| 0 <= i < |places| && AtPlaces(info, places)[i] == p;
      assert places[i] in places;
    }
    forall q | q in places ensures AtPlace(info, q) in AtPlaces(info, places) {
      var i :| 0 <= i < |places| && places[i] == q;
      assert AtPlaces(info, places)[i] == AtPlace(info, q);
    }
  }

  /** The iteration order of the interface store cannot change which keys are expected. */
  lemma {:induction false} ReorderedExpectation(infos: seq<AttachInfo>, env: Env, env': Env)
    requires Reordered(env, env')
    ensures Expand(infos, env).ok == Expand(infos, env').ok
    ensures forall p :: p in Expand(infos, env).points <==> p in Expand(infos, env').points
    ensures ExpectedKeys(infos, env) == ExpectedKeys(infos, env')
  {
    if infos != [] {
      ReorderedInfo(infos[0], env, env');
      ReorderedExpectation(infos[1..], env, env');
    }
  }

  /** Nor can the order in which the spec lists its attachments, when all of them expand. */
  lemma PermutedInfos(infos: seq<AttachInfo>, infos': seq<AttachInfo>, env: Env)
    requires multiset(infos) == multiset(infos')
    ensures Expand(infos, env).ok == Expand(infos', env).ok
    ensures Expand(infos, env).ok ==> ExpectedKeys(infos, env) == ExpectedKeys(infos', env)
  {
    ExpandMembers(infos, env);
    ExpandMembers(infos', env);
    forall i ensures i in infos <==> i in infos' {
      assert i in multiset(infos) <==> i in multiset(infos');
    }
  }

  lemma {:induction false} ExpandMembers(infos: seq<AttachInfo>, env: Env)
    ensures Expand(infos, env).ok <==> forall i :: i in infos ==> ExpandInfo(i, env).Some?
    ensures Expand(infos, env).ok ==>
              forall p :: p in Expand(infos, env).points <==> exists i :: i in infos && p in ExpandInfo(i, env).value
  {
    if infos != [] {
      ExpandMembers(infos[1..], env);
      assert infos == [infos[0]] + infos[1..];
      assert infos[0] in infos && forall i :: i in infos[1..] ==> i in infos;
    }
  }
}
