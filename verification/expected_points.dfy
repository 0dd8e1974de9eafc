/** Which attach points a requested attachment calls for on a node, field by field. */
module ExpectedPoints {
  import opened Types
  import opened Expansion
  import opened AttachPlaces

  // ---- decimal numbers ----

  function Value(s: string): nat
    requires forall i :: 0 <= i < |s| ==> '0' <= s[i] <= '9'
  {
    if s == "" then 0 else 10 * Value(s[..|s| - 1]) + (s[|s| - 1] - '0') as nat
  }

  /** The decimal representation of n, as %d prints it. */
  ghost predicate Decimal(s: string, n: nat) {
    && s != "" && (forall i :: 0 <= i < |s| ==> '0' <= s[i] <= '9')
    && (|s| > 1 ==> s[0] != '0') && Value(s) == n
  }

  lemma DigitIs(d: nat)
    requires d < 10
    ensures Digits(d) == [['0', '1', '2', '3', '4', '5', '6', '7', '8', '9'][d]] && Decimal(Digits(d), d)
  {
    assert Digits(d)[..0] == "";
  }

  lemma {:induction false} DigitsIs(n: nat)
    ensures Decimal(Digits(n), n)
  {
    if n < 10 {
      DigitIs(n);
    } else {
      DigitsIs(n / 10);
      DigitIs(n % 10);
      var s := Digits(n);
      assert s == Digits(n / 10) + Digits(n % 10);
      assert s[..|s| - 1] == Digits(n / 10);
      NoLeadingZero(n / 10);
    }
  }

  lemma NoLeadingZero(n: nat)
    requires n > 0 && Decimal(Digits(n), n)
    ensures Digits(n)[0] != '0'
  {
    if |Digits(n)| == 1 {
      assert Digits(n)[..0] == "";
    }
  }

  lemma {:induction false} ValuePositive(s: string)
    requires s != "" && (forall i :: 0 <= i < |s| ==> '0' <= s[i] <= '9') && s[0] != '0'
    ensures Value(s) > 0
  {
    if |s| > 1 {
      ValuePositive(s[..|s| - 1]);
    }
  }

  lemma {:induction false} DecimalUnique(s: string, t: string, n: nat)
    requires Decimal(s, n) && Decimal(t, n)
    ensures s == t
  {
    var s0, t0 := s[..|s| - 1], t[..|t| - 1];
    assert Value(s0) == n / 10 == Value(t0);
    assert s[|s| - 1] == t[|t| - 1];
    if s0 != "" {
      ValuePositive(s0);
    }
    if t0 != "" {
      ValuePositive(t0);
    }
    if s0 != "" && t0 != "" {
      DecimalUnique(s0, t0, n / 10);
    } else {
      assert s0 == "" && t0 == "";
    }
    assert s == s0 + [s[|s| - 1]] && t == t0 + [t[|t| - 1]];
  }

  function Magnitude(n: int): nat {
    if n < 0 then -n else n
  }

  /** The namespace path of a process. */
  ghost predicate PathOfPid(path: string, pid: int) {
    exists s :: Decimal(s, Magnitude(pid)) &&
                path == "/host/proc/" + (if pid < 0 then "-" else "") + s + "/ns/net"
  }

  lemma PathOfPidIff(path: string, pid: int)
    ensures PathOfPid(path, pid) <==> path == NetnsPathFromPid(pid)
  {
    hide Decimal;
    var n := Magnitude(pid);
    DigitsIs(n);
    if s :| Decimal(s, n) && path == "/host/proc/" + (if pid < 0 then "-" else "") + s + "/ns/net" {
      DecimalUnique(s, Digits(n), n);
    }
    assert NetnsPathFromPid(pid) == "/host/proc/" + (if pid < 0 then "-" else "") + Digits(n) + "/ns/net";
  }

  // ---- the places an attachment asks for ----

  /** A listed interface, or without a list the primary one if it is asked for. */
  ghost predicate OnInterface(sel: InterfaceSelector, env: Env, name: string) {
    if sel.interfaces != [] then name in sel.interfaces
    else sel.primary && env.primaryInterface == Some(name)
  }

  ghost predicate Discovers(sel: InterfaceSelector) {
    sel.discovery.Some? && sel.discovery.value.enabled
  }

  /** The selector finds the container. */
  ghost predicate Finds(sel: ContainerSelector, env: Env, c: ContainerInfo) {
    sel in env.containers && env.containers[sel].Containers? && c in env.containers[sel].found
  }

  /** The selector finds the container, and it is the first of its pod. */
  ghost predicate FindsFirst(sel: ContainerSelector, env: Env, c: ContainerInfo) {
    sel in env.containers && env.containers[sel].Containers? && FirstOfPod(env.containers[sel].found, c)
  }

  /** The lookup of the selector's containers fails. */
  ghost predicate LookupFails(sel: Option<ContainerSelector>, env: Env) {
    sel.Some? && sel.value in env.containers && env.containers[sel.value].QueryFailed?
  }

  /**
   The interface at the namespace path: a discovered one whose name is not excluded and is allowed; or else a
   listed or primary one, at the host's path, or at that of one container per pod if containers are selected.
   */
  ghost predicate WantsPlace(sel: InterfaceSelector, netns: Option<ContainerSelector>, env: Env, name: string, path: string) {
    if Discovers(sel) then
      var cfg := sel.discovery.value;
      && name !in cfg.exclude && Allowed(cfg.allowed, name, env.patterns, env.matching)
      && exists i :: i in env.interfaces && i.name == name && path == if i.nsName == "" then "" else "/run/netns/" + i.nsName
    else
      && OnInterface(sel, env, name)
      && if netns.None? then path == "" else exists c :: FindsFirst(netns.value, env, c) && PathOfPid(path, c.pid)
  }

  /** The point is of the attachment's kind, carries its fields, and is at a place the attachment asks for. */
  ghost predicate WantsPoint(info: AttachInfo, env: Env, p: AttachPoint) {
    || (info.FentryInfo? && p.FentryPoint?)
    || (info.FexitInfo? && p.FexitPoint?)
    || (info.KprobeInfo? && p.KprobePoint? && p.func == info.func && p.offset == info.offset)
    || (info.KretprobeInfo? && p.KretprobePoint? && p.func == info.func)
    || (info.TracepointInfo? && p.TracepointPoint? && p.name == info.name)
    || (&& info.UprobeInfo? && p.UprobePoint? && p.func == info.func && p.offset == info.offset
        && p.target == info.target && p.pid == info.pid
        && if info.containers.None? then p.containerPid == None
           else exists c :: Finds(info.containers.value, env, c) && p.containerPid == Some(c.pid))
    || (&& info.TcInfo? && p.TcPoint? && p.direction == info.direction && p.proceedOn == info.proceedOn
        && p.priority == (if info.prio.Some? then info.prio.value else 1000)
        && WantsPlace(info.ifaces, info.netns, env, p.interfaceName, p.netnsPath))
    || (&& info.TcxInfo? && p.TcxPoint? && p.direction == info.direction
        && p.priority == (if info.prio.Some? then info.prio.value else 1000)
        && WantsPlace(info.ifaces, info.netns, env, p.interfaceName, p.netnsPath))
    || (&& info.XdpInfo? && p.XdpPoint? && p.proceedOn == info.proceedOn
        && p.priority == (if info.prio.Some? then info.prio.value else 1000)
        && WantsPlace(info.ifaces, info.netns, env, p.interfaceName, p.netnsPath))
  }

  /** A container lookup fails, or without discovery there is no interface to attach to. */
  ghost predicate CannotExpand(info: AttachInfo, env: Env) {
    || (info.UprobeInfo? && LookupFails(info.containers, env))
    || (&& (info.TcInfo? || info.TcxInfo? || info.XdpInfo?) && !Discovers(info.ifaces)
        && ((forall name :: !OnInterface(info.ifaces, env, name)) || LookupFails(info.netns, env)))
  }

  // ---- and what getExpectedLinks makes of it ----

  lemma {:induction false} InPodsIff(cs: seq<ContainerInfo>, ifaces: seq<string>, name: string, path: string)
    ensures (name, path) in PlacesInPods(cs, ifaces) <==>
              name in ifaces && exists c :: c in cs && path == NetnsPathFromPid(c.pid)
  {
    if cs != [] {
      var init, c := cs[..|cs| - 1], cs[|cs| - 1];
      assert cs == init + [c];
      InPodsIff(init, ifaces, name, path);
      InPlacesIff(ifaces, NetnsPathFromPid(c.pid), name, path);
    }
  }

  lemma InPlacesIff(ifaces: seq<string>, at: string, name: string, path: string)
    ensures (name, path) in PlacesIn(ifaces, at) <==> name in ifaces && path == at
  {
    var places := PlacesIn(ifaces, at);
    if name in ifaces && path == at {
      var i :| 0 <= i < |ifaces| && ifaces[i] == name;
      assert places[i] == (name, path);
    }
    if (name, path) in places {
      var i :| 0 <= i < |places| && places[i] == (name, path);
      assert ifaces[i] == name;
    }
  }

  lemma FirstUnique(cs: seq<ContainerInfo>, b: ContainerInfo, c: ContainerInfo)
    requires FirstOfPod(cs, b) && FirstOfPod(cs, c) && b.podName == c.podName
    ensures b == c
  {
    var k :| 0 <= k < |cs| && cs[k] == b && forall m :: 0 <= m < k ==> cs[m].podName != b.podName;
    var n :| 0 <= n < |cs| && cs[n] == c && forall m :: 0 <= m < n ==> cs[m].podName != c.podName;
  }

  lemma OnePerPodIff(cs: seq<ContainerInfo>, c: ContainerInfo)
    ensures c in OnePerPod(cs) <==> FirstOfPod(cs, c)
  {
    hide OnePerPod, FirstOfPod;
    OnePerPodExact(cs);
    if FirstOfPod(cs, c) {
      FirstIsIn(cs, c);
      var b :| b in OnePerPod(cs) && b.podName == c.podName;
      FirstUnique(cs, b, c);
    }
  }

  lemma FirstIsIn(cs: seq<ContainerInfo>, c: ContainerInfo)
    requires FirstOfPod(cs, c)
    ensures c in cs
  {
  }

  lemma InterfacesMean(sel: InterfaceSelector, env: Env)
    ensures var r := Interfaces(sel, env);
            && (r.None? <==> forall name :: !OnInterface(sel, env, name))
            && (r.Some? ==> forall name :: name in r.value <==> OnInterface(sel, env, name))
  {
    if sel.interfaces != [] {
      assert OnInterface(sel, env, sel.interfaces[0]);
    } else if sel.primary && env.primaryInterface.Some? {
      assert OnInterface(sel, env, env.primaryInterface.value);
    }
  }

  lemma DiscoveredMeans(sel: InterfaceSelector, netns: Option<ContainerSelector>, env: Env, name: string, path: string)
    requires Discovers(sel)
    ensures (name, path) in Discovered(env.interfaces, sel.discovery.value, env) <==> WantsPlace(sel, netns, env, name, path)
  {
    hide Passes, Allowed, Discovered;
    var cfg := sel.discovery.value;
    DiscoveredExact(env.interfaces, cfg, env);
    forall i: Interface
      ensures Passes(i, cfg, env) <==> i.name !in cfg.exclude && Allowed(cfg.allowed, i.name, env.patterns, env.matching)
      ensures PlaceOf(i) == (i.name, if i.nsName == "" then "" else "/run/netns/" + i.nsName)
    {
      PassesIff(i, cfg, env);
      assert NETNS_PATH + "/" + i.nsName == "/run/netns/" + i.nsName;
    }
    if WantsPlace(sel, netns, env, name, path) {
      var i :| i in env.interfaces && i.name == name && path == if i.nsName == "" then "" else "/run/netns/" + i.nsName;
      assert Passes(i, cfg, env) && PlaceOf(i) == (name, path);
    }
  }

  lemma PodsMean(sel: InterfaceSelector, c: ContainerSelector, env: Env, ifaces: seq<string>, name: string, path: string)
    requires !Discovers(sel) && ContainersFor(c, env).Containers?
    requires forall n :: n in ifaces <==> OnInterface(sel, env, n)
    ensures (name, path) in PlacesInPods(OnePerPod(ContainersFor(c, env).found), ifaces) <==>
              WantsPlace(sel, Some(c), env, name, path)
  {
    hide NetnsPathFromPid, PathOfPid, OnInterface, OnePerPod, PlacesInPods, FirstOfPod;
    var cs := OnePerPod(ContainersFor(c, env).found);
    InPodsIff(cs, ifaces, name, path);
    forall x: ContainerInfo
      ensures x in cs <==> FindsFirst(c, env, x)
      ensures PathOfPid(path, x.pid) <==> path == NetnsPathFromPid(x.pid)
    {
      OnePerPodIff(ContainersFor(c, env).found, x);
      PathOfPidIff(path, x.pid);
    }
  }

  lemma PlacesMean(sel: InterfaceSelector, netns: Option<ContainerSelector>, env: Env)
    ensures var r := Places(sel, netns, env);
            && (r.None? <==> !Discovers(sel) && ((forall name :: !OnInterface(sel, env, name)) || LookupFails(netns, env)))
            && (r.Some? ==> forall name, path :: (name, path) in r.value <==> WantsPlace(sel, netns, env, name, path))
  {
    hide OnInterface, Allowed, PathOfPid, FirstOfPod, Discovered, PlacesInPods, PlacesIn, OnePerPod;
    var r := Places(sel, netns, env);
    InterfacesMean(sel, env);
    if r.Some? {
      forall name, path ensures (name, path) in r.value <==> WantsPlace(sel, netns, env, name, path) {
        if Discovers(sel) {
          DiscoveredMeans(sel, netns, env, name, path);
        } else if netns.None? {
          InPlacesIff(Interfaces(sel, env).value, "", name, path);
        } else if ContainersFor(netns.value, env).Containers? {
          PodsMean(sel, netns.value, env, Interfaces(sel, env).value, name, path);
        }
      }
    }
  }

  lemma AtPlacesIff(info: AttachInfo, places: seq<(string, string)>, p: AttachPoint)
    requires info.TcInfo? || info.TcxInfo? || info.XdpInfo?
    ensures p in AtPlaces(info, places) <==> exists place :: place in places && AtPlace(info, place) == p
  {
    var points := AtPlaces(info, places);
    if place :| place in places && AtPlace(info, place) == p {
      var i :| 0 <= i < |places| && places[i] == place;
      assert points[i] == p;
    }
    if p in points {
      var i :| 0 <= i < |points| && points[i] == p;
      assert places[i] in places;
    }
  }

  lemma InterfacePoints(info: AttachInfo, env: Env, p: AttachPoint)
    requires (info.TcInfo? || info.TcxInfo? || info.XdpInfo?) && ExpandInfo(info, env).Some?
    ensures p in ExpandInfo(info, env).value <==> WantsPoint(info, env, p)
  {
    hide WantsPlace, Places, AtPlaces;
    var places := Places(info.ifaces, info.netns, env).value;
    PlacesMean(info.ifaces, info.netns, env);
    AtPlacesIff(info, places, p);
    if p.TcPoint? || p.TcxPoint? || p.XdpPoint? {
      var place := (p.interfaceName, p.netnsPath);
      assert place in places <==> WantsPlace(info.ifaces, info.netns, env, p.interfaceName, p.netnsPath);
      assert forall q :: AtPlace(info, q) == p ==> q == place;
    }
  }

  lemma UprobePoints(info: AttachInfo, env: Env, p: AttachPoint)
    requires info.UprobeInfo? && ExpandInfo(info, env).Some?
    ensures p in ExpandInfo(info, env).value <==> WantsPoint(info, env, p)
  {
    if info.containers.Some? && ContainersFor(info.containers.value, env).Containers? {
      var cs := ContainersFor(info.containers.value, env).found;
      var points := UprobesIn(info, cs);
      if p in points {
        var i :| 0 <= i < |points| && points[i] == p;
        assert Finds(info.containers.value, env, cs[i]);
      }
      if WantsPoint(info, env, p) {
        var c :| Finds(info.containers.value, env, c) && p.containerPid == Some(c.pid);
        var i :| 0 <= i < |cs| && cs[i] == c;
        assert points[i] == p;
      }
    }
  }

  /**
   An attachment expands to exactly the points it calls for, and fails to expand exactly if a container lookup
   fails or there is no interface to attach to.
   */
  lemma ExpandInfoMeans(info: AttachInfo, env: Env)
    ensures ExpandInfo(info, env).None? <==> CannotExpand(info, env)
    ensures ExpandInfo(info, env).Some? ==> forall p :: p in ExpandInfo(info, env).value <==> WantsPoint(info, env, p)
  {
    hide WantsPlace, Places, OnInterface;
    if info.TcInfo? || info.TcxInfo? || info.XdpInfo? {
      PlacesMean(info.ifaces, info.netns, env);
    }
    if ExpandInfo(info, env).Some? {
      forall p ensures p in ExpandInfo(info, env).value <==> WantsPoint(info, env, p) {
        if info.TcInfo? || info.TcxInfo? || info.XdpInfo? {
          InterfacePoints(info, env, p);
        } else if info.UprobeInfo? {
          UprobePoints(info, env, p);
        }
      }
    }
  }

  /** Some attachment of the spec calls for the point. */
  ghost predicate CalledFor(infos: seq<AttachInfo>, env: Env, p: AttachPoint) {
    exists info :: info in infos && WantsPoint(info, env, p)
  }

  lemma ExpandMeans(infos: seq<AttachInfo>, env: Env)
    ensures Expand(infos, env).ok <==> forall info :: info in infos ==> !CannotExpand(info, env)
    ensures Expand(infos, env).ok ==> forall p :: p in Expand(infos, env).points <==> CalledFor(infos, env, p)
  {
    hide WantsPoint, CannotExpand, ExpandInfo, Expand;
    ExpandMembers(infos, env);
    forall info: AttachInfo
      ensures ExpandInfo(info, env).None? <==> CannotExpand(info, env)
      ensures ExpandInfo(info, env).Some? ==> forall p :: p in ExpandInfo(info, env).value <==> WantsPoint(info, env, p)
    {
      ExpandInfoMeans(info, env);
    }
  }

  /** Attachment m is the first that cannot be expanded, or all can and m is their number. */
  ghost predicate StopsAt(infos: seq<AttachInfo>, env: Env, m: nat) {
    && m <= |infos| && (m < |infos| ==> CannotExpand(infos[m], env))
    && forall i :: 0 <= i < m ==> !CannotExpand(infos[i], env)
  }

  /** Up to the first attachment that cannot be expanded, what the ones before it call for is expected all the same. */
  lemma ExpandStops(infos: seq<AttachInfo>, env: Env, m: nat)
    requires StopsAt(infos, env, m)
    ensures Expand(infos, env) == Expanded(Expand(infos[..m], env).points, m == |infos|)
    ensures forall p :: p in Expand(infos, env).points <==> CalledFor(infos[..m], env, p)
  {
    hide WantsPoint, CannotExpand, ExpandInfo, CalledFor;
    ExpandPrefix(infos, env, m);
    assert forall info :: info in infos[..m] ==> !CannotExpand(info, env);
    ExpandMeans(infos[..m], env);
  }

  lemma {:induction false} ExpandPrefix(infos: seq<AttachInfo>, env: Env, m: nat)
    requires StopsAt(infos, env, m)
    ensures Expand(infos, env) == Expanded(Expand(infos[..m], env).points, m == |infos|)
  {
    hide CannotExpand, ExpandInfo;
    if infos != [] {
      ExpandInfoMeans(infos[0], env);
      if m > 0 {
        assert infos[1..][..m - 1] == infos[1..m] && infos[..m][1..] == infos[1..m] && infos[..m][0] == infos[0];
        assert forall i :: 0 <= i < m - 1 ==> infos[1..][i] == infos[i + 1];
        ExpandPrefix(infos[1..], env, m - 1);
      }
    }
  }
}
