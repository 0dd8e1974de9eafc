/**
 What the places of links mean, field by field: when two of them are the same, and which ones a requested
 attachment calls for on a node.
 */
module AttachPlaces {
  import opened Types
  import opened Links
  import opened Expansion

  // ---- the same place ----

  /** The namespace a path leads to has this inode; the empty path is the host's. */
  ghost predicate Inode(path: string, netns: map<string, nat>, inode: nat) {
    if path == "" then "/host/proc/1/ns/net" in netns && netns["/host/proc/1/ns/net"] == inode
    else path in netns && netns[path] == inode
  }

  /** Both paths lead to one namespace. */
  ghost predicate SameNetns(path: string, path': string, netns: map<string, nat>) {
    exists inode :: Inode(path, netns, inode) && Inode(path', netns, inode)
  }

  /** The place can be told from others: if it is on an interface, the path of its namespace leads somewhere. */
  ghost predicate Resolves(p: AttachPoint, netns: map<string, nat>) {
    p.TcPoint? || p.TcxPoint? || p.XdpPoint? ==> exists inode :: Inode(p.netnsPath, netns, inode)
  }

  /** The same kind of place with equal fields, where a namespace path counts by its inode. */
  ghost predicate SamePlace(p: AttachPoint, q: AttachPoint, netns: map<string, nat>) {
    || (p.FentryPoint? && q.FentryPoint?)
    || (p.FexitPoint? && q.FexitPoint?)
    || (p.KprobePoint? && q.KprobePoint? && p.func == q.func && p.offset == q.offset)
    || (p.KretprobePoint? && q.KretprobePoint? && p.func == q.func)
    || (p.TracepointPoint? && q.TracepointPoint? && p.name == q.name)
    || (&& p.UprobePoint? && q.UprobePoint? && p.func == q.func && p.offset == q.offset && p.target == q.target
        && p.pid == q.pid && p.containerPid == q.containerPid)
    || (&& p.TcPoint? && q.TcPoint? && p.interfaceName == q.interfaceName && p.priority == q.priority
        && p.direction == q.direction && p.proceedOn == q.proceedOn && SameNetns(p.netnsPath, q.netnsPath, netns))
    || (&& p.TcxPoint? && q.TcxPoint? && p.interfaceName == q.interfaceName && p.priority == q.priority
        && p.direction == q.direction && SameNetns(p.netnsPath, q.netnsPath, netns))
    || (&& p.XdpPoint? && q.XdpPoint? && p.interfaceName == q.interfaceName && p.priority == q.priority
        && p.proceedOn == q.proceedOn && SameNetns(p.netnsPath, q.netnsPath, netns))
  }

  lemma NetnsIdIsInode(path: string, netns: map<string, nat>, inode: nat)
    ensures Inode(path, netns, inode) <==> NetnsId(netns, path) == Some(inode)
  {
  }

  lemma ResolvesIff(p: AttachPoint, netns: map<string, nat>)
    ensures Resolves(p, netns) <==> KeyOf(p, netns).Some?
  {
    if p.TcPoint? || p.TcxPoint? || p.XdpPoint? {
      forall inode: nat ensures Inode(p.netnsPath, netns, inode) <==> NetnsId(netns, p.netnsPath) == Some(inode) {
        NetnsIdIsInode(p.netnsPath, netns, inode);
      }
      assert NetnsId(netns, p.netnsPath).Some? ==> Inode(p.netnsPath, netns, NetnsId(netns, p.netnsPath).value);
    }
  }

  lemma SameNetnsIff(path: string, path': string, netns: map<string, nat>)
    requires NetnsId(netns, path).Some? && NetnsId(netns, path').Some?
    ensures SameNetns(path, path', netns) <==> NetnsId(netns, path) == NetnsId(netns, path')
  {
    forall inode: nat
      ensures Inode(path, netns, inode) <==> NetnsId(netns, path) == Some(inode)
      ensures Inode(path', netns, inode) <==> NetnsId(netns, path') == Some(inode)
    {
      NetnsIdIsInode(path, netns, inode);
      NetnsIdIsInode(path', netns, inode);
    }
    if NetnsId(netns, path) == NetnsId(netns, path') {
      assert Inode(path, netns, NetnsId(netns, path).value);
    }
  }

  /** Two places that can be told apart at all have one key exactly if they are the same place. */
  lemma KeysIdentify(p: AttachPoint, q: AttachPoint, netns: map<string, nat>)
    requires Resolves(p, netns) && Resolves(q, netns)
    ensures KeyOf(p, netns) == KeyOf(q, netns) <==> SamePlace(p, q, netns)
  {
    hide SameNetns, NetnsId;
    ResolvesIff(p, netns);
    ResolvesIff(q, netns);
    if (p.TcPoint? && q.TcPoint?) || (p.TcxPoint? && q.TcxPoint?) || (p.XdpPoint? && q.XdpPoint?) {
      SameNetnsIff(p.netnsPath, q.netnsPath, netns);
    }
  }

  /** A resolvable place is not the same as one that does not resolve. */
  lemma SameResolves(p: AttachPoint, q: AttachPoint, netns: map<string, nat>)
    requires SamePlace(p, q, netns)
    ensures Resolves(p, netns) <==> Resolves(q, netns)
  {
  }

  /** Entry i is the first of the list at the place. */
  ghost predicate FirstAt(links: seq<Link>, i: int, p: AttachPoint, netns: map<string, nat>) {
    && 0 <= i < |links| && SamePlace(links[i].point, p, netns)
    && forall j :: 0 <= j < i ==> !SamePlace(links[j].point, p, netns)
  }

  /** findLink returns the first entry at the same place, and nothing exactly if there is none. */
  lemma FindLinkFindsPlace(links: seq<Link>, p: AttachPoint, netns: map<string, nat>)
    requires Resolves(p, netns)
    ensures KeyOf(p, netns).Some?
    ensures var found := FindLink(links, KeyOf(p, netns).value, netns);
            && (found.Some? ==> FirstAt(links, found.value, p, netns))
            && (found.None? ==> forall i :: 0 <= i < |links| ==> !SamePlace(links[i].point, p, netns))
  {
    hide SamePlace, Resolves, KeyOf;
    ResolvesIff(p, netns);
    forall i | 0 <= i < |links|
      ensures SamePlace(links[i].point, p, netns) <==> KeyOf(links[i].point, netns) == KeyOf(p, netns)
    {
      ResolvesIff(links[i].point, netns);
      if Resolves(links[i].point, netns) {
        KeysIdentify(links[i].point, p, netns);
      } else if SamePlace(links[i].point, p, netns) {
        SameResolves(links[i].point, p, netns);
      }
    }
  }

  // ---- interfaces ----

  /** Nothing but spaces lies outside positions i to j. */
  ghost predicate SpacesOutside(s: string, i: int, j: int) {
    0 <= i <= j <= |s| && forall k :: 0 <= k < i || j <= k < |s| ==> s[k] == ' '
  }

  /** `t` is `s` without the spaces around it. */
  ghost predicate Trimmed(s: string, t: string) {
    && (t != "" ==> t[0] != ' ' && t[|t| - 1] != ' ')
    && exists i, j :: SpacesOutside(s, i, j) && s[i..j] == t
  }

  lemma {:induction false} TrimLeftIs(s: string) returns (i: nat)
    ensures i <= |s| && TrimLeft(s) == s[i..] && (forall k :: 0 <= k < i ==> s[k] == ' ')
    ensures i < |s| ==> s[i] != ' '
  {
    if s != "" && s[0] == ' ' {
      var n := TrimLeftIs(s[1..]);
      i := n + 1;
      assert s[1..][n..] == s[i..];
      assert forall k :: 1 <= k < i ==> s[k] == s[1..][k - 1];
    } else {
      i := 0;
    }
  }

  lemma {:induction false} TrimRightIs(s: string) returns (j: nat)
    ensures j <= |s| && TrimRight(s) == s[..j] && (forall k :: j <= k < |s| ==> s[k] == ' ')
    ensures j > 0 ==> s[j - 1] != ' '
  {
    if s != "" && s[|s| - 1] == ' ' {
      j := TrimRightIs(s[..|s| - 1]);
      assert s[..|s| - 1][..j] == s[..j];
    } else {
      j := |s|;
    }
  }

  lemma TrimIs(s: string)
    ensures Trimmed(s, TrimLeft(TrimRight(s)))
  {
    var j := TrimRightIs(s);
    var r := TrimRight(s);
    var i := TrimLeftIs(r);
    assert r[i..] == s[i..j];
    assert forall k :: 0 <= k < j ==> r[k] == s[k];
    assert SpacesOutside(s, i, j);
  }

  lemma SameBounds(s: string, i: int, j: int, m: int, n: int)
    requires SpacesOutside(s, i, j) && SpacesOutside(s, m, n)
    requires i < j ==> s[i] != ' ' && s[j - 1] != ' '
    requires m < n ==> s[m] != ' ' && s[n - 1] != ' '
    ensures s[i..j] == s[m..n]
  {
    if i < j {
      assert m <= i < n && m <= j - 1 < n;
    }
    if m < n {
      assert i <= m < j && i <= n - 1 < j;
    }
  }

  lemma TrimUnique(s: string, t: string, t': string)
    requires Trimmed(s, t) && Trimmed(s, t')
    ensures t == t'
  {
    var i, j :| SpacesOutside(s, i, j) && s[i..j] == t;
    var m, n :| SpacesOutside(s, m, n) && s[m..n] == t';
    assert i < j ==> s[i] == t[0] && s[j - 1] == t[|t| - 1];
    assert m < n ==> s[m] == t'[0] && s[n - 1] == t'[|t'| - 1];
    SameBounds(s, i, j, m, n);
  }

  /** A definition of the allow list is a pattern between slashes. */
  ghost predicate Pattern(def: string, re: string) {
    Trimmed(def, "/" + re + "/")
  }

  /** The definition, an exact name or a pattern, admits the name. */
  ghost predicate Admits(def: string, name: string, matching: set<(string, string)>) {
    || (exists re :: Pattern(def, re) && (re, name) in matching)
    || ((forall re :: !Pattern(def, re)) && Trimmed(def, name))
  }

  /** The definition is a pattern that does not compile. */
  ghost predicate Broken(def: string, compiles: set<string>) {
    exists re :: Pattern(def, re) && re !in compiles
  }

  /** How many definitions count: those before the first broken one. */
  ghost function Counting(defs: seq<string>, compiles: set<string>): (n: nat)
    ensures n <= |defs| && (forall k :: 0 <= k < n ==> !Broken(defs[k], compiles))
    ensures n < |defs| ==> Broken(defs[n], compiles)
  {
    if defs == [] || Broken(defs[0], compiles) then 0 else 1 + Counting(defs[1..], compiles)
  }

  /** The name is admitted by a definition that counts, or none counts. */
  ghost predicate Allowed(defs: seq<string>, name: string, compiles: set<string>, matching: set<(string, string)>) {
    var n := Counting(defs, compiles);
    n == 0 || exists k :: 0 <= k < n && Admits(defs[k], name, matching)
  }

  lemma DefMeans(def: string, name: string, compiles: set<string>, matching: set<(string, string)>)
    ensures var t := TrimLeft(TrimRight(def));
            if IsPattern(t) then
              var re := t[1..|t| - 1];
              && (Broken(def, compiles) <==> re !in compiles)
              && (Admits(def, name, matching) <==> (re, name) in matching)
            else !Broken(def, compiles) && (Admits(def, name, matching) <==> name == t)
  {
    hide Trimmed, TrimLeft, TrimRight;
    var t := TrimLeft(TrimRight(def));
    TrimIs(def);
    if IsPattern(t) {
      assert t == "/" + t[1..|t| - 1] + "/";
    }
    forall re ensures Pattern(def, re) <==> IsPattern(t) && re == t[1..|t| - 1] {
      if Pattern(def, re) {
        TrimUnique(def, t, "/" + re + "/");
      }
    }
    if Trimmed(def, name) {
      TrimUnique(def, t, name);
    }
    if IsPattern(t) {
      var pattern := t[1..|t| - 1];
      assert Pattern(def, pattern) && forall re :: Pattern(def, re) ==> re == pattern;
    }
  }

  lemma {:induction false} ListsMean(defs: seq<string>, name: string, compiles: set<string>, matching: set<(string, string)>)
    ensures var (res, names) := AllowedLists(defs, compiles);
            && (res == [] && names == [] <==> Counting(defs, compiles) == 0)
            && ((exists re :: re in res && (re, name) in matching) || name in names <==>
                  exists k :: 0 <= k < Counting(defs, compiles) && Admits(defs[k], name, matching))
  {
    hide Admits, Broken, TrimLeft, TrimRight;
    if defs != [] {
      var rest := defs[1..];
      DefMeans(defs[0], name, compiles, matching);
      ListsMean(rest, name, compiles, matching);
      assert forall k :: 0 <= k < |rest| ==> rest[k] == defs[k + 1];
      if !Broken(defs[0], compiles) {
        if k :| 0 <= k < Counting(rest, compiles) && Admits(rest[k], name, matching) {
          assert Admits(defs[k + 1], name, matching);
        }
        if k :| 0 <= k < Counting(defs, compiles) && Admits(defs[k], name, matching) {
          assert k > 0 ==> Admits(rest[k - 1], name, matching);
        }
      }
    }
  }

  /** An interface is discovered exactly if its name is not excluded and is allowed. */
  lemma PassesIff(i: Interface, cfg: DiscoveryConfig, env: Env)
    ensures Passes(i, cfg, env) <==> i.name !in cfg.exclude && Allowed(cfg.allowed, i.name, env.patterns, env.matching)
  {
    hide AllowedLists, Admits;
    ListsMean(cfg.allowed, i.name, env.patterns, env.matching);
  }

  /** With an empty allow list every interface that is not excluded is discovered. */
  lemma EmptyAllowsAll(i: Interface, cfg: DiscoveryConfig, env: Env)
    requires cfg.allowed == []
    ensures Passes(i, cfg, env) <==> i.name !in cfg.exclude
  {
    PassesIff(i, cfg, env);
  }
}
