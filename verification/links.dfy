/**
 The link list of one program: which key identifies a link, and how updateLinks matches the recorded links
 against the expected ones.
 */
module Links {
  import opened Types

  const HOST_NETNS := "/host/proc/1/ns/net"

  /** The namespace id behind a path, by direct lookup in the filesystem; the empty path is the host's. */
  function NetnsId(netns: map<string, nat>, path: string): Option<nat> {
    var p := if path == "" then HOST_NETNS else path;
    if p in netns then Some(netns[p]) else None
  }

  /** What findLink compares: every field of the place, except that a namespace counts by id, not by path. */
  datatype LinkKey = LinkKey(place: AttachPoint, netnsId: Option<nat>)

  function NetnsKey(place: AttachPoint, id: Option<nat>): Option<LinkKey> {
    if id.None? then None else Some(LinkKey(place, id))
  }

  function KeyOf(p: AttachPoint, netns: map<string, nat>): Option<LinkKey> {
    match p
    case TcPoint(i, path, prio, dir, on) => NetnsKey(TcPoint(i, "", prio, dir, on), NetnsId(netns, path))
    case TcxPoint(i, path, prio, dir) => NetnsKey(TcxPoint(i, "", prio, dir), NetnsId(netns, path))
    case XdpPoint(i, path, prio, on) => NetnsKey(XdpPoint(i, "", prio, on), NetnsId(netns, path))
    case _ => Some(LinkKey(p, None))
  }

  /** The keys of those places that have one. */
  function PointKeys(points: seq<AttachPoint>, netns: map<string, nat>): set<LinkKey> {
    set p | p in points && KeyOf(p, netns).Some? :: KeyOf(p, netns).value
  }

  function Points(links: seq<Link>): (r: seq<AttachPoint>)
    ensures |r| == |links|
  {
    seq(|links|, i requires 0 <= i < |links| => links[i].point)
  }

  function Keys(links: seq<Link>, netns: map<string, nat>): set<LinkKey> {
    PointKeys(Points(links), netns)
  }

  lemma KeysAt(links: seq<Link>, netns: map<string, nat>, k: LinkKey)
    ensures k in Keys(links, netns) <==> exists i :: 0 <= i < |links| && KeyOf(links[i].point, netns) == Some(k)
  {
    if i :| 0 <= i < |links| && KeyOf(links[i].point, netns) == Some(k) {
      assert Points(links)[i] in Points(links);
    }
    if k in Keys(links, netns) {
      var p :| p in Points(links) && KeyOf(p, netns) == Some(k);
      var i :| 0 <= i < |links| && Points(links)[i] == p;
      assert KeyOf(links[i].point, netns) == Some(k);
    }
  }

  /** Entries as createLinkEntry makes them, with consecutive uuids. */
  function Mint(points: seq<AttachPoint>, uuid: nat): (r: seq<Link>)
    ensures |r| == |points|
  {
    seq(|points|, i requires 0 <= i < |points| => Link(points[i], true, uuid + i, None, ApAttachNotAttached))
  }

  lemma MintPoints(points: seq<AttachPoint>, uuid: nat)
    ensures Points(Mint(points, uuid)) == points
  {
  }

  // ---- updateLinks, step by step as the agent does it ----

  function UnmarkAll(links: seq<Link>): (r: seq<Link>)
    ensures |r| == |links|
  {
    seq(|links|, i requires 0 <= i < |links| => links[i].(shouldAttach := false))
  }

  /** The first entry at or after i with key k. */
  function FindLink(links: seq<Link>, k: LinkKey, netns: map<string, nat>, i: nat := 0): (r: Option<nat>)
    requires i <= |links|
    ensures r.Some? ==> i <= r.value < |links| && KeyOf(links[r.value].point, netns) == Some(k)
    ensures r.Some? ==> forall j :: i <= j < r.value ==> KeyOf(links[j].point, netns) != Some(k)
    ensures r.None? ==> forall j :: i <= j < |links| ==> KeyOf(links[j].point, netns) != Some(k)
    decreases |links| - i
  {
    if i == |links| then None
    else if KeyOf(links[i].point, netns) == Some(k) then Some(i)
    else FindLink(links, k, netns, i + 1)
  }

  /** One expected link: skipped if its namespace does not resolve, else marked if present, else appended. */
  function Merge(links: seq<Link>, e: Link, netns: map<string, nat>): seq<Link> {
    match KeyOf(e.point, netns)
    case None => links
    case Some(k) =>
      match FindLink(links, k, netns)
      case Some(i) => links[i := links[i].(shouldAttach := true)]
      case None => links + [e]
  }

  function MergeAll(links: seq<Link>, es: seq<Link>, netns: map<string, nat>): seq<Link> {
    if es == [] then links
    else Merge(MergeAll(links, es[..|es| - 1], netns), es[|es| - 1], netns)
  }

  function UpdateLinks(links: seq<Link>, es: seq<Link>, netns: map<string, nat>): seq<Link> {
    MergeAll(UnmarkAll(links), es, netns)
  }

  // ---- the same, as one set comparison ----

  /** Entry i is the first one with its key. */
  predicate IsFirst(links: seq<Link>, netns: map<string, nat>, i: nat)
    requires i < |links|
  {
    forall j :: 0 <= j < i ==> KeyOf(links[j].point, netns) != KeyOf(links[i].point, netns)
  }

  /** Entry i is wanted when its key is wanted and no earlier entry has that key. */
  predicate Wanted(links: seq<Link>, keys: set<LinkKey>, netns: map<string, nat>, i: nat)
    requires i < |links|
  {
    var k := KeyOf(links[i].point, netns);
    k.Some? && k.value in keys && IsFirst(links, netns, i)
  }

  function Remark(links: seq<Link>, keys: set<LinkKey>, netns: map<string, nat>): (r: seq<Link>)
    ensures |r| == |links|
  {
    seq(|links|, i requires 0 <= i < |links| => links[i].(shouldAttach := Wanted(links, keys, netns, i)))
  }

  /** The expected links whose key is not known, one per key, each at its first appearance. */
  function Missing(es: seq<Link>, known: set<LinkKey>, netns: map<string, nat>): seq<Link> {
    if es == [] then []
    else
      var init, e := es[..|es| - 1], es[|es| - 1];
      var k := KeyOf(e.point, netns);
      if k.None? || k.value in known || k.value in Keys(init, netns) then Missing(init, known, netns)
      else Missing(init, known, netns) + [e]
  }

  lemma KeysSnoc(es: seq<Link>, e: Link, netns: map<string, nat>)
    ensures Keys(es + [e], netns) == Keys(es, netns) +
                                     (if KeyOf(e.point, netns).Some? then {KeyOf(e.point, netns).value} else {})
  {
    assert Points(es + [e]) == Points(es) + [e.point];
  }

  lemma {:induction false} MissingKeys(es: seq<Link>, known: set<LinkKey>, netns: map<string, nat>)
    ensures Keys(Missing(es, known, netns), netns) == Keys(es, netns) - known
    ensures forall e :: e in Missing(es, known, netns) ==> e in es && KeyOf(e.point, netns).Some?
    ensures forall i, j :: 0 <= i < j < |Missing(es, known, netns)| ==>
              KeyOf(Missing(es, known, netns)[i].point, netns) != KeyOf(Missing(es, known, netns)[j].point, netns)
  {
    if es != [] {
      var init, e := es[..|es| - 1], es[|es| - 1];
      assert es == init + [e];
      MissingKeys(init, known, netns);
      KeysSnoc(init, e, netns);
      KeysSnoc(Missing(init, known, netns), e, netns);
      var k := KeyOf(e.point, netns);
      if k.Some? && k.value !in known && k.value !in Keys(init, netns) {
        forall i | 0 <= i < |Missing(init, known, netns)|
          ensures KeyOf(Missing(init, known, netns)[i].point, netns) != k
        {
          KeysAt(Missing(init, known, netns), netns, k.value);
        }
      }
    }
  }

  /**
   updateLinks refines the set comparison: a prior entry keeps everything but its mark, which ends up set
   exactly on the first entry of each expected key, and the missing keys are appended once each.
   */
  lemma {:induction false} UpdateLinksRefines(links: seq<Link>, es: seq<Link>, netns: map<string, nat>)
    requires forall e :: e in es ==> e.shouldAttach
    ensures UpdateLinks(links, es, netns) ==
            Remark(links, Keys(es, netns), netns) + Missing(es, Keys(links, netns), netns)
  {
    hide KeyOf, Keys;
    if es == [] {
      NoKeys(netns);
      assert UnmarkAll(links) == Remark(links, Keys(es, netns), netns) + [];
    } else {
      var init, e := es[..|es| - 1], es[|es| - 1];
      assert es == init + [e];
      UpdateLinksRefines(links, init, netns);
      var known, K := Keys(links, netns), Keys(init, netns);
      var marked, miss := Remark(links, K, netns), Missing(init, known, netns);
      KeysSnoc(init, e, netns);
      MissingSnoc(init, e, known, netns);
      MissingKeys(init, known, netns);
      var key := KeyOf(e.point, netns);
      if key.Some? {
        var k := key.value;
        FindInPrefix(links, marked, miss, k, netns);
        var f := FindLink(marked + miss, k, netns);
        MergeStep(marked, miss, e, k, netns, f);
        if k in known {
          RemarkOne(links, K, k, netns, f.value);
        } else {
          RemarkNone(links, K, k, netns);
        }
      }
    }
  }

  lemma NoKeys(netns: map<string, nat>)
    ensures Keys([], netns) == {}
  {
  }

  lemma RemarkOne(links: seq<Link>, K: set<LinkKey>, k: LinkKey, netns: map<string, nat>, f: nat)
    requires f < |links| && KeyOf(links[f].point, netns) == Some(k) && IsFirst(links, netns, f)
    ensures Remark(links, K + {k}, netns) == Remark(links, K, netns)[f := links[f].(shouldAttach := true)]
  {
  }

  lemma RemarkNone(links: seq<Link>, K: set<LinkKey>, k: LinkKey, netns: map<string, nat>)
    requires k !in Keys(links, netns)
    ensures Remark(links, K + {k}, netns) == Remark(links, K, netns)
  {
    forall j | 0 <= j < |links| ensures KeyOf(links[j].point, netns) != Some(k) {
      KeysAt(links, netns, k);
    }
  }

  /** findLink on a list with appended entries looks at the prior entries first. */
  lemma {:induction false} FindInPrefix(links: seq<Link>, marked: seq<Link>, miss: seq<Link>, k: LinkKey, netns: map<string, nat>)
    requires |marked| == |links| && forall j :: 0 <= j < |links| ==> marked[j].point == links[j].point
    ensures var found := FindLink(marked + miss, k, netns);
            if k in Keys(links, netns) then
              found.Some? && found.value < |links| && KeyOf(links[found.value].point, netns) == Some(k) &&
              IsFirst(links, netns, found.value)
            else if k in Keys(miss, netns) then
              found.Some? && found.value >= |links|
            else found.None?
  {
    var all, found := marked + miss, FindLink(marked + miss, k, netns);
    KeysAt(links, netns, k);
    KeysAt(miss, netns, k);
    forall j | 0 <= j < |all|
      ensures KeyOf(all[j].point, netns) == KeyOf(if j < |links| then links[j].point else miss[j - |links|].point, netns)
    {
    }
    if k !in Keys(links, netns) && k in Keys(miss, netns) {
      var j :| 0 <= j < |miss| && KeyOf(miss[j].point, netns) == Some(k);
      assert all[|links| + j] == miss[j];
    }
    if k in Keys(links, netns) {
      var j :| 0 <= j < |links| && KeyOf(links[j].point, netns) == Some(k);
      assert all[j] == marked[j];
    }
  }

  lemma MissingSnoc(init: seq<Link>, e: Link, known: set<LinkKey>, netns: map<string, nat>)
    ensures Missing(init + [e], known, netns) ==
            var k := KeyOf(e.point, netns);
            Missing(init, known, netns) +
            (if k.None? || k.value in known || k.value in Keys(init, netns) then [] else [e])
  {
  }

  /** One merge, given what findLink returns. */
  lemma MergeStep(
    marked: seq<Link>, miss: seq<Link>, e: Link, k: LinkKey, netns: map<string, nat>, f: Option<nat>)
    requires KeyOf(e.point, netns) == Some(k) && FindLink(marked + miss, k, netns) == f
    requires forall x :: x in miss ==> x.shouldAttach
    ensures Merge(marked + miss, e, netns) ==
            if f.None? then marked + (miss + [e])
            else if f.value < |marked| then marked[f.value := marked[f.value].(shouldAttach := true)] + miss
            else marked + miss
  {
  }

  /** Only the set of expected keys matters: not their order, their multiplicity or the uuids minted for them. */
  lemma OrderInsensitive(links: seq<Link>, es: seq<Link>, es': seq<Link>, netns: map<string, nat>)
    requires forall e :: e in es + es' ==> e.shouldAttach
    requires Keys(es, netns) == Keys(es', netns)
    ensures |links| <= |UpdateLinks(links, es, netns)| == |UpdateLinks(links, es', netns)|
    ensures UpdateLinks(links, es, netns)[..|links|] == UpdateLinks(links, es', netns)[..|links|]
    ensures Keys(UpdateLinks(links, es, netns)[|links|..], netns) == Keys(UpdateLinks(links, es', netns)[|links|..], netns)
  {
    UpdateLinksRefines(links, es, netns);
    UpdateLinksRefines(links, es', netns);
    MissingKeys(es, Keys(links, netns), netns);
    MissingKeys(es', Keys(links, netns), netns);
    DistinctKeysCount(Missing(es, Keys(links, netns), netns), netns);
    DistinctKeysCount(Missing(es', Keys(links, netns), netns), netns);
  }

  lemma {:induction false} DistinctKeysCount(links: seq<Link>, netns: map<string, nat>)
    requires forall i :: 0 <= i < |links| ==> KeyOf(links[i].point, netns).Some?
    requires forall i, j :: 0 <= i < j < |links| ==> KeyOf(links[i].point, netns) != KeyOf(links[j].point, netns)
    ensures |Keys(links, netns)| == |links|
  {
    if links != [] {
      var init, e := links[..|links| - 1], links[|links| - 1];
      assert links == init + [e];
      DistinctKeysCount(init, netns);
      KeysSnoc(init, e, netns);
      KeysAt(init, netns, KeyOf(e.point, netns).value);
    }
  }

  /** A permutation of the expected links has the same keys. */
  lemma PermutedKeys(es: seq<Link>, es': seq<Link>, netns: map<string, nat>)
    requires multiset(Points(es)) == multiset(Points(es'))
    ensures Keys(es, netns) == Keys(es', netns)
  {
    forall p ensures p in Points(es) <==> p in Points(es') {
      assert p in multiset(Points(es)) <==> p in multiset(Points(es'));
    }
  }

  /** The result carries exactly the marks its own keys call for, and has an entry for every expected key. */
  lemma UpdateLinksMarks(links: seq<Link>, es: seq<Link>, netns: map<string, nat>)
    requires forall e :: e in es ==> e.shouldAttach
    ensures UpdateLinks(links, es, netns) == Remark(UpdateLinks(links, es, netns), Keys(es, netns), netns)
    ensures Keys(es, netns) <= Keys(UpdateLinks(links, es, netns), netns)
  {
    hide KeyOf, UpdateLinks, Missing, Keys;
    var EK, known := Keys(es, netns), Keys(links, netns);
    var r, miss := UpdateLinks(links, es, netns), Missing(es, known, netns);
    UpdateLinksRefines(links, es, netns);
    MissingKeys(es, known, netns);
    assert forall i :: 0 <= i < |links| ==> r[i].point == links[i].point;
    forall i | |links| <= i < |r| ensures r[i].shouldAttach && Wanted(r, EK, netns, i) {
      assert r[i] == miss[i - |links|] && r[i] in miss;
      var k := KeyOf(r[i].point, netns).value;
      KeysAt(miss, netns, k);
      forall j | 0 <= j < i ensures KeyOf(r[j].point, netns) != Some(k) {
        if j < |links| {
          KeysAt(links, netns, k);
        } else {
          assert r[j] == miss[j - |links|];
        }
      }
    }
    forall k | k in EK ensures k in Keys(r, netns) {
      KeysAt(links, netns, k);
      KeysAt(miss, netns, k);
      KeysAt(r, netns, k);
      if k in known {
        var i :| 0 <= i < |links| && KeyOf(links[i].point, netns) == Some(k);
        assert KeyOf(r[i].point, netns) == Some(k);
      } else {
        var i :| 0 <= i < |miss| && KeyOf(miss[i].point, netns) == Some(k);
        assert r[|links| + i] == miss[i];
      }
    }
  }

  /** Running updateLinks again for the same keys on its own result changes nothing. */
  lemma UpdateLinksStable(links: seq<Link>, es: seq<Link>, netns: map<string, nat>)
    requires forall e :: e in es ==> e.shouldAttach
    requires Keys(es, netns) <= Keys(links, netns)
    requires links == Remark(links, Keys(es, netns), netns)
    ensures UpdateLinks(links, es, netns) == links
  {
    UpdateLinksRefines(links, es, netns);
    MissingKeys(es, Keys(links, netns), netns);
    var miss := Missing(es, Keys(links, netns), netns);
    if miss != [] {
      KeysAt(miss, netns, KeyOf(miss[0].point, netns).value);
    }
  }
}
