/** The cache of network-namespace ids that is reset at the start of each pass (ReconcilerNetNsCache). */
module NetNs {
  import opened Types
  import opened Links

  function Canonical(path: string): string {
    if path == "" then HOST_NETNS else path
  }

  /** A query: the path asked for, and the inodes of the paths that can be stat'ed at that moment. */
  datatype Query = Query(path: string, fs: map<string, nat>)

  datatype Answer = Answer(id: Option<nat>, cache: map<string, nat>)

  function Lookup(cache: map<string, nat>, q: Query): Answer {
    var p := Canonical(q.path);
    if p in cache then Answer(Some(cache[p]), cache)
    else if p in q.fs then Answer(Some(q.fs[p]), cache[p := q.fs[p]])
    else Answer(None, cache)
  }

  /** The cache after a sequence of queries that starts with an empty one. */
  function CacheAfter(qs: seq<Query>): map<string, nat> {
    if qs == [] then map[] else Lookup(CacheAfter(qs[..|qs| - 1]), qs[|qs| - 1]).cache
  }

  /** The answer to query i of the sequence. */
  function AnswerTo(qs: seq<Query>, i: nat): Option<nat>
    requires i < |qs|
  {
    Lookup(CacheAfter(qs[..i]), qs[i]).id
  }

  /** Query k is the first one for path p at a moment when p can be stat'ed. */
  predicate FirstHit(qs: seq<Query>, p: string, k: int) {
    && 0 <= k < |qs| && Canonical(qs[k].path) == p && p in qs[k].fs
    && forall m :: 0 <= m < k && Canonical(qs[m].path) == p ==> p !in qs[m].fs
  }

  lemma {:induction false} CacheHoldsFirstHits(qs: seq<Query>, p: string)
    ensures p in CacheAfter(qs) <==> exists k :: FirstHit(qs, p, k)
    ensures forall k :: FirstHit(qs, p, k) ==> p in CacheAfter(qs) && CacheAfter(qs)[p] == qs[k].fs[p]
  {
    if qs != [] {
      var init, q := qs[..|qs| - 1], qs[|qs| - 1];
      CacheHoldsFirstHits(init, p);
      forall k | FirstHit(init, p, k) ensures FirstHit(qs, p, k) {
      }
      if p in CacheAfter(qs) && p !in CacheAfter(init) {
        forall m | 0 <= m < |init| && Canonical(qs[m].path) == p ensures p !in qs[m].fs {
          if n :| 0 <= n <= m && Canonical(qs[n].path) == p && p in qs[n].fs {
            var k := FindFirstHit(init, p, n);
          }
        }
        assert FirstHit(qs, p, |init|);
      }
      forall k | FirstHit(qs, p, k) ensures p in CacheAfter(qs) && CacheAfter(qs)[p] == qs[k].fs[p] {
        if k < |init| {
          assert FirstHit(init, p, k);
        } else {
          assert forall j :: 0 <= j < k ==> init[j] == qs[j];
        }
      }
    }
  }

  /** If some query could have filled the cache, a first one did. */
  lemma {:induction false} FindFirstHit(qs: seq<Query>, p: string, n: nat) returns (k: nat)
    requires n < |qs| && Canonical(qs[n].path) == p && p in qs[n].fs
    ensures k <= n && FirstHit(qs, p, k)
    decreases n
  {
    if m :| 0 <= m < n && Canonical(qs[m].path) == p && p in qs[m].fs {
      k := FindFirstHit(qs, p, m);
    } else {
      k := n;
    }
  }

  /**
   Whatever happens to the filesystem between queries, an answer is the inode the path had at its first
   successful lookup so far, and there is none exactly if there has been no such lookup.
   */
  lemma AnswersFirstHit(qs: seq<Query>, i: nat)
    requires i < |qs|
    ensures AnswerTo(qs, i).None? <==> !exists k :: 0 <= k <= i && FirstHit(qs, Canonical(qs[i].path), k)
    ensures forall k :: 0 <= k <= i && FirstHit(qs, Canonical(qs[i].path), k) ==>
              AnswerTo(qs, i) == Some(qs[k].fs[Canonical(qs[i].path)])
  {
    var p, upTo := Canonical(qs[i].path), qs[..i + 1];
    assert upTo[..i] == qs[..i] && upTo[i] == qs[i];
    CacheHoldsFirstHits(upTo, p);
    forall k ensures FirstHit(upTo, p, k) <==> k <= i && FirstHit(qs, p, k) {
    }
    assert AnswerTo(qs, i).Some? <==> p in CacheAfter(upTo);
  }

  /** All answers for one path agree, and the empty path and the host's path are one. */
  lemma AnswersAgree(qs: seq<Query>, i: nat, j: nat)
    requires i <= j < |qs| && Canonical(qs[i].path) == Canonical(qs[j].path) && AnswerTo(qs, i).Some?
    ensures AnswerTo(qs, j) == AnswerTo(qs, i)
  {
    AnswersFirstHit(qs, i);
    AnswersFirstHit(qs, j);
  }

  /** While the filesystem stays as it is, the cache answers as a direct lookup does. */
  lemma FixedFilesystem(qs: seq<Query>, i: nat, fs: map<string, nat>)
    requires i < |qs| && forall k :: 0 <= k < |qs| ==> qs[k].fs == fs
    ensures AnswerTo(qs, i) == NetnsId(fs, qs[i].path)
  {
    hide AnswerTo, CacheAfter, Lookup;
    AnswersFirstHit(qs, i);
    if Canonical(qs[i].path) in fs {
      var k := FindFirstHit(qs, Canonical(qs[i].path), i);
    }
  }

  class NetNsCache {
    var cache: map<string, nat>

    constructor ()
      ensures cache == map[]
    {
      cache := map[];
    }

    /** What the cache holds is what the filesystem says. */
    predicate Agrees(fs: map<string, nat>)
      reads this
    {
      forall p :: p in cache ==> p in fs && fs[p] == cache[p]
    }

    method Reset()
      modifies this
      ensures cache == map[]
    {
      cache := map[];
    }

    method GetNetNsId(path: string, fs: map<string, nat>) returns (id: Option<nat>)
      modifies this
      ensures Answer(id, cache) == Lookup(old(cache), Query(path, fs))
      ensures old(Agrees(fs)) ==> Agrees(fs) && id == NetnsId(fs, path)
    {
      var p := path;
      if p == "" {
        p := HOST_NETNS;
      }
      if p in cache {
        return Some(cache[p]);
      }
      if p !in fs {
        return None;
      }
      cache := cache[p := fs[p]];
      return Some(fs[p]);
    }
  }
}
