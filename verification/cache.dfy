/**
 Reading state objects through a cache that lags behind the API server but only moves forward, and how
 UpdateCount and the two waits make the agent read its own writes.
 */
module Cache {
  import opened Types
  import opened Pass

  /** The writes to the state objects of one application and node, as the API server accepted them. */
  datatype Event =
    | Made(id: nat)
    | Stored(id: nat, status: AppStatus)
    | Cleared(id: nat)

  /** `version` changes with every write and is what the API server checks an update against. */
  datatype Object = Object(status: AppStatus, finalizer: bool, version: nat)

  function Effect(view: map<nat, Object>, e: Event, version: nat): map<nat, Object> {
    match e
    case Made(id) => view[id := Object(EmptyStatus, true, version)]
    case Stored(id, status) =>
      if id in view then view[id := Object(status, view[id].finalizer, version)] else view
    case Cleared(id) =>
      if id in view then view[id := Object(view[id].status, false, version)] else view
  }

  /** The objects after the writes of a log; a cache that has seen the first n writes shows View(log[..n]). */
  function View(log: seq<Event>): map<nat, Object> {
    if log == [] then map[] else Effect(View(log[..|log| - 1]), log[|log| - 1], |log| - 1)
  }

  /**
   The API server's log, how much of it the cache has shown, whether the wait for every object made so far has
   found one, and whether all waits so far have succeeded.
   */
  datatype System = System(log: seq<Event>, seen: nat, found: bool, settled: bool)

  /**
   One reconcile, with what is left to chance: how far the cache has come when the object is read and when
   each wait last polls, and whether the API server takes the writes (a stale version it never takes).
   */
  datatype Reconcile =
    | Creates(read: nat, createOk: bool, poll: nat, status: AppStatus, writeOk: bool, poll': nat)
    | Writes(read: nat, status: AppStatus, writeOk: bool, poll: nat)
    | Clears(read: nat, writeOk: bool)
    | Leaves(read: nat)

  /** getBpfAppState: the one object in view, if there is exactly one. */
  ghost predicate TheOne(view: map<nat, Object>, id: nat) {
    view.Keys == {id}
  }

  ghost predicate HasOne(view: map<nat, Object>) {
    exists id :: TheOne(view, id)
  }

  ghost function One(view: map<nat, Object>): (id: nat)
    requires HasOne(view)
    ensures TheOne(view, id)
  {
    var id :| TheOne(view, id);
    id
  }

  /** The update of an object as it was read, refused unless that is its latest version. */
  ghost function Update(log: seq<Event>, id: nat, base: Object, e: Event, ok: bool): seq<Event> {
    if ok && id in View(log) && View(log)[id].version == base.version then log + [e] else log
  }

  /** The poll of waitForBpfAppStateStatusUpdate. */
  ghost predicate ShowsCount(view: map<nat, Object>, count: nat) {
    HasOne(view) && view[One(view)].status.updateCount >= count
  }

  ghost predicate CanTake(s: System, r: Reconcile) {
    && s.seen <= r.read <= |s.log|
    && var view := View(s.log[..r.read]);
    match r
    case Creates(read, _, poll, _, _, poll') => view == map[] && read <= poll <= |s.log| + 1 && poll <= poll' <= |s.log| + 2
    case Writes(read, _, _, poll) => HasOne(view) && read <= poll <= |s.log| + 1
    case Clears(_, _) => HasOne(view)
    case Leaves(_) => true
  }

  /** A poll position, cut to the log there is. */
  function Cut(poll: nat, log: seq<Event>): nat {
    if poll <= |log| then poll else |log|
  }

  ghost function Take(s: System, r: Reconcile): System
    requires CanTake(s, r)
  {
    match r
    case Leaves(read) => s.(seen := read)
    case Clears(read, ok) =>
      var view := View(s.log[..read]);
      var id := One(view);
      System(Update(s.log, id, view[id], Cleared(id), ok), read, s.found, s.settled)
    case Writes(read, status, ok, poll) =>
      var view := View(s.log[..read]);
      var id := One(view);
      var count := view[id].status.updateCount + 1;
      StoreAndWait(s.log, id, view[id], status.(updateCount := count), ok, read, poll, s.found, s.settled)
    case Creates(read, createOk, poll, status, writeOk, poll') =>
      if !createOk then s.(seen := read)
      else
        var log1 := s.log + [Made(|s.log|)];
        var view := View(log1[..poll]);
        if !HasOne(view) then System(log1, poll, false, false)
        else
          var id := One(view);
          StoreAndWait(log1, id, view[id], status.(updateCount := 1), writeOk, poll, poll', s.found, s.settled)
  }

  /** updateBpfAppStateStatus: write, and if the write is taken wait until the cache shows its count. */
  ghost function StoreAndWait(
    log: seq<Event>, id: nat, base: Object, status: AppStatus, ok: bool, read: nat, poll: nat, found: bool, settled: bool): System
    requires read <= |log|
  {
    var log' := Update(log, id, base, Stored(id, status), ok);
    if log' == log then System(log, read, found, settled)
    else System(log', Cut(poll, log'), found, settled && ShowsCount(View(log'[..Cut(poll, log')]), status.updateCount))
  }

  ghost predicate Run(s: System, rs: seq<Reconcile>)
    decreases |rs|, 0
  {
    rs == [] || (Run(s, rs[..|rs| - 1]) && CanTake(AfterRun(s, rs[..|rs| - 1]), rs[|rs| - 1]))
  }

  ghost function AfterRun(s: System, rs: seq<Reconcile>): System
    requires Run(s, rs)
    decreases |rs|, 1
  {
    if rs == [] then s else Take(AfterRun(s, rs[..|rs| - 1]), rs[|rs| - 1])
  }

  const Start := System([], 0, true, true)

  // ---- views ----

  lemma ViewSnoc(log: seq<Event>, e: Event)
    ensures View(log + [e]) == Effect(View(log), e, |log|)
  {
  }

  lemma ViewAt(log: seq<Event>, i: nat)
    requires i < |log|
    ensures View(log[..i + 1]) == Effect(View(log[..i]), log[i], i)
  {
    assert log[..i + 1] == log[..i] + [log[i]];
    ViewSnoc(log[..i], log[i]);
  }

  /** The same objects with the same statuses. */
  ghost predicate SameStatuses(v: map<nat, Object>, w: map<nat, Object>) {
    v.Keys == w.Keys && forall id :: id in v ==> v[id].status == w[id].status
  }

  lemma {:induction false} OnlyClears(log: seq<Event>, i: nat, j: nat)
    requires i <= j <= |log| && forall k :: i <= k < j ==> log[k].Cleared?
    ensures SameStatuses(View(log[..i]), View(log[..j]))
    decreases j
  {
    if i < j {
      OnlyClears(log, i, j - 1);
      ViewAt(log, j - 1);
    }
  }

  // ---- what every run keeps ----

  /** Ids are fresh, and each status write raises the object's count by exactly one. */
  ghost predicate SoundAt(log: seq<Event>, k: nat)
    requires k < |log|
  {
    match log[k]
    case Made(id) => id == k
    case Stored(id, status) =>
      var view := View(log[..k]);
      id in view && status.updateCount == view[id].status.updateCount + 1
    case Cleared(id) => id in View(log[..k])
  }

  ghost predicate Sound(log: seq<Event>) {
    forall k: nat :: k < |log| ==> SoundAt(log, k)
  }

  lemma SoundSnoc(log: seq<Event>, e: Event)
    requires Sound(log) && SoundAt(log + [e], |log|)
    ensures Sound(log + [e])
  {
    var log' := log + [e];
    forall k: nat | k < |log'| ensures SoundAt(log', k) {
      if k < |log| {
        assert log'[..k] == log[..k] && SoundAt(log, k);
      }
    }
  }

  lemma {:induction false} Below(log: seq<Event>, i: nat)
    requires Sound(log) && i <= |log|
    ensures forall id :: id in View(log[..i]) ==> View(log[..i])[id].version < i && id < i
  {
    if i > 0 {
      Below(log, i - 1);
      ViewAt(log, i - 1);
      assert SoundAt(log, i - 1);
    }
  }

  /** An object, once visible, stays; its count and its version only grow, and the version tells its contents. */
  lemma {:induction false} Monotone(log: seq<Event>, i: nat, j: nat, id: nat)
    requires Sound(log) && i <= j <= |log| && id in View(log[..i])
    ensures var v, w := View(log[..i]), View(log[..j]);
            && id in w && v[id].status.updateCount <= w[id].status.updateCount
            && v[id].version <= w[id].version && (v[id].version == w[id].version ==> v[id] == w[id])
    decreases j
  {
    if i < j {
      Monotone(log, i, j - 1, id);
      Below(log, i);
      Below(log, j - 1);
      ViewAt(log, j - 1);
      assert SoundAt(log, j - 1);
    }
  }

  /** An object is visible from its creation on. */
  lemma {:induction false} Visible(log: seq<Event>, i: nat, id: nat)
    requires Sound(log) && i <= |log|
    ensures id in View(log[..i]) <==> id < i && log[id].Made?
  {
    if i > 0 {
      Visible(log, i - 1, id);
      ViewAt(log, i - 1);
      assert SoundAt(log, i - 1);
    }
  }

  /** An object shows the finalizer until it is cleared. */
  lemma {:induction false} FinalizerIff(log: seq<Event>, i: nat, id: nat)
    requires Sound(log) && i <= |log| && id in View(log[..i])
    ensures View(log[..i])[id].finalizer <==> forall k :: 0 <= k < i ==> log[k] != Cleared(id)
  {
    Visible(log, i, id);
    ViewAt(log, i - 1);
    assert SoundAt(log, i - 1);
    if id != i - 1 {
      Visible(log, i - 1, id);
      FinalizerIff(log, i - 1, id);
    } else {
      forall k | 0 <= k < i ensures log[k] != Cleared(id) {
        assert SoundAt(log, k);
        Visible(log, k, id);
      }
    }
  }

  /** An object that was never updated still has its empty status. */
  lemma {:induction false} Untouched(log: seq<Event>, i: nat, id: nat)
    requires Sound(log) && i <= |log| && id in View(log[..i])
    requires forall k :: 0 <= k < i && log[k].Stored? ==> log[k].id != id
    ensures View(log[..i])[id].status == EmptyStatus
  {
    Visible(log, i, id);
    ViewAt(log, i - 1);
    assert SoundAt(log, i - 1);
    if id != i - 1 {
      Visible(log, i - 1, id);
      Untouched(log, i - 1, id);
    }
  }

  ghost predicate Inv(s: System) {
    && s.seen <= |s.log| && Sound(s.log)
    && (forall k :: 0 <= k < |s.log| && s.log[k].Stored? ==> s.log[k].id < s.seen)
    && (s.settled ==>
          && (forall k :: s.seen <= k < |s.log| ==> s.log[k].Cleared?)
          && (View(s.log) == map[] || HasOne(View(s.log))))
  }

  lemma Whole(log: seq<Event>)
    ensures log[..|log|] == log
  {
  }

  /** An update that is taken is of the object as it last was. */
  lemma Taken(log: seq<Event>, i: nat, id: nat)
    requires Sound(log) && i <= |log| && id in View(log[..i])
    ensures id in View(log) && (View(log)[id].version == View(log[..i])[id].version ==> View(log)[id] == View(log[..i])[id])
    ensures View(log[..i])[id].status.updateCount <= View(log)[id].status.updateCount
  {
    Whole(log);
    Monotone(log, i, |log|, id);
  }

  lemma UpdateSound(log: seq<Event>, i: nat, id: nat, e: Event, ok: bool)
    requires Sound(log) && i <= |log| && id in View(log[..i])
    requires e == Cleared(id) || (e.Stored? && e.id == id && e.status.updateCount == View(log[..i])[id].status.updateCount + 1)
    ensures Sound(Update(log, id, View(log[..i])[id], e, ok))
  {
    Taken(log, i, id);
    var base := View(log[..i])[id];
    if Update(log, id, base, e, ok) != log {
      Whole(log);
      assert (log + [e])[..|log|] == log;
      SoundSnoc(log, e);
    }
  }

  /**
   If a status write is taken and the wait for its count succeeds, the cache has caught up with every write
   there is, the agent's own included.
   */
  lemma WaitCatchesUp(log: seq<Event>, i: nat, id: nat, status: AppStatus, poll: nat)
    requires Sound(log) && i <= poll && i <= |log| && TheOne(View(log[..i]), id)
    requires status.updateCount == View(log[..i])[id].status.updateCount + 1
    requires id in View(log) && View(log)[id].version == View(log[..i])[id].version
    requires poll <= |log| + 1
    ensures var log' := log + [Stored(id, status)];
            ShowsCount(View(log'[..poll]), status.updateCount) ==> poll == |log'|
  {
    var log' := log + [Stored(id, status)];
    Taken(log, i, id);
    if poll <= |log| {
      assert log'[..poll] == log[..poll];
      Monotone(log, i, poll, id);
      Taken(log, poll, id);
    }
  }

  /** The invariant, through a status write and its wait. */
  lemma StoreKeeps(s: System, i: nat, status: AppStatus, ok: bool, poll: nat)
    requires s.seen <= i <= |s.log| && i <= poll && Sound(s.log)
    requires forall k :: 0 <= k < |s.log| && s.log[k].Stored? ==> s.log[k].id < i
    requires s.settled ==> (forall k :: i <= k < |s.log| ==> s.log[k].Cleared?) && HasOne(View(s.log))
    requires HasOne(View(s.log[..i])) && poll <= |s.log| + 1
    requires var view := View(s.log[..i]); status.updateCount == view[One(view)].status.updateCount + 1
    ensures var view := View(s.log[..i]);
            Inv(StoreAndWait(s.log, One(view), view[One(view)], status, ok, i, poll, s.found, s.settled))
  {
    var view := View(s.log[..i]);
    var id, e := One(view), Stored(One(view), status);
    var log' := Update(s.log, id, view[id], e, ok);
    UpdateSound(s.log, i, id, e, ok);
    Below(s.log, i);
    if log' != s.log {
      ViewSnoc(s.log, e);
      WaitCatchesUp(s.log, i, id, status, Cut(poll, log'));
      Taken(s.log, i, id);
      if s.settled {
        assert One(View(s.log)) == id;
        assert TheOne(View(log'), id);
      }
    }
  }

  lemma TakeKeeps(s: System, r: Reconcile)
    requires Inv(s) && CanTake(s, r)
    ensures Inv(Take(s, r))
  {
    Whole(s.log);
    match r
    case Leaves(_) =>
    case Clears(read, ok) => {
      var view := View(s.log[..read]);
      var id := One(view);
      UpdateSound(s.log, read, id, Cleared(id), ok);
      if s.settled {
        ClearKeepsOne(s.log, id);
      }
    }
    case Writes(read, status, ok, poll) => {
      if s.settled {
        OnlyClears(s.log, read, |s.log|);
        SameOne(View(s.log[..read]), View(s.log));
      }
      var view := View(s.log[..read]);
      StoreKeeps(s, read, status.(updateCount := view[One(view)].status.updateCount + 1), ok, poll);
    }
    case Creates(_, createOk, _, _, _, _) => {
      if createOk {
        CreateKeeps(s, r);
      }
    }
  }

  lemma SameOne(v: map<nat, Object>, w: map<nat, Object>)
    requires SameStatuses(v, w) && HasOne(v)
    ensures HasOne(w)
  {
    assert TheOne(w, One(v));
  }

  lemma ClearKeepsOne(log: seq<Event>, id: nat)
    requires View(log) == map[] || HasOne(View(log))
    ensures View(log + [Cleared(id)]) == map[] || HasOne(View(log + [Cleared(id)]))
  {
    ViewSnoc(log, Cleared(id));
    if HasOne(View(log)) {
      assert TheOne(View(log + [Cleared(id)]), One(View(log)));
    }
  }

  /** The invariant, through a creation, its wait, and the first status write. */
  lemma CreateKeeps(s: System, r: Reconcile)
    requires Inv(s) && CanTake(s, r) && r.Creates? && r.createOk
    ensures Inv(Take(s, r))
  {
    hide View, Sound;
    var log1 := s.log + [Made(|s.log|)];
    InvSound(s);
    SoundSnoc(s.log, Made(|s.log|));
    var view := View(log1[..r.poll]);
    if HasOne(view) {
      var id := One(view);
      NotSeenBefore(s, log1, r.read, r.poll, id);
      if s.settled {
        SettledCreate(s, r);
      }
      StoreKeeps(System(log1, s.seen, s.found, s.settled), r.poll, r.status.(updateCount := 1), r.writeOk, r.poll');
    }
  }

  /** In a settled run, a creation's wait that finds an object has seen everything there is. */
  lemma SettledCreate(s: System, r: Reconcile)
    requires Inv(s) && CanTake(s, r) && r.Creates? && s.settled
    requires HasOne(View((s.log + [Made(|s.log|)])[..r.poll]))
    ensures r.poll == |s.log| + 1 && HasOne(View(s.log + [Made(|s.log|)]))
  {
    var log1 := s.log + [Made(|s.log|)];
    Whole(s.log);
    Whole(log1);
    OnlyClears(s.log, r.read, |s.log|);
    if r.poll <= |s.log| {
      assert log1[..r.poll] == s.log[..r.poll];
      OnlyClears(s.log, r.read, r.poll);
    }
  }

  /** The object a creation finds has not been updated yet. */
  lemma NotSeenBefore(s: System, log1: seq<Event>, read: nat, poll: nat, id: nat)
    requires Inv(s) && s.log <= log1 && |log1| == |s.log| + 1 && log1[|s.log|].Made? && Sound(log1)
    requires s.seen <= read <= poll <= |log1| && read <= |s.log|
    requires View(s.log[..read]) == map[] && id in View(log1[..poll])
    ensures View(log1[..poll])[id].status.updateCount == 0
  {
    assert log1[..read] == s.log[..read];
    Visible(log1, poll, id);
    Visible(log1, read, id);
    Untouched(log1, poll, id);
  }

  lemma {:induction false} RunKeeps(rs: seq<Reconcile>)
    requires Run(Start, rs)
    ensures Inv(AfterRun(Start, rs))
  {
    if rs != [] {
      RunKeeps(rs[..|rs| - 1]);
      TakeKeeps(AfterRun(Start, rs[..|rs| - 1]), rs[|rs| - 1]);
    }
  }

  /** In every run, whatever waits fail, each accepted status write raises UpdateCount by exactly one. */
  lemma CountsByOne(rs: seq<Reconcile>, k: nat)
    requires Run(Start, rs) && k < |AfterRun(Start, rs).log| && AfterRun(Start, rs).log[k].Stored?
    ensures var log := AfterRun(Start, rs).log;
            && log[k].id in View(log[..k])
            && log[k].status.updateCount == View(log[..k])[log[k].id].status.updateCount + 1
  {
    RunKeeps(rs);
    assert SoundAt(AfterRun(Start, rs).log, k);
  }

  /**
   Read your writes: in every run in which the waits succeed, there is at most one state object, and wherever
   the cache stands, the next reconcile reads it with the status last written.
   */
  lemma ReadsOwnWrites(rs: seq<Reconcile>, read: nat)
    requires Run(Start, rs) && AfterRun(Start, rs).settled
    requires AfterRun(Start, rs).seen <= read <= |AfterRun(Start, rs).log|
    ensures var log := AfterRun(Start, rs).log;
            && (View(log) == map[] || HasOne(View(log)))
            && SameStatuses(View(log[..read]), View(log))
  {
    RunKeeps(rs);
    var log := AfterRun(Start, rs).log;
    Whole(log);
    OnlyClears(log, read, |log|);
  }

  /** If the last write was a status and the cache then shows its count, the cache has shown everything there is. */
  ghost predicate WaitCatches(s': System) {
    |s'.log| > 0 && s'.log[|s'.log| - 1].Stored? ==>
      && s'.seen <= |s'.log|
      && (ShowsCount(View(s'.log[..s'.seen]), s'.log[|s'.log| - 1].status.updateCount) ==> s'.seen == |s'.log|)
  }

  /**
   In every run, a status write that is taken and waited for leaves no later read behind it: the first one, which
   follows a creation, and every later one.
   */
  lemma WaitedWriteIsRead(rs: seq<Reconcile>, r: Reconcile)
    requires Run(Start, rs) && CanTake(AfterRun(Start, rs), r)
    requires |Take(AfterRun(Start, rs), r).log| > |AfterRun(Start, rs).log|
    ensures WaitCatches(Take(AfterRun(Start, rs), r))
  {
    RunKeeps(rs);
    var s := AfterRun(Start, rs);
    match r
    case Writes(_, _, _, _) => WaitedWrite(s, r);
    case Creates(_, _, _, _, _, _) => WaitedFirstWrite(s, r);
    case Clears(_, _) => ClearedLast(s, r);
    case Leaves(_) =>
  }

  lemma ClearedLast(s: System, r: Reconcile)
    requires CanTake(s, r) && r.Clears? && |Take(s, r).log| > |s.log|
    ensures !Take(s, r).log[|Take(s, r).log| - 1].Stored?
  {
  }

  lemma WaitedWrite(s: System, r: Reconcile)
    requires Inv(s) && r.Writes? && CanTake(s, r) && |Take(s, r).log| > |s.log|
    ensures WaitCatches(Take(s, r))
  {
    hide View, HasOne, Inv, Sound;
    var view := View(s.log[..r.read]);
    var id := One(view);
    var status := r.status.(updateCount := view[id].status.updateCount + 1);
    InvSound(s);
    WaitCatchesUp(s.log, r.read, id, status, Cut(r.poll, s.log + [Stored(id, status)]));
  }

  lemma WaitedFirstWrite(s: System, r: Reconcile)
    requires Inv(s) && r.Creates? && CanTake(s, r) && |Take(s, r).log| > |s.log|
    ensures WaitCatches(Take(s, r))
  {
    hide View, HasOne, Inv, Sound;
    var log1 := s.log + [Made(|s.log|)];
    var view := View(log1[..r.poll]);
    InvSound(s);
    SoundSnoc(s.log, Made(|s.log|));
    if HasOne(view) && Take(s, r).log != log1 {
      var id, status := One(view), r.status.(updateCount := 1);
      NotSeenBefore(s, log1, r.read, r.poll, id);
      WaitCatchesUp(log1, r.poll, id, status, Cut(r.poll', log1 + [Stored(id, status)]));
    }
  }

  lemma InvSound(s: System)
    requires Inv(s)
    ensures s.seen <= |s.log| && Sound(s.log)
  {
  }

  // ---- how many objects there are ----

  /** There is at most one object, and the cache has shown it. */
  ghost predicate Unique(s: System) {
    s.seen <= |s.log| && (View(s.log) == map[] || (HasOne(View(s.log)) && View(s.log[..s.seen]) != map[]))
  }

  lemma StaysVisible(log: seq<Event>, i: nat, log': seq<Event>, j: nat)
    requires Sound(log') && log <= log' && i <= |log| && i <= j <= |log'| && View(log[..i]) != map[]
    ensures View(log'[..j]) != map[]
  {
    assert log'[..i] == log[..i];
    var id :| id in View(log[..i]);
    Monotone(log', i, j, id);
  }

  lemma SameObjects(log: seq<Event>, e: Event)
    requires !e.Made?
    ensures View(log + [e]).Keys == View(log).Keys
  {
    ViewSnoc(log, e);
  }

  lemma SameHasOne(v: map<nat, Object>, w: map<nat, Object>)
    requires v.Keys == w.Keys
    ensures HasOne(v) == HasOne(w) && (v == map[] <==> w == map[])
  {
    assert forall id :: TheOne(v, id) == TheOne(w, id);
    assert v == map[] <==> v.Keys == {};
    assert w == map[] <==> w.Keys == {};
  }

  /** A write to an object that is there makes no other. */
  lemma UpdateUnique(s: System, s': System, e: Event)
    requires Unique(s) && Sound(s'.log) && !e.Made? && (s'.log == s.log || s'.log == s.log + [e])
    requires s.seen <= s'.seen <= |s'.log|
    ensures Unique(s')
  {
    SameObjects(s.log, e);
    SameHasOne(View(s.log), View(s'.log));
    if View(s.log) != map[] {
      StaysVisible(s.log, s.seen, s'.log, s'.seen);
    }
  }

  lemma ReadNone(s: System, read: nat)
    requires Inv(s) && Unique(s) && s.seen <= read <= |s.log| && View(s.log[..read]) == map[]
    ensures View(s.log) == map[]
  {
    if View(s.log) != map[] {
      StaysVisible(s.log, s.seen, s.log, read);
    }
  }

  lemma MadeOne(log: seq<Event>)
    requires View(log) == map[]
    ensures TheOne(View(log + [Made(|log|)]), |log|) && HasOne(View(log + [Made(|log|)]))
  {
    ViewSnoc(log, Made(|log|));
    assert TheOne(View(log + [Made(|log|)]), |log|);
  }

  lemma TakeUnique(s: System, r: Reconcile)
    requires Inv(s) && CanTake(s, r) && Unique(s) && Take(s, r).found
    ensures Unique(Take(s, r))
  {
    hide Inv, View, HasOne, Sound, Unique;
    var s' := Take(s, r);
    TakeKeeps(s, r);
    InvSound(s');
    match r
    case Leaves(_) => UpdateUnique(s, s', Cleared(0));
    case Clears(read, _) => UpdateUnique(s, s', Cleared(One(View(s.log[..read]))));
    case Writes(read, status, _, _) => {
      var view := View(s.log[..read]);
      UpdateUnique(s, s', Stored(One(view), status.(updateCount := view[One(view)].status.updateCount + 1)));
    }
    case Creates(_, createOk, _, _, _, _) => {
      if createOk {
        CreateUnique(s, r);
      } else {
        UpdateUnique(s, s', Cleared(0));
      }
    }
  }

  lemma CreateUnique(s: System, r: Reconcile)
    requires Inv(s) && CanTake(s, r) && Unique(s) && r.Creates? && r.createOk && Take(s, r).found
    ensures Unique(Take(s, r))
  {
    hide View, Sound;
    var s' := Take(s, r);
    var log1 := s.log + [Made(|s.log|)];
    ReadNone(s, r.read);
    MadeOne(s.log);
    TakeKeeps(s, r);
    InvSound(s);
    SoundSnoc(s.log, Made(|s.log|));
    var s1 := System(log1, r.poll, true, true);
    FoundIsSomething(View(log1[..r.poll]));
    UpdateUnique(s1, s', Stored(One(View(log1[..r.poll])), r.status.(updateCount := 1)));
  }

  lemma FoundIsSomething(view: map<nat, Object>)
    requires HasOne(view)
    ensures view != map[]
  {
  }

  /**
   Whatever status waits fail and whatever writes are refused: as long as the wait for every object that is made
   finds one, there is at most one state object, and no later reconcile reads none when there is one.
   */
  lemma {:induction false} OneObject(rs: seq<Reconcile>)
    requires Run(Start, rs) && AfterRun(Start, rs).found
    ensures Unique(AfterRun(Start, rs))
    ensures forall read :: AfterRun(Start, rs).seen <= read <= |AfterRun(Start, rs).log| && View(AfterRun(Start, rs).log) != map[] ==>
              View(AfterRun(Start, rs).log[..read]) != map[]
  {
    hide Take, View, HasOne;
    if rs == [] {
      StartUnique();
    } else {
      var init, r := rs[..|rs| - 1], rs[|rs| - 1];
      RunKeeps(init);
      FoundBefore(AfterRun(Start, init), r);
      OneObject(init);
      TakeUnique(AfterRun(Start, init), r);
    }
    RunKeeps(rs);
    var s := AfterRun(Start, rs);
    forall read | s.seen <= read <= |s.log| && View(s.log) != map[] ensures View(s.log[..read]) != map[] {
      StaysVisible(s.log, s.seen, s.log, read);
    }
  }

  lemma StartUnique()
    ensures Unique(Start)
  {
  }

  lemma FoundBefore(s: System, r: Reconcile)
    requires CanTake(s, r) && Take(s, r).found
    ensures s.found
  {
  }

  /**
   Exactly when a second object can follow: where there is none, an accepted creation is followed by a reconcile
   that can create another if and only if the wait for the first does not find it.
   */
  lemma SecondCreationIff(s: System, r: Reconcile)
    requires Inv(s) && View(s.log) == map[] && r.Creates? && r.createOk && CanTake(s, r)
    ensures (exists r2: Reconcile :: r2.Creates? && CanTake(Take(s, r), r2)) <==> !HasOne(View((s.log + [Made(|s.log|)])[..r.poll]))
  {
    var log1, s' := s.log + [Made(|s.log|)], Take(s, r);
    SoundSnoc(s.log, Made(|s.log|));
    TakeKeeps(s, r);
    MadeOne(s.log);
    if HasOne(View(log1[..r.poll])) {
      forall r2: Reconcile | r2.Creates? ensures !CanTake(s', r2) {
        if s'.seen <= r2.read <= |s'.log| {
          StaysVisible(log1, r.poll, s'.log, r2.read);
        }
      }
    } else {
      NothingFound(s.log, r.poll);
      var r2 := Creates(r.poll, true, r.poll, EmptyStatus, true, r.poll);
      assert CanTake(s', r2);
    }
  }

  lemma NothingFound(log: seq<Event>, poll: nat)
    requires Sound(log) && View(log) == map[] && poll <= |log| + 1 && !HasOne(View((log + [Made(|log|)])[..poll]))
    ensures View((log + [Made(|log|)])[..poll]) == map[]
  {
    var log1 := log + [Made(|log|)];
    MadeOne(log);
    if poll == |log1| {
      Whole(log1);
    } else {
      assert log1[..poll] == log[..poll];
      Whole(log);
      if View(log[..poll]) != map[] {
        StaysVisible(log, poll, log, |log|);
      }
    }
  }

  /** A creation whose wait still sees the cache as it was at the start. */
  lemma BlindCreation(log: seq<Event>, settled: bool)
    ensures var s, r := System(log, 0, settled, settled), Creates(0, true, 0, EmptyStatus, true, 0);
            CanTake(s, r) && Take(s, r) == System(log + [Made(|log|)], 0, false, false)
  {
    assert log[..0] == [] && (log + [Made(|log|)])[..0] == [];
    assert !HasOne(View([]));
  }

  /** When the wait for a new object fails, the next reconcile can create a second one, and then all reads fail. */
  lemma FailedWaitDuplicates()
    ensures var r := Creates(0, true, 0, EmptyStatus, true, 0);
            && Run(Start, [r, r])
            && View(AfterRun(Start, [r, r]).log).Keys == {0, 1} && !HasOne(View(AfterRun(Start, [r, r]).log))
  {
    hide CanTake, Take, View;
    var r := Creates(0, true, 0, EmptyStatus, true, 0);
    BlindCreation([], true);
    BlindCreation([Made(0)], false);
    assert [r, r][..1] == [r] && [r][..0] == [];
    assert [] + [Made(0)] == [Made(0)] && [Made(0)] + [Made(1)] == [Made(0), Made(1)];
    assert Run(Start, []) && AfterRun(Start, []) == Start;
    assert Run(Start, [r]) && AfterRun(Start, [r]) == System([Made(0)], 0, false, false);
    assert Run(Start, [r, r]) && AfterRun(Start, [r, r]).log == [Made(0), Made(1)];
    TwoObjects();
  }

  lemma TwoObjects()
    ensures View([Made(0), Made(1)]).Keys == {0, 1} && !HasOne(View([Made(0), Made(1)]))
  {
    ViewSnoc([], Made(0));
    ViewSnoc([Made(0)], Made(1));
    assert [] + [Made(0)] == [Made(0)] && [Made(0)] + [Made(1)] == [Made(0), Made(1)];
    assert 0 in View([Made(0), Made(1)]) && 1 in View([Made(0), Made(1)]);
  }
}
