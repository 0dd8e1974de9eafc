/** A visit in the terms of its inputs: on which nodes it acts, what it records of loading, and how it ends. */
module VisitMeanings {
  import opened Types
  import opened Daemons
  import opened Application
  import opened ApplicationProofs
  import opened VisitProofs
  import opened Requests
  import opened HeldPlaces
  import opened Verdicts
  import opened Limits
  import opened Pass
  import opened PassProofs

  // ---- node selection ----

  /** The node carries every pair of the selector. */
  predicate Agrees(sel: NodeSelector, labels: map<string, string>) {
    sel.MatchLabels? && sel.labels.Items <= labels.Items
  }

  /**
   A node with labels is selected exactly if it carries every pair of the selector; evaluation fails exactly if the
   selector does not parse or the node has no labels.
   */
  lemma SelectedIff(sel: NodeSelector, labels: map<string, string>)
    ensures Selected(sel, labels).None? <==> sel.InvalidSelector? || labels == map[]
    ensures Selected(sel, labels) == Some(true) <==> labels != map[] && Agrees(sel, labels)
    ensures Selected(sel, labels) == Some(false) <==> labels != map[] && sel.MatchLabels? && !Agrees(sel, labels)
  {
    if sel.MatchLabels? {
      var m := sel.labels;
      if forall k :: k in m ==> k in labels && labels[k] == m[k] {
        forall item | item in m.Items ensures item in labels.Items {
          assert m[item.0] == item.1;
        }
      }
      if m.Items <= labels.Items {
        forall k | k in m ensures k in labels && labels[k] == m[k] {
          assert (k, m[k]) in m.Items;
        }
      }
    }
  }

  /** Load, Attach and Detach are only asked for on a node that carries every pair of the application's selector. */
  lemma ActsOnlyWhereSelected(app: App, status: AppStatus, d: Daemon, env: Env, uuid: nat, now: nat, k: nat)
    requires Valid(d) && AppInv(status.programs, d)
    requires |d.log| <= k < |Visit(app, status, d, env, uuid, now).daemon.log|
    ensures !Visit(app, status, d, env, uuid, now).daemon.log[k].UnloadCall? ==> Agrees(app.selector, env.labels) && !app.deleting
  {
    hide Visit, AppInv, SomeProgramCall, ProgramListMatches;
    VisitCalls(app, status, d, env, uuid, now, k);
    SelectedIff(app.selector, env.labels);
  }

  /**
   On a labelled node that lacks a pair of the selector, a visit that does not panic leaves nothing recorded, and
   none of what was recorded loaded.
   */
  lemma UnmatchedLeavesNothing(app: App, status: AppStatus, d: Daemon, env: Env, uuid: nat, now: nat)
    requires Valid(d) && AppInv(status.programs, d) && env.labels != map[]
    requires app.selector.MatchLabels? && !Agrees(app.selector, env.labels)
    ensures var v := Visit(app, status, d, env, uuid, now);
            && (!v.panicked ==> RecordedIds(v.status.programs) == {})
            && v.daemon.programs.Keys == d.programs.Keys - RecordedIds(status.programs)
  {
    hide Visit, AppInv;
    SelectedIff(app.selector, env.labels);
    UnloadKeys(status.programs, d);
    UnselectedDaemon(app, status, d, env, uuid, now);
    if !Visit(app, status, d, env, uuid, now).panicked {
      UnselectedTruthful(app, status, d, env, uuid, now);
    }
  }

  lemma UnselectedDaemon(app: App, status: AppStatus, d: Daemon, env: Env, uuid: nat, now: nat)
    requires Selected(app.selector, env.labels) == Some(false)
    ensures Visit(app, status, d, env, uuid, now).daemon == UnloadUpTo(status.programs, |status.programs|, d).1
  {
    UnloadFacts(status.programs, |status.programs|, d);
    var (ps', d1) := UnloadUpTo(status.programs, |status.programs|, d);
    UnloadedIdle(app.programs, ps', d1, env, uuid);
  }

  // ---- entries ----

  /**
   A program whose type, name or traced function no entry has any more keeps a live application from Success: after
   an edit of any of them the visit panics, or ends in an error or in the condition of empty type.
   */
  lemma EditedNeverSucceeds(app: App, status: AppStatus, d: Daemon, env: Env, uuid: nat, now: nat, spec: ProgSpec)
    requires Valid(d) && AppInv(status.programs, d) && !app.deleting && spec in app.programs
    requires forall j :: 0 <= j < |status.programs| ==> !IsEntryOf(spec, status.programs[j])
    requires !HasCondition(status.conditions, CondProgramListChangedError)
    ensures var v := Visit(app, status, d, env, uuid, now);
            v.panicked || HasCondition(v.status.conditions, CondError) || HasCondition(v.status.conditions, CondEmpty)
  {
    hide AppInv, IsEntryOf;
    FoundIsEntry(spec, status.programs);
    if ReconcileLoad(app, status, d, env).ok && !Visit(app, status, d, env, uuid, now).panicked {
      EmptyTypeIff(app, status, d, env, uuid, now);
    } else {
      ErrorPathEnds(app, status, d, env, uuid, now);
    }
  }

  lemma ErrorPathEnds(app: App, status: AppStatus, d: Daemon, env: Env, uuid: nat, now: nat)
    ensures var v := Visit(app, status, d, env, uuid, now);
            !ReconcileLoad(app, status, d, env).ok ==> !v.panicked && v.mustWrite && HasCondition(v.status.conditions, CondError)
  {
    hide ReconcileLoad;
  }

  /** What a new state object says: one entry per program in spec order, unloaded, pending and without links. */
  lemma CreatedRecord(app: App, node: Node, inp: Inputs)
    requires app.name !in node.states && inp.createOk && inp.specWaitOk && inp.statusWriteOk && DistinctSpecs(app.programs)
    ensures var node' := CreateState(app, node, inp);
            && node'.daemon == node.daemon && app.name in node'.states && node'.states[app.name].finalizer
            && var s := node'.states[app.name].status;
            && s.loadStatus == AppLoadNotLoaded && s.updateCount == 1 && s.conditions == [Condition(CondPending, inp.now)]
            && |s.programs| == |app.programs|
            && forall i :: 0 <= i < |s.programs| ==>
                 && IsEntryOf(app.programs[i], s.programs[i]) && s.programs[i].programId == None
                 && s.programs[i].linkStatus == ProgAttachPending && s.programs[i].links == []
  {
    InitialExists(app.programs, |app.programs|);
    InitialFacts(app.programs, |app.programs|);
  }

  // ---- how a visit ends ----

  /** The load status a visit leaves, in every case; on the error path of a selector, the old one. */
  lemma LoadStatusMeans(app: App, status: AppStatus, d: Daemon, env: Env)
    requires Valid(d) && AppInv(status.programs, d)
    ensures var l := ReconcileLoad(app, status, d, env);
            var s := l.status.loadStatus;
            if app.selector.InvalidSelector? || env.labels == map[] then !l.ok && l.status == status
            else if !Agrees(app.selector, env.labels) then l.ok && s == NotSelected
            else if app.deleting then l.ok && s == AppUnLoadSuccess
            else
              && (l.ok <==> s == AppLoadSuccess) && (l.ok ==> IsLoaded(l.status.programs, l.daemon))
              && (s == ProgListChangedError <==> !ProgramListMatches(app.programs, status.programs))
              && (s in {AppLoadSuccess, ProgListChangedError, AppLoadError})
  {
    hide AppAccounted, ProgramListMatches, IsLoaded;
    SelectedIff(app.selector, env.labels);
    if Selected(app.selector, env.labels) == Some(true) && !app.deleting && ReconcileLoad(app, status, d, env).ok {
      LoadedOrNone(app, status, d, env);
    }
  }

  /**
   How a visit ends, unless it panics: on the error path in Error; on an application being deleted in Unloaded where
   it is selected and in Success where it is not; on a live one whose programs all have entries in Success exactly
   if every entry reports success, else in Error.
   */
  lemma VisitEnds(app: App, status: AppStatus, d: Daemon, env: Env, uuid: nat, now: nat)
    requires Valid(d) && AppInv(status.programs, d) && !Visit(app, status, d, env, uuid, now).panicked
    ensures var v := Visit(app, status, d, env, uuid, now);
            && (v.mustWrite ==> HasCondition(v.status.conditions, CondError))
            && (!v.mustWrite && app.deleting ==>
                  HasCondition(v.status.conditions, if Agrees(app.selector, env.labels) then CondUnloaded else CondSuccess))
            && (!v.mustWrite && !app.deleting && AllFound(app.programs, status.programs) ==>
                  HasCondition(v.status.conditions,
                    if forall p :: p in v.status.programs ==> p.linkStatus == ProgAttachSuccess then CondSuccess else CondError))
            && (v.mustWrite <==> !ReconcileLoad(app, status, d, env).ok)
  {
    hide AppInv, AllFound, IsLoaded, ProgramListMatches;
    SelectedIff(app.selector, env.labels);
    if app.deleting {
      UnloadFacts(status.programs, |status.programs|, d);
    } else if ReconcileLoad(app, status, d, env).ok {
      LoopFindsAll(app, status, d, env, uuid);
    }
  }

  /** The condition that load status and link statuses call for, each way round. */
  lemma StatusMeans(status: AppStatus)
    ensures var c := CheckProgramStatus(status);
            var bad := exists p :: p in status.programs && p.linkStatus != ProgAttachSuccess;
            && (c == CondUnloadError <==> status.loadStatus == AppLoadError)
            && (c == CondUnloaded <==> status.loadStatus == AppUnLoadSuccess)
            && (c == CondError ==> bad) && (c == CondSuccess ==> !bad)
            && c in {CondUnloadError, CondUnloaded, CondSuccess, CondError}
  {
  }

  /** Whatever conditions there were, a visit leaves exactly one, new unless it was the only one. */
  lemma OneConditionLeft(conditions: seq<Condition>, c: CondType, now: nat)
    requires c != CondProgramListChangedError
    ensures var r := SetCondition(conditions, c, now);
            && |r| == 1 && r[0].kind == c && (r != conditions ==> r[0].since == now)
            && (|conditions| == 1 && conditions[0].kind == c ==> r == conditions)
  {
  }
}
