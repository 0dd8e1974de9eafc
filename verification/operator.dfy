/**
 The operator's side: folding the state objects of all nodes into the application's one condition, and
 guarding the application with the operator's finalizer (reconcileBpfApplication).
 */
module Operator {
  import opened Types
  import opened Application

  datatype AppCondType = AppPending | AppError | AppSuccess | AppDeleteError

  datatype AppCondition = AppCondition(kind: AppCondType, since: nat)

  /** What the operator reads of one state object. */
  datatype StateView = StateView(name: string, node: string, finalizer: bool, conditions: seq<Condition>)

  datatype Decision =
    | Nothing
    | AddFinalizer
    | RemoveFinalizer
    | SetStatus(cond: AppCondType, names: seq<string>)

  predicate Finalized(s: StateView) {
    s.finalizer
  }

  predicate Failing(s: StateView) {
    IsFailure(s.conditions)
  }

  predicate PendingOnly(s: StateView) {
    !IsFailure(s.conditions) && IsPending(s.conditions)
  }

  predicate Covered(node: string, states: seq<StateView>) {
    exists s :: s in states && s.node == node
  }

  predicate AllCovered(nodes: seq<string>, states: seq<StateView>) {
    forall n :: n in nodes ==> Covered(n, states)
  }

  /** The names of the state objects that satisfy p, in list order. */
  function NamesWhere(states: seq<StateView>, p: StateView -> bool): (r: seq<string>)
    ensures r == [] <==> forall s :: s in states ==> !p(s)
  {
    if states == [] then []
    else
      var init, s := states[..|states| - 1], states[|states| - 1];
      assert states == init + [s];
      NamesWhere(init, p) + if p(s) then [s.name] else []
  }

  /** A list that could not be read is None. */
  function Decide(guarded: bool, deleting: bool, nodes: Option<seq<string>>, states: Option<seq<StateView>>): Decision {
    if !guarded then AddFinalizer
    else if states.None? || nodes.None? then Nothing
    else if deleting then
      if NamesWhere(states.value, Finalized) == [] then RemoveFinalizer
      else SetStatus(AppDeleteError, NamesWhere(states.value, Finalized))
    else if !AllCovered(nodes.value, states.value) then SetStatus(AppPending, [])
    else if NamesWhere(states.value, Failing) != [] then SetStatus(AppError, NamesWhere(states.value, Failing))
    else if NamesWhere(states.value, PendingOnly) != [] then SetStatus(AppPending, NamesWhere(states.value, PendingOnly))
    else SetStatus(AppSuccess, [])
  }

  /** updateCondition. */
  function NewConditions(conditions: seq<AppCondition>, c: AppCondType, now: nat): seq<AppCondition> {
    if |conditions| == 1 && conditions[0].kind == c then conditions else [AppCondition(c, now)]
  }

  /** Whatever conditions there were, exactly one is left, of the new type; it is new unless it was the only one. */
  lemma OneCondition(conditions: seq<AppCondition>, c: AppCondType, now: nat)
    ensures var r := NewConditions(conditions, c, now);
            && |r| == 1 && r[0].kind == c
            && (r == conditions <==> (|conditions| == 1 && conditions[0].kind == c) || conditions == [AppCondition(c, now)])
            && (r != conditions ==> r[0].since == now)
            && NewConditions(r, c, now + 1) == r
  {
  }

  /** What each decision means: missing nodes rank above failing states, and those above pending ones. */
  lemma Ranking(deleting: bool, nodes: seq<string>, states: seq<StateView>)
    ensures var d := Decide(true, deleting, Some(nodes), Some(states));
            var someFail := exists s :: s in states && IsFailure(s.conditions);
            var somePend := exists s :: s in states && IsPending(s.conditions);
            && (d == RemoveFinalizer <==> deleting && forall s :: s in states ==> !s.finalizer)
            && (d.SetStatus? && d.cond == AppDeleteError <==> deleting && exists s :: s in states && s.finalizer)
            && (d == SetStatus(AppSuccess, []) <==> !deleting && AllCovered(nodes, states) && !someFail && !somePend)
            && (d.SetStatus? && d.cond == AppError <==> !deleting && AllCovered(nodes, states) && someFail)
            && (d.SetStatus? && d.cond == AppPending <==>
                  !deleting && (!AllCovered(nodes, states) || (!someFail && somePend)))
  {
  }

  /**
   Without the operator's finalizer the decision is to put it on, whatever could be read; with it, nothing is
   decided exactly if a list could not be read.
   */
  lemma GuardFirst(deleting: bool, nodes: Option<seq<string>>, states: Option<seq<StateView>>)
    ensures Decide(false, deleting, nodes, states) == AddFinalizer
    ensures Decide(true, deleting, nodes, states) != AddFinalizer
    ensures Decide(true, deleting, nodes, states) == Nothing <==> nodes.None? || states.None?
  {
  }

  /** Which states fail and which are pending, by their first condition. */
  lemma ConditionClasses(conditions: seq<Condition>)
    ensures conditions == [] ==> IsFailure(conditions) && IsPending(conditions)
    ensures conditions != [] ==>
              var c := conditions[0].kind;
              && (IsFailure(conditions) <==> c in {CondError, CondProgramListChangedError, CondUnloadError})
              && (IsPending(conditions) <==> c == CondPending)
              && (!IsFailure(conditions) && !IsPending(conditions) <==> c in {CondSuccess, CondUnloaded, CondEmpty})
  {
  }

  lemma {:induction false} NamesAre(states: seq<StateView>, p: StateView -> bool, n: string)
    ensures n in NamesWhere(states, p) <==> exists s :: s in states && p(s) && s.name == n
    ensures |NamesWhere(states, p)| <= |states|
  {
    if states != [] {
      var init, s := states[..|states| - 1], states[|states| - 1];
      assert states == init + [s];
      NamesAre(init, p, n);
    }
  }

  /** Which state objects a verdict names: those with the finalizer, the failing ones, or the pending ones. */
  lemma VerdictNames(deleting: bool, nodes: seq<string>, states: seq<StateView>, n: string)
    requires Decide(true, deleting, Some(nodes), Some(states)).SetStatus?
    ensures var d := Decide(true, deleting, Some(nodes), Some(states));
            && (d.cond == AppDeleteError ==> (n in d.names <==> exists s :: s in states && s.finalizer && s.name == n))
            && (d.cond == AppError ==> (n in d.names <==> exists s :: s in states && IsFailure(s.conditions) && s.name == n))
            && (d.cond == AppPending && AllCovered(nodes, states) ==>
                  (n in d.names <==> exists s :: s in states && IsPending(s.conditions) && s.name == n))
            && (d.cond == AppSuccess || (d.cond == AppPending && !AllCovered(nodes, states)) ==> d.names == [])
  {
    NamesAre(states, Finalized, n);
    NamesAre(states, Failing, n);
    NamesAre(states, PendingOnly, n);
    assert forall s :: s in states ==> Finalized(s) == s.finalizer && Failing(s) == IsFailure(s.conditions);
    assert forall s :: s in states ==> PendingOnly(s) == (!IsFailure(s.conditions) && IsPending(s.conditions));
  }

  /** No condition counts as failing, so a state object that has not got its first condition yet is an error. */
  lemma EmptyIsFailing(nodes: seq<string>, states: seq<StateView>, s: StateView)
    requires AllCovered(nodes, states) && s in states && s.conditions == []
    ensures var d := Decide(true, false, Some(nodes), Some(states)); d.SetStatus? && d.cond == AppError && d.names != []
  {
  }

  /** The stored application object, as far as the operator writes it. */
  class ApplicationReconciler {
    var finalizer: bool
    var deleting: bool
    var conditions: seq<AppCondition>

    /** `ok` says whether the API server accepts the write. */
    method UpdateCondition(cond: AppCondType, now: nat, ok: bool)
      modifies `conditions
      ensures conditions == if ok then NewConditions(old(conditions), cond, now) else old(conditions)
    {
      var cs := conditions;
      if |cs| == 1 {
        if cs[0].kind == cond {
          return;
        }
        cs := [];
      } else if |cs| > 1 {
        cs := [];
      }
      cs := cs + [AppCondition(cond, now)];
      if ok {
        conditions := cs;
      }
    }

    method Reconcile(nodes: Option<seq<string>>, states: Option<seq<StateView>>, now: nat, ok: bool) returns (d: Decision)
      modifies this
      ensures d == Decide(old(finalizer), old(deleting), nodes, states)
      ensures deleting == old(deleting)
      ensures finalizer == if ok && d.AddFinalizer? then true
                           else if ok && d.RemoveFinalizer? then false else old(finalizer)
      ensures conditions == if ok && d.SetStatus? then NewConditions(old(conditions), d.cond, now) else old(conditions)
      ensures !old(finalizer) ==> finalizer == ok && conditions == old(conditions)
      ensures old(finalizer) ==> (d == Nothing <==> nodes.None? || states.None?)
    {
      if !finalizer {
        finalizer := ok;
        return AddFinalizer;
      }
      if states.None? || nodes.None? {
        return Nothing;
      }
      if !deleting {
        var missing := MissingNode(nodes.value, states.value);
        if missing {
          UpdateCondition(AppPending, now, ok);
          return SetStatus(AppPending, []);
        }
      }
      var applied, failed, pending := Classify(states.value);
      if deleting {
        if |applied| == 0 {
          finalizer := !ok;
          return RemoveFinalizer;
        }
        UpdateCondition(AppDeleteError, now, ok);
        return SetStatus(AppDeleteError, applied);
      }
      if |failed| != 0 {
        UpdateCondition(AppError, now, ok);
        d := SetStatus(AppError, failed);
      } else if |pending| != 0 {
        UpdateCondition(AppPending, now, ok);
        d := SetStatus(AppPending, pending);
      } else {
        UpdateCondition(AppSuccess, now, ok);
        d := SetStatus(AppSuccess, []);
      }
    }

    /** Whether some listed node has no state object. */
    method MissingNode(nodes: seq<string>, states: seq<StateView>) returns (missing: bool)
      ensures missing <==> !AllCovered(nodes, states)
    {
      for i := 0 to |nodes|
        invariant forall k :: 0 <= k < i ==> Covered(nodes[k], states)
      {
        var nodeFound := false;
        for j := 0 to |states|
          invariant !nodeFound && forall k :: 0 <= k < j ==> states[k].node != nodes[i]
        {
          if states[j].node == nodes[i] {
            nodeFound := true;
            break;
          }
        }
        if !nodeFound {
          assert nodes[i] in nodes && !Covered(nodes[i], states);
          return true;
        }
      }
      return false;
    }

    /** The state objects that carry the agent's finalizer, that fail, and that are pending. */
    method Classify(states: seq<StateView>) returns (applied: seq<string>, failed: seq<string>, pending: seq<string>)
      ensures applied == NamesWhere(states, Finalized)
      ensures failed == NamesWhere(states, Failing)
      ensures pending == NamesWhere(states, PendingOnly)
    {
      applied, failed, pending := [], [], [];
      for i := 0 to |states|
        invariant applied == NamesWhere(states[..i], Finalized)
        invariant failed == NamesWhere(states[..i], Failing)
        invariant pending == NamesWhere(states[..i], PendingOnly)
      {
        var s := states[i];
        assert states[..i + 1][..i] == states[..i];
        if s.finalizer {
          applied := applied + [s.name];
        }
        if IsFailure(s.conditions) {
          failed := failed + [s.name];
        } else if IsPending(s.conditions) {
          pending := pending + [s.name];
        }
      }
      assert states[..|states|] == states;
    }
  }
}
