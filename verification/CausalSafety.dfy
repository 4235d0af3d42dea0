/** A hop has started only when its join was met by the hops before it. */
module CausalSafety {
  import opened Wrappers
  import opened Conditions
  import opened Workflow
  import opened DagSemantics
  import opened DagFacts
  import opened DagSteps

  predicate Justified(h: Hops, hop: Hop) {
    Root(hop) || JoinMet(h, hop)
  }

  /** Every ready, dispatched, complete or failed hop is a root or has its join met. */
  ghost predicate Causal(def: Definition, h: Hops) {
    forall hop | hop in def && Started(h, hop.id) :: Justified(h, hop)
  }

  /** Finished predecessors stay finished. */
  ghost predicate Preserves(h: Hops, h': Hops) {
    && (forall id :: Satisfied(h, id) ==> Satisfied(h', id))
    && (forall id :: Is(h, id, Complete) ==> Is(h', id, Complete))
  }

  lemma JustificationPersists(h: Hops, h': Hops, hop: Hop)
    requires Preserves(h, h') && Justified(h, hop)
    ensures Justified(h', hop)
  {
    if !Root(hop) && hop.joinType == Any {
      var d :| d in hop.dependsOn && Is(h, d, Complete);
      assert Is(h', d, Complete);
    }
  }

  // ----- Which steps are harmless -----

  /** The join of `hop` would not be met without the hop `id`. */
  predicate RestsOn(h: Hops, hop: Hop, id: HopId) {
    match hop.joinType
    case Any => forall d | d in hop.dependsOn && Is(h, d, Complete) :: d == id
    case All => id in hop.dependsOn
  }

  /** The dispatched hop may start, and no started hop rests on it: dispatching a finished hop again unfinishes it. */
  ghost predicate HarmlessDispatch(def: Definition, h: Hops, id: HopId)
    requires id in Ids(def)
  {
    var hop := FindHop(def, id).value;
    && (Root(hop) || (JoinMet(h, hop) && !RestsOn(h, hop, id)))
    && forall x | x in def && x.id != id && Started(h, x.id) && !Root(x) :: !RestsOn(h, x, id)
  }

  /**
   * What resetting `reset` must not disturb: a started hop outside keeps a met join without the reset hops, and an
   * OR-join that is re-readied has a complete predecessor.
   */
  predicate Undisturbed(h: Hops, hop: Hop, reset: set<HopId>) {
    if Root(hop) then true
    else if hop.id in reset then
      hop.joinType == Any && OutsideSatisfied(h, hop, reset) ==> exists d :: d in hop.dependsOn && Is(h, d, Complete)
    else if Started(h, hop.id) then
      if hop.joinType == Any then exists d :: d in hop.dependsOn && d !in reset && Is(h, d, Complete)
      else forall d | d in hop.dependsOn :: d !in reset
    else true
  }

  /** The event resets the hop and its predecessors, neither everything nor nothing. */
  predicate ResetsPredecessors(h: Hops, rejected: Hop, event: HopEvent)
    requires rejected.id in h
  {
    && event.outcome.Rejected?
    && CountAfter(h, rejected.id) < DEFAULT_MAX_REJECTIONS
    && rejected.rejectionStrategy.GetOr(Origin) == Predecessors
  }

  /** Dispatches and "predecessors" rejections can do harm; every other step is harmless. */
  ghost predicate Harmless(def: Definition, h: Hops, step: Step)
    requires ValidDefinition(def) && Shaped(def, h) && Enabled(def, h, step)
  {
    match step
    case Dispatch(id, _, _, _) => HarmlessDispatch(def, h, id)
    case Report(run, result, _, _, _) =>
      var rejected := FindHop(def, FindDispatched(def, h).value).value;
      ResetsPredecessors(h, rejected, ReportEvent(def, rejected.id, run, result)) ==>
        forall hop | hop in def :: Undisturbed(h, hop, ResetSet(rejected))
    case Enforce(_, _) => true
    case Escalate(_, _, _) => true
  }

  // ----- Dispatch -----

  lemma DispatchedJoin(h: Hops, hop: Hop, id: HopId, next: HopState)
    requires next.status == Dispatched
    ensures JoinMet(h[id := next], hop) <==> JoinMet(h, hop) && !RestsOn(h, hop, id)
  {
    var h' := h[id := next];
    assert forall d :: Is(h', d, Complete) <==> d != id && Is(h, d, Complete);
    assert forall d :: Satisfied(h', d) <==> d != id && Satisfied(h, d);
  }

  /** A dispatch, on a fresh or a stale listing, keeps causality exactly when it is harmless. */
  lemma DispatchIsCausalIff(def: Definition, h: Hops, step: Step)
    requires ValidDefinition(def) && Shaped(def, h) && Causal(def, h) && step.Dispatch? && Enabled(def, h, step)
    ensures Causal(def, Take(def, h, step)) <==> HarmlessDispatch(def, h, step.id)
  {
    var hop := FindHop(def, step.id).value;
    var next := DispatchedState(h[step.id], hop, step.session, step.now);
    var h' := h[step.id := next];
    forall x | x in def
      ensures Started(h', x.id) <==> x.id == step.id || Started(h, x.id)
      ensures x.id == step.id ==> x == hop
      ensures JoinMet(h', x) <==> JoinMet(h, x) && !RestsOn(h, x, step.id)
    {
      DispatchedJoin(h, x, step.id, next);
      if x.id == step.id {
        SameId(def, x, hop);
      }
    }
  }

  // ----- Results -----

  /** A non-rejection call for the hop in flight finishes hops and unfinishes none. */
  lemma NormalPreserves(def: Definition, h: Hops, event: HopEvent, task: TaskMeta, now: Timestamp)
    requires Is(h, event.hopId, Dispatched) && !event.outcome.Rejected?
    ensures Preserves(h, EvaluateNormal(def, h, event, task, now))
    ensures Preserves(AfterScan(def, h, event, task, now), EvaluateNormal(def, h, event, task, now))
  {
    var h3 := AfterScan(def, h, event, task, now);
    NormalEffect(def, h, event, task, now);
    ReadySetIsPending(def, h3);
    ReadyingKeepsTerminal(h3, ReadySet(def, h3));
  }

  lemma NormalIsCausal(def: Definition, h: Hops, event: HopEvent, task: TaskMeta, now: Timestamp)
    requires UniqueIds(def) && Shaped(def, h) && Causal(def, h) && Is(h, event.hopId, Dispatched) && !event.outcome.Rejected?
    ensures Causal(def, EvaluateNormal(def, h, event, task, now))
  {
    var h3 := AfterScan(def, h, event, task, now);
    var h' := EvaluateNormal(def, h, event, task, now);
    NormalPreserves(def, h, event, task, now);
    forall hop | hop in def && Started(h', hop.id)
      ensures Justified(h', hop)
    {
      if Is(h, hop.id, Pending) {
        NormalMovesPending(def, h, event, task, now, hop);
        JustificationPersists(h3, h', hop);
      } else {
        assert Started(h, hop.id) by {
          if hop.id != event.hopId {
            NormalKeepsStarted(def, h, event, task, now, hop.id);
          }
        }
        JustificationPersists(h, h', hop);
      }
    }
  }

  lemma BreakerOrOriginIsCausal(def: Definition, h: Hops, rejected: Hop, now: Timestamp)
    requires ValidDefinition(def) && Shaped(def, h) && Causal(def, h) && rejected in def && Is(h, rejected.id, Dispatched)
    requires CountAfter(h, rejected.id) >= DEFAULT_MAX_REJECTIONS || rejected.rejectionStrategy.GetOr(Origin) == Origin
    ensures Causal(def, EvaluateRejection(def, h, rejected, now))
  {
    var h' := EvaluateRejection(def, h, rejected, now);
    var count := CountAfter(h, rejected.id);
    if count >= DEFAULT_MAX_REJECTIONS {
      BreakerEffect(def, h, rejected, now);
      assert Preserves(h, h');
    }
    forall hop | hop in def && Started(h', hop.id)
      ensures Justified(h', hop)
    {
      if count >= DEFAULT_MAX_REJECTIONS {
        JustificationPersists(h, h', hop);
      } else {
        OriginEffect(def, h, rejected.id, count, hop);
      }
    }
  }

  lemma ResetUnfinishes(def: Definition, h: Hops, rejected: Hop, count: nat)
    requires ValidDefinition(def) && Shaped(def, h) && rejected in def
    ensures var h' := ResetPredecessors(def, h, rejected, count);
            var reset := ResetSet(rejected);
            && (forall id :: Satisfied(h', id) <==> id !in reset && Satisfied(h, id))
            && (forall id :: Is(h', id, Complete) <==> id !in reset && Is(h, id, Complete))
  {
  }

  lemma ResetJoin(def: Definition, h: Hops, rejected: Hop, count: nat, hop: Hop)
    requires ValidDefinition(def) && Shaped(def, h) && rejected in def && hop in def
    requires Started(h, hop.id) ==> Justified(h, hop)
    ensures var h' := ResetPredecessors(def, h, rejected, count);
            (Started(h', hop.id) ==> Justified(h', hop)) <==> Undisturbed(h, hop, ResetSet(rejected))
  {
    PredecessorsEffect(def, h, rejected, count, hop);
    ResetUnfinishes(def, h, rejected, count);
  }

  /** With the "predecessors" strategy a rejection keeps causality exactly when no join is disturbed. */
  lemma {:induction false} PredecessorRejectionIsCausalIff(def: Definition, h: Hops, rejected: Hop, count: nat)
    requires ValidDefinition(def) && Shaped(def, h) && Causal(def, h) && rejected in def
    ensures Causal(def, ResetPredecessors(def, h, rejected, count))
            <==> forall hop | hop in def :: Undisturbed(h, hop, ResetSet(rejected))
  {
    forall hop | hop in def
      ensures var h' := ResetPredecessors(def, h, rejected, count);
              (Started(h', hop.id) ==> Justified(h', hop)) <==> Undisturbed(h, hop, ResetSet(rejected))
    {
      ResetJoin(def, h, rejected, count, hop);
    }
  }

  lemma ReportIsCausalIff(def: Definition, h: Hops, step: Step)
    requires ValidDefinition(def) && Shaped(def, h) && Causal(def, h) && step.Report? && Enabled(def, h, step)
    ensures Causal(def, AfterReport(def, h, step)) <==> Harmless(def, h, step)
  {
    var id := FindDispatched(def, h).value;
    var event := ReportEvent(def, id, step.run, step.result);
    var hop := FindHop(def, id).value;
    if ResetsPredecessors(h, hop, event) {
      PredecessorRejectionIsCausalIff(def, h, hop, CountAfter(h, id));
    } else if event.outcome.Rejected? {
      BreakerOrOriginIsCausal(def, h, hop, step.now);
    } else {
      NormalIsCausal(def, h, event, step.task, step.now);
    }
  }

  /** Moving a hop that is not finished, and may start or has started, to another started status changes no join. */
  lemma RestartIsCausalIff(def: Definition, h: Hops, hop: Hop, next: HopState)
    requires UniqueIds(def) && Shaped(def, h) && hop in def && (Started(h, hop.id) || Justified(h, hop))
    requires next.status == Dispatched || next.status == Ready || next.status == Failed
    requires !Satisfied(h, hop.id)
    ensures Causal(def, h[hop.id := next]) <==> Causal(def, h)
  {
    var h' := h[hop.id := next];
    forall x | x in def
      ensures Justified(h', x) <==> Justified(h, x)
      ensures Started(h', x.id) <==> x == hop || Started(h, x.id)
    {
      if x.id == hop.id {
        SameId(def, x, hop);
      }
      assert forall d :: Is(h', d, Complete) <==> Is(h, d, Complete);
      assert forall d :: Satisfied(h', d) <==> Satisfied(h, d);
    }
  }

  lemma FollowIsCausalIff(def: Definition, h: Hops, step: Step)
    requires ValidDefinition(def) && Shaped(def, h) && step.Report? && step.follow.Some? && Enabled(def, h, step)
    ensures Causal(def, Take(def, h, step)) <==> Causal(def, AfterReport(def, h, step))
  {
    FollowIsStartable(def, h, step);
    var h' := AfterReport(def, h, step);
    var hop := FindHop(def, step.follow.value.hopId).value;
    RestartIsCausalIff(def, h', hop, DispatchedState(h'[hop.id], hop, step.follow.value.session, step.now));
  }

  /** From a causal state, a step of any kind leads to a causal state exactly when it is harmless. */
  lemma StepIsCausalIff(def: Definition, h: Hops, step: Step)
    requires ValidDefinition(def) && Shaped(def, h) && Causal(def, h) && Enabled(def, h, step)
    ensures Causal(def, Take(def, h, step)) <==> Harmless(def, h, step)
  {
    match step
    case Dispatch(_, _, _, _) => DispatchIsCausalIff(def, h, step);
    case Report(_, _, _, _, follow) =>
      ReportIsCausalIff(def, h, step);
      if follow.Some? {
        FollowIsCausalIff(def, h, step);
      }
    case Enforce(id, _) => RestartIsCausalIff(def, h, FindHop(def, id).value, Take(def, h, step)[id]);
    case Escalate(id, _, _) => RestartIsCausalIff(def, h, FindHop(def, id).value, Take(def, h, step)[id]);
  }

  // ----- Runs -----

  /** Every state of the run is causal. */
  ghost predicate CausalThroughout(def: Definition, h: Hops, steps: seq<Step>)
    requires ValidDefinition(def) && Shaped(def, h) && Legal(def, h, steps)
    decreases |steps|
  {
    && Causal(def, h)
    && (steps == [] || (TakeKeepsShape(def, h, steps[0]); CausalThroughout(def, Take(def, h, steps[0]), steps[1..])))
  }

  ghost predicate AllHarmless(def: Definition, h: Hops, steps: seq<Step>)
    requires ValidDefinition(def) && Shaped(def, h) && Legal(def, h, steps)
    decreases |steps|
  {
    steps == [] ||
    (&& Harmless(def, h, steps[0])
     && (TakeKeepsShape(def, h, steps[0]); AllHarmless(def, Take(def, h, steps[0]), steps[1..])))
  }

  lemma {:induction false} RunIsCausalIff(def: Definition, h: Hops, steps: seq<Step>)
    requires ValidDefinition(def) && Shaped(def, h) && Causal(def, h) && Legal(def, h, steps)
    ensures CausalThroughout(def, h, steps) <==> AllHarmless(def, h, steps)
    ensures CausalThroughout(def, h, steps) ==> Causal(def, Final(def, h, steps))
    decreases |steps|
  {
    if steps != [] {
      TakeKeepsShape(def, h, steps[0]);
      StepIsCausalIff(def, h, steps[0]);
      if Causal(def, Take(def, h, steps[0])) {
        RunIsCausalIff(def, Take(def, h, steps[0]), steps[1..]);
      }
    }
  }

  lemma InitialIsCausal(def: Definition)
    requires UniqueIds(def)
    ensures Causal(def, InitialState(def))
  {
    forall hop | hop in def && Started(InitialState(def), hop.id)
      ensures Justified(InitialState(def), hop)
    {
      InitialStatus(def, hop);
    }
  }

  /**
   * Every run from the initial state, on whatever listings its polls act: no hop is ever started without its join met
   * exactly when every dispatch and every "predecessors" rejection on the way is harmless. One hop is in flight at most.
   */
  lemma {:induction false} CausalSafety(def: Definition, steps: seq<Step>)
    requires ValidDefinition(def) && Legal(def, InitialState(def), steps)
    ensures CausalThroughout(def, InitialState(def), steps) <==> AllHarmless(def, InitialState(def), steps)
    ensures AllHarmless(def, InitialState(def), steps) ==> Causal(def, Final(def, InitialState(def), steps))
    ensures AtMostOneDispatched(Final(def, InitialState(def), steps))
  {
    InitialIsCausal(def);
    RunIsCausalIff(def, InitialState(def), steps);
    OneHopInFlight(def, InitialState(def), steps);
  }

  ghost predicate OriginOnly(def: Definition) {
    forall hop | hop in def && hop.canReject :: hop.rejectionStrategy.GetOr(Origin) == Origin
  }

  lemma ReadyDispatchIsHarmless(def: Definition, h: Hops, id: HopId)
    requires ValidDefinition(def) && Shaped(def, h) && Causal(def, h) && Is(h, id, Ready)
    ensures HarmlessDispatch(def, h, id)
  {
    var hop := FindHop(def, id).value;
    assert Started(h, id);
    forall x | x in def && Started(h, x.id) && !Root(x)
      ensures !RestsOn(h, x, id)
    {
      assert JoinMet(h, x);
    }
  }

  lemma OriginStepIsHarmless(def: Definition, h: Hops, step: Step)
    requires ValidDefinition(def) && OriginOnly(def) && Shaped(def, h) && Causal(def, h)
    requires Enabled(def, h, step) && !Stale(h, step)
    ensures Harmless(def, h, step)
  {
    match step
    case Dispatch(id, _, _, _) => ReadyDispatchIsHarmless(def, h, id);
    case Report(run, result, _, _, _) =>
      var rejected := FindHop(def, FindDispatched(def, h).value).value;
      assert rejected in def;
    case Enforce(_, _) =>
    case Escalate(_, _, _) =>
  }

  /** With fresh listings and rejections to the origin only, every run is harmless. */
  lemma {:induction false} OriginRunsAreCausal(def: Definition, h: Hops, steps: seq<Step>)
    requires ValidDefinition(def) && OriginOnly(def) && Shaped(def, h) && Causal(def, h)
    requires Legal(def, h, steps) && StaleDispatches(def, h, steps) == 0
    ensures CausalThroughout(def, h, steps) && Causal(def, Final(def, h, steps))
    decreases |steps|
  {
    if steps != [] {
      TakeKeepsShape(def, h, steps[0]);
      OriginStepIsHarmless(def, h, steps[0]);
      StepIsCausalIff(def, h, steps[0]);
      OriginRunsAreCausal(def, Take(def, h, steps[0]), steps[1..]);
    }
  }
}
