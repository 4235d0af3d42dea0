/** What each step of a workflow does, told without the functions that compute it, and where final statuses come from. */
module StepLaws {
  import opened Wrappers
  import opened Conditions
  import opened Workflow
  import opened DagSemantics
  import opened DagFacts
  import opened DagSteps
  import opened EvaluationLaws

  // ----- How a session ends -----

  /** The session that ends is that of the first hop in flight in definition order. */
  lemma {:induction false} FirstInFlight(def: Definition, h: Hops, i: nat)
    requires i < |def| && Is(h, def[i].id, Dispatched) && forall j | 0 <= j < i :: !Is(h, def[j].id, Dispatched)
    ensures FindDispatched(def, h) == Some(def[i].id)
  {
    if i > 0 {
      FirstInFlight(def[1..], h, i - 1);
    }
  }

  /** The run is done, or asks for a review of a hop that may not reject. */
  predicate Succeeds(run: RunOutcome, hop: Hop) {
    run == Done || (run == NeedsReview && !hop.canReject)
  }

  predicate AsksToReject(run: RunOutcome, hop: Hop) {
    run == NeedsReview && hop.canReject
  }

  /**
   * A session of `hop` that succeeds completes it with its notes; one that asks for a review of a hop that may reject rejects
   * it; any other fails it with its notes.
   */
  ghost predicate SessionEnds(def: Definition, h: Hops, hop: Hop, run: RunOutcome, notes: Option<Record>, h': Hops, task: TaskMeta,
                              now: Timestamp)
    requires hop.id in h
  {
    && h'.Keys == h.Keys
    && (Succeeds(run, hop) ==>
          && h'[hop.id] == h[hop.id].(status := Complete, completedAt := Some(now), result := notes)
          && EvaluatedTo(def, h, HopEvent(hop.id, Completed, notes), h', task, now))
    && (run == OtherOutcome ==>
          && h'[hop.id] == h[hop.id].(status := Failed, completedAt := Some(now), result := notes)
          && EvaluatedTo(def, h, HopEvent(hop.id, Failing, notes), h', task, now))
    && (AsksToReject(run, hop) ==> RejectedTo(def, h, hop, h', now))
  }

  lemma EventLaw(def: Definition, h: Hops, hop: Hop, outcome: Outcome, notes: Option<Record>, task: TaskMeta, now: Timestamp)
    requires ValidDefinition(def) && Shaped(def, h) && hop in def && (outcome == Completed || outcome == Failing)
    ensures var event := HopEvent(hop.id, outcome, notes);
            var h' := EvaluateNormal(def, h, event, task, now);
            && h'.Keys == h.Keys && EvaluatedTo(def, h, event, h', task, now)
            && h'[hop.id] == h[hop.id].(status := if outcome == Completed then Complete else Failed, completedAt := Some(now), result := notes)
  {
    var event := HopEvent(hop.id, outcome, notes);
    EvaluationLaw(def, h, event, task, now);
    NormalSettles(def, h, event, task, now);
  }

  lemma AfterReportIs(def: Definition, h: Hops, hop: Hop, run: RunOutcome, notes: Option<Record>, task: TaskMeta, now: Timestamp)
    requires ValidDefinition(def) && Shaped(def, h) && FindDispatched(def, h) == Some(hop.id) && hop in def
    ensures AfterReport(def, h, Report(run, notes, task, now, None))
         == if AsksToReject(run, hop) then EvaluateRejection(def, h, hop, now)
            else EvaluateNormal(def, h, HopEvent(hop.id, if run == OtherOutcome then Failing else Completed, notes), task, now)
  {
    FindHopIs(def, hop);
  }

  /** A report step evaluates the end of the session in flight. */
  lemma {:induction false} ReportLaw(def: Definition, h: Hops, hop: Hop, run: RunOutcome, notes: Option<Record>, task: TaskMeta, now: Timestamp)
    requires ValidDefinition(def) && Shaped(def, h) && FindDispatched(def, h) == Some(hop.id) && hop in def
    ensures SessionEnds(def, h, hop, run, notes, AfterReport(def, h, Report(run, notes, task, now, None)), task, now)
  {
    AfterReportIs(def, h, hop, run, notes, task, now);
    if AsksToReject(run, hop) {
      RejectionLaw(def, h, hop, now);
    } else {
      EventLaw(def, h, hop, if run == OtherOutcome then Failing else Completed, notes, task, now);
    }
  }

  // ----- Where final statuses come from -----

  /** The step is the end of a session of the hop `id`. */
  ghost predicate EndsSession(def: Definition, h: Hops, step: Step, id: HopId) {
    step.Report? && FindDispatched(def, h) == Some(id)
  }

  /** The hop `id` is in flight and its session succeeds. */
  ghost predicate CompletesHop(def: Definition, h: Hops, step: Step, id: HopId) {
    EndsSession(def, h, step, id) && Succeeds(step.run, FindHop(def, id).value)
  }

  /** The hop `id` is in flight, and its session fails, trips the breaker at its third rejection, or ends in silence. */
  ghost predicate FailsHop(def: Definition, h: Hops, step: Step, id: HopId) {
    || (&& EndsSession(def, h, step, id)
        && (step.run == OtherOutcome
            || (AsksToReject(step.run, FindHop(def, id).value) && id in h && NextCount(h[id]) >= 3)))
    || (step.Enforce? && step.id == id)
  }

  /** A rejection creates no complete hop, and no failed one but by the breaker. */
  lemma RejectionStatuses(def: Definition, h: Hops, r: Hop, now: Timestamp, id: HopId)
    requires ValidDefinition(def) && Shaped(def, h) && r in def && id in h && h[r.id].status == Dispatched
    ensures var h' := EvaluateRejection(def, h, r, now);
            && id in h'
            && (h'[id].status == Complete ==> h[id].status == Complete)
            && (h'[id].status == Failed <==> (if id == r.id then NextCount(h[r.id]) >= 3 else h'[id] == h[id] && h[id].status == Failed))
  {
    var hop := FindHop(def, id).value;
    if NextCount(h[r.id]) >= 3 {
      BreakerEffect(def, h, r, now);
    } else if r.rejectionStrategy != Some(Predecessors) {
      OriginResets(def, h, r, now, hop);
    } else {
      PredecessorsReset(def, h, r, now, hop);
    }
  }

  /** A normal evaluation completes or fails no hop but the event's. */
  lemma NormalStatuses(def: Definition, h: Hops, event: HopEvent, task: TaskMeta, now: Timestamp, id: HopId)
    requires UniqueIds(def) && Shaped(def, h) && event.hopId in h && !event.outcome.Rejected? && id in h && id != event.hopId
    ensures var h' := EvaluateNormal(def, h, event, task, now);
            && id in h'
            && (h'[id].status == Complete ==> h[id].status == Complete)
            && (h'[id].status == Failed ==> h[id].status == Failed)
  {
    NormalEffect(def, h, event, task, now);
  }

  lemma ReportStatuses(def: Definition, h: Hops, step: Step, id: HopId)
    requires ValidDefinition(def) && Shaped(def, h) && AtMostOneDispatched(h) && step.Report? && Enabled(def, h, step) && id in h
    ensures Shaped(def, AfterReport(def, h, step))
    ensures !Is(h, id, Complete) ==> (Is(AfterReport(def, h, step), id, Complete) <==> CompletesHop(def, h, step, id))
    ensures !Is(h, id, Failed) ==> (Is(AfterReport(def, h, step), id, Failed) <==> FailsHop(def, h, step, id))
    ensures CompletesHop(def, h, step, id) || FailsHop(def, h, step, id) ==> Is(h, id, Dispatched)
  {
    var hop := FindHop(def, FindDispatched(def, h).value).value;
    EvaluateKeepsShape(def, h, ReportEvent(def, hop.id, step.run, step.result), step.task, step.now);
    AfterReportIs(def, h, hop, step.run, step.result, step.task, step.now);
    if AsksToReject(step.run, hop) {
      RejectionStatuses(def, h, hop, step.now, id);
    } else {
      var event := HopEvent(hop.id, if step.run == OtherOutcome then Failing else Completed, step.result);
      if id == hop.id {
        NormalSettles(def, h, event, step.task, step.now);
      } else {
        NormalStatuses(def, h, event, step.task, step.now, id);
      }
    }
  }

  /** A step turns a hop complete exactly if it ends a successful session of that hop. */
  lemma {:induction false} BecomesCompleteIff(def: Definition, h: Hops, step: Step, id: HopId)
    requires ValidDefinition(def) && Shaped(def, h) && AtMostOneDispatched(h) && Enabled(def, h, step) && id in h
    ensures !Is(h, id, Complete) && Is(Take(def, h, step), id, Complete) <==> CompletesHop(def, h, step, id)
  {
    if step.Report? {
      ReportStatuses(def, h, step, id);
      if step.follow.Some? {
        FollowIsStartable(def, h, step);
      }
    }
  }

  /** A step turns a hop failed exactly if it ends a failed session of it, trips its breaker, or enforces its silent end. */
  lemma {:induction false} BecomesFailedIff(def: Definition, h: Hops, step: Step, id: HopId)
    requires ValidDefinition(def) && Shaped(def, h) && AtMostOneDispatched(h) && Enabled(def, h, step) && id in h
    ensures !Is(h, id, Failed) && Is(Take(def, h, step), id, Failed) <==> FailsHop(def, h, step, id)
  {
    if step.Report? {
      ReportStatuses(def, h, step, id);
      if step.follow.Some? {
        FollowIsStartable(def, h, step);
      }
    }
  }

  /** Some step of the run completes the hop. */
  ghost predicate EverCompletes(def: Definition, h: Hops, steps: seq<Step>, id: HopId)
    requires ValidDefinition(def) && Shaped(def, h) && Legal(def, h, steps)
    decreases |steps|
  {
    steps != [] &&
    (CompletesHop(def, h, steps[0], id)
     || (TakeKeepsShape(def, h, steps[0]); EverCompletes(def, Take(def, h, steps[0]), steps[1..], id)))
  }

  ghost predicate EverFails(def: Definition, h: Hops, steps: seq<Step>, id: HopId)
    requires ValidDefinition(def) && Shaped(def, h) && Legal(def, h, steps)
    decreases |steps|
  {
    steps != [] &&
    (FailsHop(def, h, steps[0], id)
     || (TakeKeepsShape(def, h, steps[0]); EverFails(def, Take(def, h, steps[0]), steps[1..], id)))
  }

  lemma {:induction false} FinalHasCause(def: Definition, h: Hops, steps: seq<Step>, id: HopId)
    requires ValidDefinition(def) && Shaped(def, h) && AtMostOneDispatched(h) && Legal(def, h, steps) && id in h
    ensures Is(Final(def, h, steps), id, Complete) ==> Is(h, id, Complete) || EverCompletes(def, h, steps, id)
    ensures Is(Final(def, h, steps), id, Failed) ==> Is(h, id, Failed) || EverFails(def, h, steps, id)
    decreases |steps|
  {
    if steps != [] {
      TakeKeepsShape(def, h, steps[0]);
      StepKeepsOneDispatched(def, h, steps[0]);
      BecomesCompleteIff(def, h, steps[0], id);
      BecomesFailedIff(def, h, steps[0], id);
      FinalHasCause(def, Take(def, h, steps[0]), steps[1..], id);
    }
  }

  /** In every run from the initial state, a complete hop had a session that succeeded, and a failed hop one that failed it. */
  lemma {:induction false} FinalStatusesHaveCauses(def: Definition, steps: seq<Step>, id: HopId)
    requires ValidDefinition(def) && Legal(def, InitialState(def), steps)
    ensures Is(Final(def, InitialState(def), steps), id, Complete) ==> EverCompletes(def, InitialState(def), steps, id)
    ensures Is(Final(def, InitialState(def), steps), id, Failed) ==> EverFails(def, InitialState(def), steps, id)
  {
    if id in InitialState(def) {
      InitiallyNoneDispatched(def);
      InitialStatus(def, FindHop(def, id).value);
      FinalHasCause(def, InitialState(def), steps, id);
    }
  }
}
