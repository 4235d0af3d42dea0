/** The task record that carries a workflow, and the handlers that update it. */
module DagHandlers {
  import opened Wrappers
  import opened Conditions
  import opened Workflow
  import opened DagSemantics
  import opened DagFacts
  import opened DagSteps
  import opened EvaluationLaws
  import opened StepLaws
  import DagEvaluator

  /** The workflow goes on without a human review and some hop was reported as ready. */
  ghost predicate FollowsUp(def: Definition, h: Hops, run: RunOutcome, notes: Option<Record>, task: TaskMeta, now: Timestamp)
    requires ValidDefinition(def) && Shaped(def, h) && FindDispatched(def, h).Some?
  {
    var hop := FindHop(def, FindDispatched(def, h).value).value;
    var event := ReportEvent(def, hop.id, run, notes);
    && !AllDone(Evaluate(def, h, event, task, now))
    && !(event.outcome.Completed? && !hop.autoAdvance)
    && ReportedList(def, h, event, task, now) != []
  }

  /** The first ready hop of a listing, in definition order. */
  function FirstReady(def: Definition, seen: Hops): (r: Option<HopId>)
    ensures r.Some? ==> r.value in Ids(def) && Is(seen, r.value, Ready)
    ensures r.None? ==> forall hop | hop in def :: !Is(seen, hop.id, Ready)
  {
    if def == [] then None
    else if Is(seen, def[0].id, Ready) then Some(def[0].id)
    else
      var r := FirstReady(def[1..], seen);
      assert forall hop :: hop in def <==> hop == def[0] || hop in def[1..];
      r
  }

  lemma {:induction false} FirstReadyIsFirst(def: Definition, seen: Hops, i: nat)
    requires i < |def| && Is(seen, def[i].id, Ready) && forall j | 0 <= j < i :: !Is(seen, def[j].id, Ready)
    ensures FirstReady(def, seen) == Some(def[i].id)
  {
    if i > 0 {
      FirstReadyIsFirst(def[1..], seen, i - 1);
    }
  }

  /** The hop dispatched after a result is the first of those reported. */
  ghost predicate FollowsFirst(def: Definition, h: Hops, step: Step)
    requires ValidDefinition(def) && Shaped(def, h) && FindDispatched(def, h).Some? && step.Report?
  {
    var event := ReportEvent(def, FindDispatched(def, h).value, step.run, step.result);
    var reported := ReportedList(def, h, event, step.task, step.now);
    step.follow.Some? ==> reported != [] && step.follow.value.hopId == reported[0]
  }

  /** The report step took the workflow from `h` to `h'`, with a follow-up dispatch exactly when there was one to make. */
  ghost predicate EndedBy(def: Definition, h: Hops, h': Hops, step: Step, spawned: Option<string>)
    requires ValidDefinition(def) && Shaped(def, h) && FindDispatched(def, h).Some? && step.Report?
  {
    && Enabled(def, h, step) && h' == Take(def, h, step) && FollowsFirst(def, h, step)
    && (step.follow.Some? <==> spawned.Some? && FollowsUp(def, h, step.run, step.result, step.task, step.now))
  }

  /** The follow-up dispatch is enabled: the first reported hop is a reported one. */
  lemma FirstIsReported(def: Definition, h: Hops, run: RunOutcome, notes: Option<Record>, task: TaskMeta, now: Timestamp, session: string)
    requires ValidDefinition(def) && Shaped(def, h) && FindDispatched(def, h).Some?
    requires var event := ReportEvent(def, FindDispatched(def, h).value, run, notes);
             ReportedList(def, h, event, task, now) != []
    ensures var event := ReportEvent(def, FindDispatched(def, h).value, run, notes);
            var first := ReportedList(def, h, event, task, now)[0];
            first in Ids(def) && Enabled(def, h, Report(run, notes, task, now, Some(Spawn(first, session))))
  {
    var event := ReportEvent(def, FindDispatched(def, h).value, run, notes);
    EvaluateKeepsShape(def, h, event, task, now);
    DagEvaluator.ReportedListFacts(def, h, event, task, now);
    var first := ReportedList(def, h, event, task, now)[0];
    assert first in ReportedList(def, h, event, task, now);
    FollowIsStartable(def, h, Report(run, notes, task, now, Some(Spawn(first, session))));
  }

  /** The hop is marked escalated and goes to the other role: in flight if a session was spawned, else ready without a session. */
  predicate EscalatedTo(h: Hops, id: HopId, role: Option<string>, spawned: Option<string>, now: Timestamp, h': Hops) {
    && id in h && role.Some?
    && h' == h[id := h[id].(status := if spawned.Some? then Dispatched else Ready, startedAt := if spawned.Some? then Some(now) else None,
                            agent := role, correlationId := spawned, escalated := true)]
  }

  /** The hop's session is running: the state a spawned session leaves, and nothing else changed. */
  predicate Launched(h: Hops, hop: Hop, session: string, now: Timestamp, h': Hops) {
    && hop.id in h
    && h' == h[hop.id := h[hop.id].(status := Dispatched, startedAt := Some(now), agent := Some(hop.role), correlationId := Some(session))]
  }

  /**
   * A session of `hop` has ended; after it, if some hop is reported, no human review is due and a session could be spawned, the
   * first of those reported has been dispatched, and otherwise nothing more has happened.
   */
  ghost predicate EndedAndFollowed(def: Definition, h: Hops, run: RunOutcome, notes: Option<Record>, h': Hops, task: TaskMeta,
                                   now: Timestamp, spawned: Option<string>)
    requires Shaped(def, h) && FindDispatched(def, h).Some?
  {
    var hop := FindHop(def, FindDispatched(def, h).value).value;
    exists between, list ::
      && SessionEnds(def, h, hop, run, notes, between, task, now)
      && ReadyHopsAre(def, h, AsksToReject(run, hop), between, list)
      && if list != [] && !(Succeeds(run, hop) && !hop.autoAdvance) && spawned.Some? then
           exists x | x in def :: x.id == list[0] && Launched(between, x, spawned.value, now, h')
         else
           h' == between
  }

  lemma ReportFollows(def: Definition, h: Hops, step: Step, spawned: Option<string>, readyHops: seq<HopId>)
    requires ValidDefinition(def) && Shaped(def, h) && FindDispatched(def, h).Some? && step.Report? && Enabled(def, h, step)
    requires var hop := FindHop(def, FindDispatched(def, h).value).value;
             && ReadyHopsAre(def, h, AsksToReject(step.run, hop), AfterReport(def, h, step), readyHops)
             && step.follow == if readyHops != [] && !(Succeeds(step.run, hop) && !hop.autoAdvance) && spawned.Some?
                               then Some(Spawn(readyHops[0], spawned.value)) else None
    ensures EndedAndFollowed(def, h, step.run, step.result, Take(def, h, step), step.task, step.now, spawned)
  {
    var between := AfterReport(def, h, step);
    ReportLaw(def, h, FindHop(def, FindDispatched(def, h).value).value, step.run, step.result, step.task, step.now);
    if step.follow.Some? {
      ReportedIsDefined(def, h, step);
      var x := FindHop(def, readyHops[0]).value;
      assert x in def && x.id == readyHops[0] && Launched(between, x, spawned.value, step.now, Take(def, h, step));
    } else {
      assert Take(def, h, step) == between;
    }
  }

  /** One report step, with a follow-up dispatch exactly when there was one to make. */
  ghost predicate SessionEnded(def: Definition, h: Hops, run: RunOutcome, notes: Option<Record>, h': Hops, task: TaskMeta,
                               now: Timestamp, spawned: Option<string>)
    requires ValidDefinition(def) && Shaped(def, h) && FindDispatched(def, h).Some?
  {
    && (exists follow: Option<Spawn> :: EndedBy(def, h, h', Report(run, notes, task, now, follow), spawned))
    && EndedAndFollowed(def, h, run, notes, h', task, now, spawned)
  }

  /** What evaluating the end of the session in flight leaves and returns. */
  ghost predicate HopCompleted(def: Definition, h: Hops, run: RunOutcome, notes: Option<Record>, task: TaskMeta, now: Timestamp,
                               h': Hops, readyHops: seq<HopId>, dagComplete: bool, reviewRequired: bool)
    requires ValidDefinition(def) && Shaped(def, h) && FindDispatched(def, h).Some?
  {
    var hop := FindHop(def, FindDispatched(def, h).value).value;
    && h' == Take(def, h, Report(run, notes, task, now, None))
    && SessionEnds(def, h, hop, run, notes, h', task, now)
    && readyHops == ReportedList(def, h, ReportEvent(def, hop.id, run, notes), task, now)
    && ReadyHopsAre(def, h, AsksToReject(run, hop), h', readyHops)
    && (dagComplete <==> forall id | id in h' :: h'[id].status == Complete || h'[id].status == Failed || h'[id].status == Skipped)
    && (reviewRequired <==> Succeeds(run, hop) && !hop.autoAdvance)
  }

  lemma OutcomeLaw(run: RunOutcome, hop: Hop)
    ensures MapRunResult(run, hop.canReject) == if AsksToReject(run, hop) then Rejected else if run == OtherOutcome then Failing else Completed
    ensures MapRunResult(run, hop.canReject).Completed? <==> Succeeds(run, hop)
  {
  }

  lemma CompletionLaw(def: Definition, h: Hops, run: RunOutcome, notes: Option<Record>, task: TaskMeta, now: Timestamp)
    requires ValidDefinition(def) && Shaped(def, h) && FindDispatched(def, h).Some?
    ensures var hop := FindHop(def, FindDispatched(def, h).value).value;
            var outcome := MapRunResult(run, hop.canReject);
            var h' := Take(def, h, Report(run, notes, task, now, None));
            && h' == Evaluate(def, h, HopEvent(hop.id, outcome, notes), task, now)
            && HopCompleted(def, h, run, notes, task, now, h', ReportedList(def, h, HopEvent(hop.id, outcome, notes), task, now),
                            AllDone(h'), outcome.Completed? && !hop.autoAdvance)
  {
    var hop := FindHop(def, FindDispatched(def, h).value).value;
    OutcomeLaw(run, hop);
    ReportLaw(def, h, hop, run, notes, task, now);
    ReportsLaw(def, h, HopEvent(hop.id, MapRunResult(run, hop.canReject), notes), task, now);
    AllDoneIs(Take(def, h, Report(run, notes, task, now, None)));
  }

  lemma SessionLaw(def: Definition, h: Hops, step: Step, spawned: Option<string>, readyHops: seq<HopId>, dagComplete: bool,
                   reviewRequired: bool)
    requires ValidDefinition(def) && Shaped(def, h) && FindDispatched(def, h).Some? && step.Report?
    requires HopCompleted(def, h, step.run, step.result, step.task, step.now,
                          Take(def, h, Report(step.run, step.result, step.task, step.now, None)), readyHops, dagComplete, reviewRequired)
    requires step.follow == if !dagComplete && !reviewRequired && readyHops != [] && spawned.Some?
                            then Some(Spawn(readyHops[0], spawned.value)) else None
    ensures Enabled(def, h, step) && SessionEnded(def, h, step.run, step.result, Take(def, h, step), step.task, step.now, spawned)
  {
    if step.follow.Some? {
      FirstIsReported(def, h, step.run, step.result, step.task, step.now, spawned.value);
    }
    AllDoneIs(AfterReport(def, h, step));
    if readyHops != [] {
      ReportedNotDone(def, h, AsksToReject(step.run, FindHop(def, FindDispatched(def, h).value).value), AfterReport(def, h, step), readyHops);
    }
    assert FollowsUp(def, h, step.run, step.result, step.task, step.now) <==> !dagComplete && !reviewRequired && readyHops != [];
    assert EndedBy(def, h, Take(def, h, step), step, spawned);
    ReportFollows(def, h, step, spawned, readyHops);
  }

  /** While some hop is reported the workflow is not over. */
  lemma ReportedNotDone(def: Definition, h: Hops, rejection: bool, h': Hops, readyHops: seq<HopId>)
    requires ReadyHopsAre(def, h, rejection, h', readyHops) && readyHops != []
    ensures !AllDone(h')
  {
    assert readyHops[0] in readyHops;
    assert !Terminal(h', readyHops[0]);
  }

  lemma AllDoneIs(h: Hops)
    ensures AllDone(h) <==> forall id | id in h :: h[id].status == Complete || h[id].status == Failed || h[id].status == Skipped
  {
    assert forall id | id in h :: Terminal(h, id) <==> h[id].status == Complete || h[id].status == Failed || h[id].status == Skipped;
  }

  class TaskWorkflow {
    const def: Definition
    var state: WorkflowState

    ghost predicate Valid()
      reads this
    {
      ValidDefinition(def) && Shaped(def, state.hops)
    }

    constructor (def: Definition, state: WorkflowState)
      requires ValidDefinition(def) && state.hops == InitialState(def)
      ensures Valid() && this.def == def && this.state == state
    {
      this.def := def;
      this.state := state;
    }

    /** `handleDAGHopCompletion`: one report step, or nothing when no hop is in flight. */
    method HandleHopCompletion(run: RunOutcome, notes: Option<Record>, task: TaskMeta, now: Timestamp)
      returns (readyHops: seq<HopId>, dagComplete: bool, reviewRequired: bool)
      requires Valid()
      modifies this
      ensures Valid()
      ensures FindDispatched(def, old(state.hops)).None? ==>
                state == old(state) && readyHops == [] && !dagComplete && !reviewRequired
      ensures FindDispatched(def, old(state.hops)).Some? ==>
                HopCompleted(def, old(state.hops), run, notes, task, now, state.hops, readyHops, dagComplete, reviewRequired)
    {
      var hopId := FindDispatched(def, state.hops);
      if hopId.None? {
        return [], false, false;
      }
      var hopDef := FindHop(def, hopId.value).value;
      var event := HopEvent(hopId.value, MapRunResult(run, hopDef.canReject), notes);
      EvaluateKeepsShape(def, state.hops, event, task, now);
      CompletionLaw(def, state.hops, run, notes, task, now);
      var r := DagEvaluator.EvaluateDAG(def, state, event, task, now);
      state := r.state;
      return r.readyHops, r.taskStatus.Some?, event.outcome.Completed? && !hopDef.autoAdvance;
    }

    /** `dispatchDAGHop`: the hop is in flight only after its session was spawned. */
    method DispatchHop(id: HopId, spawned: Option<string>, now: Timestamp) returns (ok: bool)
      requires Valid()
      modifies this
      ensures Valid()
      ensures ok <==> id in Ids(def) && spawned.Some?
      ensures !ok ==> state == old(state)
      ensures ok ==> Launched(old(state.hops), FindHop(def, id).value, spawned.value, now, state.hops)
      ensures ok ==> state == old(state).(hops := old(state.hops)[id := DispatchedState(old(state.hops)[id], FindHop(def, id).value, spawned.value, now)])
    {
      var hop := FindHop(def, id);
      if hop.None? || spawned.None? {
        return false;
      }
      state := state.(hops := state.hops[id := DispatchedState(state.hops[id], hop.value, spawned.value, now)]);
      return true;
    }

    /** One workflow's turn in a scheduler poll: pick a ready hop from the listed snapshot, re-check, dispatch. */
    method Poll(seen: Hops, spawned: Option<string>, now: Timestamp) returns (ok: bool)
      requires Valid()
      modifies this
      ensures Valid()
      ensures ok <==> NoneDispatched(seen) && NoneDispatched(old(state.hops)) && spawned.Some? && FirstReady(def, seen).Some?
      ensures !ok ==> state == old(state)
      ensures ok ==>
                var step := Dispatch(FirstReady(def, seen).value, seen, spawned.GetOr(""), now);
                Enabled(def, old(state.hops), step) && state.hops == Take(def, old(state.hops), step)
      ensures ok ==> Launched(old(state.hops), FindHop(def, FirstReady(def, seen).value).value, spawned.value, now, state.hops)
    {
      if exists id | id in seen :: Is(seen, id, Dispatched) {
        return false;
      }
      var pick: Option<HopId> := None;
      for i := 0 to |def|
        invariant pick.Some? ==> FirstReady(def, seen) == pick
        invariant pick.None? ==> FirstReady(def, seen) == FirstReady(def[i..], seen)
      {
        assert def[i..][0] == def[i] && def[i..][1..] == def[i + 1..];
        if pick.None? && Is(seen, def[i].id, Ready) {
          pick := Some(def[i].id);
        }
      }
      assert pick == FirstReady(def, seen);
      if pick.None? || exists id | id in state.hops :: Is(state.hops, id, Dispatched) {
        return false;
      }
      ok := DispatchHop(pick.value, spawned, now);
      ghost var step := Dispatch(pick.value, seen, spawned.GetOr(""), now);
      assert ok ==> Enabled(def, old(state.hops), step) && state.hops == Take(def, old(state.hops), step);
    }

    /** What the router does when a session ends: evaluate the result, then dispatch the first reported hop at once. */
    method SessionEnd(run: RunOutcome, notes: Option<Record>, task: TaskMeta, now: Timestamp, spawned: Option<string>)
      requires Valid()
      modifies this
      ensures Valid()
      ensures FindDispatched(def, old(state.hops)).None? ==> state == old(state)
      ensures FindDispatched(def, old(state.hops)).Some? ==>
                SessionEnded(def, old(state.hops), run, notes, state.hops, task, now, spawned)
    {
      ghost var h := state.hops;
      var readyHops, dagComplete, reviewRequired := HandleHopCompletion(run, notes, task, now);
      var ok := false;
      if !dagComplete && !reviewRequired && |readyHops| > 0 {
        FirstIsReported(def, h, run, notes, task, now, spawned.GetOr(""));
        ok := DispatchHop(readyHops[0], spawned, now);
      }
      if FindDispatched(def, h).Some? {
        ghost var follow := if ok then Some(Spawn(readyHops[0], spawned.value)) else None;
        SessionLaw(def, h, Report(run, notes, task, now, follow), spawned, readyHops, dagComplete, reviewRequired);
      }
    }

    /** The enforcement callback: a session that ends without a report fails its hop, without evaluating the workflow. */
    method EnforceCompletion(id: HopId, deadletter: bool, now: Timestamp)
      requires Valid()
      modifies this
      ensures Valid()
      ensures Is(old(state.hops), id, Dispatched) && !deadletter ==>
                && state.hops == Take(def, old(state.hops), Enforce(id, now))
                && state.hops == old(state.hops)[id := old(state.hops)[id].(status := Failed, completedAt := Some(now))]
      ensures !Is(old(state.hops), id, Dispatched) || deadletter ==> state == old(state)
    {
      if id !in state.hops || state.hops[id].status != Dispatched {
        return;
      }
      if !deadletter {
        state := state.(hops := state.hops[id := state.hops[id].(status := Failed, completedAt := Some(now))]);
      }
    }

    /** `escalateHopTimeout` for a hop in flight: at most one escalation, and only towards a configured role. */
    method EscalateTimeout(id: HopId, dryRun: bool, spawned: Option<string>, now: Timestamp) returns (escalated: bool)
      requires Valid() && Is(state.hops, id, Dispatched)
      modifies this
      ensures Valid()
      ensures escalated <==> !dryRun && Enabled(def, old(state.hops), Escalate(id, spawned, now))
      ensures escalated ==> state.hops == Take(def, old(state.hops), Escalate(id, spawned, now))
      ensures escalated ==> EscalatedTo(old(state.hops), id, FindHop(def, id).value.escalateTo, spawned, now, state.hops)
      ensures !escalated ==> state == old(state)
    {
      var hop := FindHop(def, id).value;
      var s := state.hops[id];
      if s.escalated || hop.escalateTo.GetOr("") == "" || dryRun {
        return false;
      }
      state := state.(hops := state.hops[id := EscalatedState(s, hop.escalateTo.value, spawned, now)]);
      return true;
    }
  }
}
