/** The workflow as a transition system: what the scheduler, the agents and the timers can do to the hop states. */
module DagSteps {
  import opened Wrappers
  import opened Conditions
  import opened Workflow
  import opened DagSemantics
  import opened DagFacts

  datatype RunOutcome = Done | NeedsReview | OtherOutcome

  datatype Spawn = Spawn(hopId: HopId, session: string)

  datatype Step =
    | Dispatch(id: HopId, seen: Hops, session: string, now: Timestamp)
    | Report(run: RunOutcome, result: Option<Record>, task: TaskMeta, now: Timestamp, follow: Option<Spawn>)
    | Enforce(id: HopId, now: Timestamp)
    | Escalate(id: HopId, spawned: Option<string>, now: Timestamp)

  predicate NoneDispatched(h: Hops) {
    forall id | id in h :: !Is(h, id, Dispatched)
  }

  /** `findDispatchedHop`: entries are kept in definition order. */
  function FindDispatched(def: Definition, h: Hops): (r: Option<HopId>)
    ensures r.Some? ==> r.value in Ids(def) && Is(h, r.value, Dispatched)
    ensures r.None? ==> forall hop | hop in def :: !Is(h, hop.id, Dispatched)
  {
    if def == [] then None
    else if Is(h, def[0].id, Dispatched) then Some(def[0].id)
    else
      var r := FindDispatched(def[1..], h);
      assert forall hop :: hop in def <==> hop == def[0] || hop in def[1..];
      r
  }

  /** `mapRunResultToHopEvent`: a review request from a hop that may not reject counts as completion. */
  function MapRunResult(run: RunOutcome, canReject: bool): Outcome {
    match run
    case Done => Completed
    case NeedsReview => if canReject then Rejected else Completed
    case OtherOutcome => Failing
  }

  function ReportEvent(def: Definition, id: HopId, run: RunOutcome, result: Option<Record>): HopEvent
    requires id in Ids(def)
  {
    HopEvent(id, MapRunResult(run, FindHop(def, id).value.canReject), result)
  }

  function DispatchedState(s: HopState, hop: Hop, session: string, now: Timestamp): HopState {
    s.(status := Dispatched, startedAt := Some(now), agent := Some(hop.role), correlationId := Some(session))
  }

  function EscalatedState(s: HopState, role: string, spawned: Option<string>, now: Timestamp): HopState {
    if spawned.Some? then
      s.(status := Dispatched, startedAt := Some(now), agent := Some(role), correlationId := spawned, escalated := true)
    else
      s.(status := Ready, startedAt := None, agent := Some(role), correlationId := None, escalated := true)
  }

  /** Hop states after a run result has been evaluated and before any follow-up dispatch. */
  ghost function AfterReport(def: Definition, h: Hops, step: Step): Hops
    requires ValidDefinition(def) && Shaped(def, h) && step.Report? && FindDispatched(def, h).Some?
  {
    Evaluate(def, h, ReportEvent(def, FindDispatched(def, h).value, step.run, step.result), step.task, step.now)
  }

  /**
   * When each step can happen. The scheduler picks a hop that was ready in the snapshot `seen` it listed at the start
   * of the poll, and checks the current state only for a dispatched hop. After a run result, one of the reported
   * hops may be dispatched at once. Escalation needs a target role and happens once per hop.
   */
  ghost predicate Enabled(def: Definition, h: Hops, step: Step)
    requires ValidDefinition(def) && Shaped(def, h)
  {
    match step
    case Dispatch(id, seen, _, _) =>
      id in h && Is(seen, id, Ready) && NoneDispatched(seen) && NoneDispatched(h)
    case Report(run, result, task, now, follow) =>
      var id := FindDispatched(def, h);
      && id.Some?
      && (follow.Some? ==> Reported(def, h, ReportEvent(def, id.value, run, result), task, now, follow.value.hopId))
    case Enforce(id, _) => Is(h, id, Dispatched)
    case Escalate(id, _, _) => Is(h, id, Dispatched) && !h[id].escalated && FindHop(def, id).value.escalateTo.GetOr("") != ""
  }

  ghost function Take(def: Definition, h: Hops, step: Step): Hops
    requires ValidDefinition(def) && Shaped(def, h) && Enabled(def, h, step)
  {
    match step
    case Dispatch(id, _, session, now) => h[id := DispatchedState(h[id], FindHop(def, id).value, session, now)]
    case Report(_, _, _, now, follow) =>
      var h' := AfterReport(def, h, step);
      if follow.None? then h'
      else
        ReportedIsDefined(def, h, step);
        var id := follow.value.hopId;
        h'[id := DispatchedState(h'[id], FindHop(def, id).value, follow.value.session, now)]
    case Enforce(id, now) => h[id := h[id].(status := Failed, completedAt := Some(now))]
    case Escalate(id, spawned, now) =>
      h[id := EscalatedState(h[id], FindHop(def, id).value.escalateTo.value, spawned, now)]
  }

  lemma ReportedIsDefined(def: Definition, h: Hops, step: Step)
    requires ValidDefinition(def) && Shaped(def, h) && step.Report? && step.follow.Some? && Enabled(def, h, step)
    ensures Shaped(def, AfterReport(def, h, step)) && step.follow.value.hopId in Ids(def)
  {
    var event := ReportEvent(def, FindDispatched(def, h).value, step.run, step.result);
    EvaluateKeepsShape(def, h, event, step.task, step.now);
  }

  /** The hop dispatched right after a report is ready, or pending with its join met. */
  lemma FollowIsStartable(def: Definition, h: Hops, step: Step)
    requires ValidDefinition(def) && Shaped(def, h) && step.Report? && step.follow.Some? && Enabled(def, h, step)
    ensures var h' := AfterReport(def, h, step);
            var id := step.follow.value.hopId;
            && Shaped(def, h') && id in Ids(def)
            && (Is(h', id, Ready) || (Is(h', id, Pending) && JoinMet(h', FindHop(def, id).value)))
  {
    ReportedIsDefined(def, h, step);
    var event := ReportEvent(def, FindDispatched(def, h).value, step.run, step.result);
    var h' := AfterReport(def, h, step);
    var id := step.follow.value.hopId;
    if event.outcome.Rejected? {
      if !Is(h', id, Ready) {
        var x :| x in def && BecomesReady(h', x) && x.id == id;
        SameId(def, x, FindHop(def, id).value);
      }
    } else {
      assert id in ReadySet(def, AfterScan(def, h, event, step.task, step.now));
    }
  }

  lemma TakeKeepsShape(def: Definition, h: Hops, step: Step)
    requires ValidDefinition(def) && Shaped(def, h) && Enabled(def, h, step)
    ensures Shaped(def, Take(def, h, step))
  {
    if step.Report? {
      var event := ReportEvent(def, FindDispatched(def, h).value, step.run, step.result);
      EvaluateKeepsShape(def, h, event, step.task, step.now);
    }
  }

  /** `steps` can be taken one after the other from `h`. */
  ghost predicate Legal(def: Definition, h: Hops, steps: seq<Step>)
    requires ValidDefinition(def) && Shaped(def, h)
    decreases |steps|
  {
    steps == [] ||
    (Enabled(def, h, steps[0]) && (TakeKeepsShape(def, h, steps[0]); Legal(def, Take(def, h, steps[0]), steps[1..])))
  }

  ghost function Final(def: Definition, h: Hops, steps: seq<Step>): (h': Hops)
    requires ValidDefinition(def) && Shaped(def, h) && Legal(def, h, steps)
    ensures Shaped(def, h')
    decreases |steps|
  {
    if steps == [] then h else (TakeKeepsShape(def, h, steps[0]); Final(def, Take(def, h, steps[0]), steps[1..]))
  }

  /** Every listing a poll acts on is a state of this run: one of `past`, the current one, or one reached on the way. */
  ghost predicate Listed(def: Definition, past: seq<Hops>, h: Hops, steps: seq<Step>)
    requires ValidDefinition(def) && Shaped(def, h) && Legal(def, h, steps)
    decreases |steps|
  {
    steps == [] ||
    (&& (steps[0].Dispatch? ==> steps[0].seen in past + [h])
     && (TakeKeepsShape(def, h, steps[0]); Listed(def, past + [h], Take(def, h, steps[0]), steps[1..])))
  }

  /** The poll acts on a stale listing: the hop it dispatches is no longer ready. */
  predicate Stale(h: Hops, step: Step) {
    step.Dispatch? && !Is(h, step.id, Ready)
  }

  ghost function StaleDispatches(def: Definition, h: Hops, steps: seq<Step>): nat
    requires ValidDefinition(def) && Shaped(def, h) && Legal(def, h, steps)
    decreases |steps|
  {
    if steps == [] then 0
    else
      TakeKeepsShape(def, h, steps[0]);
      (if Stale(h, steps[0]) then 1 else 0) + StaleDispatches(def, Take(def, h, steps[0]), steps[1..])
  }

  /** A step in front of a run. */
  lemma Prepend(def: Definition, past: seq<Hops>, h: Hops, s: Step, rest: seq<Step>)
    requires ValidDefinition(def) && Shaped(def, h) && Enabled(def, h, s) && (s.Dispatch? ==> s.seen in past + [h])
    requires Shaped(def, Take(def, h, s)) && Legal(def, Take(def, h, s), rest)
    requires Listed(def, past + [h], Take(def, h, s), rest)
    ensures var steps := [s] + rest;
            && Legal(def, h, steps) && Listed(def, past, h, steps)
            && Final(def, h, steps) == Final(def, Take(def, h, s), rest)
            && StaleDispatches(def, h, steps) == (if Stale(h, s) then 1 else 0) + StaleDispatches(def, Take(def, h, s), rest)
  {
    assert ([s] + rest)[1..] == rest;
  }

  /** Every dispatch acts on a listing of the current state. */
  ghost predicate UpToDate(def: Definition, h: Hops, steps: seq<Step>)
    requires ValidDefinition(def) && Shaped(def, h) && Legal(def, h, steps)
    decreases |steps|
  {
    steps == [] ||
    (&& (steps[0].Dispatch? ==> steps[0].seen == h)
     && (TakeKeepsShape(def, h, steps[0]); UpToDate(def, Take(def, h, steps[0]), steps[1..])))
  }

  lemma {:induction false} UpToDateIsListed(def: Definition, past: seq<Hops>, h: Hops, steps: seq<Step>)
    requires ValidDefinition(def) && Shaped(def, h) && Legal(def, h, steps) && UpToDate(def, h, steps)
    ensures Listed(def, past, h, steps) && StaleDispatches(def, h, steps) == 0
    decreases |steps|
  {
    if steps != [] {
      TakeKeepsShape(def, h, steps[0]);
      UpToDateIsListed(def, past + [h], Take(def, h, steps[0]), steps[1..]);
    }
  }

  /** A step in front of a run on fresh listings. */
  lemma PrependFresh(def: Definition, h: Hops, s: Step, rest: seq<Step>)
    requires ValidDefinition(def) && Shaped(def, h) && Enabled(def, h, s) && (s.Dispatch? ==> s.seen == h)
    requires Shaped(def, Take(def, h, s)) && Legal(def, Take(def, h, s), rest) && UpToDate(def, Take(def, h, s), rest)
    ensures Legal(def, h, [s] + rest) && UpToDate(def, h, [s] + rest)
    ensures Final(def, h, [s] + rest) == Final(def, Take(def, h, s), rest)
  {
    assert ([s] + rest)[1..] == rest;
  }

  /** A run on fresh listings from `h` to `h'`. */
  ghost predicate FreshRun(def: Definition, h: Hops, steps: seq<Step>, h': Hops)
    requires ValidDefinition(def) && Shaped(def, h)
  {
    Legal(def, h, steps) && UpToDate(def, h, steps) && Final(def, h, steps) == h'
  }

  lemma FirstStep(def: Definition, h: Hops, steps: seq<Step>, h': Hops)
    requires ValidDefinition(def) && Shaped(def, h) && steps != [] && FreshRun(def, h, steps, h')
    ensures Enabled(def, h, steps[0]) && (steps[0].Dispatch? ==> steps[0].seen == h) && Shaped(def, Take(def, h, steps[0]))
    ensures FreshRun(def, Take(def, h, steps[0]), steps[1..], h')
  {
    TakeKeepsShape(def, h, steps[0]);
  }

  lemma PushStep(def: Definition, h: Hops, s: Step, rest: seq<Step>, h': Hops)
    requires ValidDefinition(def) && Shaped(def, h) && Enabled(def, h, s) && (s.Dispatch? ==> s.seen == h)
    requires Shaped(def, Take(def, h, s)) && FreshRun(def, Take(def, h, s), rest, h')
    ensures FreshRun(def, h, [s] + rest, h')
  {
    PrependFresh(def, h, s, rest);
  }

  lemma {:induction false} ConcatRuns(def: Definition, h: Hops, a: seq<Step>, h1: Hops, b: seq<Step>, h2: Hops)
    requires ValidDefinition(def) && Shaped(def, h) && Shaped(def, h1) && FreshRun(def, h, a, h1) && FreshRun(def, h1, b, h2)
    ensures FreshRun(def, h, a + b, h2)
    decreases |a|
  {
    if a == [] {
      assert a + b == b;
    } else {
      FirstStep(def, h, a, h1);
      ConcatRuns(def, Take(def, h, a[0]), a[1..], h1, b, h2);
      PushStep(def, h, a[0], a[1..] + b, h2);
      assert [a[0]] + (a[1..] + b) == a + b;
    }
  }

  /** One run after another. */
  lemma Concat(def: Definition, h: Hops, a: seq<Step>, b: seq<Step>)
    requires ValidDefinition(def) && Shaped(def, h) && Legal(def, h, a) && UpToDate(def, h, a)
    requires Legal(def, Final(def, h, a), b) && UpToDate(def, Final(def, h, a), b)
    ensures Legal(def, h, a + b) && UpToDate(def, h, a + b)
    ensures Final(def, h, a + b) == Final(def, Final(def, h, a), b)
  {
    ConcatRuns(def, h, a, Final(def, h, a), b, Final(def, Final(def, h, a), b));
  }

  /** A run of a dispatch on a fresh listing and a result. */
  lemma DispatchAndReport(def: Definition, h: Hops, s: Step, t: Step)
    requires ValidDefinition(def) && Shaped(def, h) && s.Dispatch? && s.seen == h && Enabled(def, h, s)
    requires Shaped(def, Take(def, h, s)) && t.Report? && Enabled(def, Take(def, h, s), t)
    ensures var steps := [s, t];
            && Legal(def, h, steps) && UpToDate(def, h, steps) && Final(def, h, steps) == Take(def, Take(def, h, s), t)
  {
    var h' := Take(def, h, s);
    TakeKeepsShape(def, h', t);
    assert [t] + [] == [t] && [s] + [t] == [s, t];
    PrependFresh(def, h', t, []);
    PrependFresh(def, h, s, [t]);
  }

  // ----- At most one dispatched hop -----

  ghost predicate AtMostOneDispatched(h: Hops) {
    forall a, b | Is(h, a, Dispatched) && Is(h, b, Dispatched) :: a == b
  }

  lemma DispatchedIsFound(def: Definition, h: Hops, id: HopId)
    requires Shaped(def, h) && AtMostOneDispatched(h)
    ensures Is(h, id, Dispatched) <==> FindDispatched(def, h) == Some(id)
  {
    if Is(h, id, Dispatched) {
      var hop := FindHop(def, id).value;
      assert FindDispatched(def, h).Some?;
    }
  }

  lemma InitiallyNoneDispatched(def: Definition)
    requires UniqueIds(def)
    ensures NoneDispatched(InitialState(def))
  {
    forall id | id in InitialState(def)
      ensures !Is(InitialState(def), id, Dispatched)
    {
      InitialStatus(def, FindHop(def, id).value);
    }
  }

  /** Dispatching a ready hop on a fresh listing, with nothing in flight. */
  lemma Launch(def: Definition, h: Hops, id: HopId)
    requires ValidDefinition(def) && Shaped(def, h) && NoneDispatched(h) && Is(h, id, Ready)
    ensures var s := Dispatch(id, h, "", 0);
            && Enabled(def, h, s)
            && var h' := Take(def, h, s);
               && Shaped(def, h') && AtMostOneDispatched(h') && FindDispatched(def, h') == Some(id) && Is(h', id, Dispatched)
               && h'[id].rejectionCount == h[id].rejectionCount
               && forall x | x in h && x != id :: h'[x] == h[x]
  {
    DispatchedIsFound(def, Take(def, h, Dispatch(id, h, "", 0)), id);
  }

  lemma NormalEndsFlight(def: Definition, h: Hops, event: HopEvent, task: TaskMeta, now: Timestamp)
    requires AtMostOneDispatched(h) && Is(h, event.hopId, Dispatched) && !event.outcome.Rejected?
    ensures NoneDispatched(EvaluateNormal(def, h, event, task, now))
  {
    NormalEffect(def, h, event, task, now);
    var h' := EvaluateNormal(def, h, event, task, now);
    forall id | id in h'
      ensures !Is(h', id, Dispatched)
    {
      if id != event.hopId {
        assert !Is(h, id, Dispatched);
      }
    }
  }

  lemma RejectionEndsFlight(def: Definition, h: Hops, rejected: Hop, now: Timestamp)
    requires ValidDefinition(def) && Shaped(def, h) && rejected in def
    requires AtMostOneDispatched(h) && Is(h, rejected.id, Dispatched)
    ensures NoneDispatched(EvaluateRejection(def, h, rejected, now))
  {
    if CountAfter(h, rejected.id) >= DEFAULT_MAX_REJECTIONS {
      BreakerEffect(def, h, rejected, now);
    }
    var h' := EvaluateRejection(def, h, rejected, now);
    forall id | id in h'
      ensures !Is(h', id, Dispatched)
    {
      if id != rejected.id {
        assert !Is(h, id, Dispatched);
      }
    }
  }

  /** An evaluation of the dispatched hop's event dispatches nothing and takes that hop out of flight. */
  lemma EvaluateEndsFlight(def: Definition, h: Hops, event: HopEvent, task: TaskMeta, now: Timestamp)
    requires ValidDefinition(def) && Shaped(def, h) && AtMostOneDispatched(h) && Is(h, event.hopId, Dispatched)
    ensures NoneDispatched(Evaluate(def, h, event, task, now))
  {
    if event.outcome.Rejected? {
      RejectionEndsFlight(def, h, FindHop(def, event.hopId).value, now);
    } else {
      NormalEndsFlight(def, h, event, task, now);
    }
  }

  lemma StepKeepsOneDispatched(def: Definition, h: Hops, step: Step)
    requires ValidDefinition(def) && Shaped(def, h) && Enabled(def, h, step) && AtMostOneDispatched(h)
    ensures AtMostOneDispatched(Take(def, h, step))
  {
    if step.Report? {
      var event := ReportEvent(def, FindDispatched(def, h).value, step.run, step.result);
      EvaluateEndsFlight(def, h, event, step.task, step.now);
      assert NoneDispatched(AfterReport(def, h, step));
    }
    var h' := Take(def, h, step);
    forall a, b | Is(h', a, Dispatched) && Is(h', b, Dispatched)
      ensures a == b
    {
      assert step.Report? || ((a == step.id || Is(h, a, Dispatched)) && (b == step.id || Is(h, b, Dispatched)));
    }
  }

  /** However stale the scheduler's snapshots are, no run ever has two hops in flight. */
  lemma {:induction false} OneHopInFlight(def: Definition, h: Hops, steps: seq<Step>)
    requires ValidDefinition(def) && Shaped(def, h) && AtMostOneDispatched(h) && Legal(def, h, steps)
    ensures AtMostOneDispatched(Final(def, h, steps))
    decreases |steps|
  {
    if steps != [] {
      TakeKeepsShape(def, h, steps[0]);
      StepKeepsOneDispatched(def, h, steps[0]);
      OneHopInFlight(def, Take(def, h, steps[0]), steps[1..]);
    }
  }
}
