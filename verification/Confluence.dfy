/** Without conditions and rejections, the order in which hops are dispatched and finish does not matter. */
module Confluence {
  import opened Wrappers
  import opened Conditions
  import opened Workflow
  import opened DagSemantics
  import opened DagFacts
  import opened DagSteps

  /** Whether each hop will complete (true) or fail (false) once it runs. */
  type Outcomes = map<HopId, bool>

  function RunStatus(outcomes: Outcomes, id: HopId): Status
    requires id in outcomes
  {
    if outcomes[id] then Complete else Failed
  }

  /**
   * The final status of a hop, given those of its predecessors: cut off it is skipped, with its join met it runs,
   * otherwise it is left pending.
   */
  function Verdict(hop: Hop, end: map<HopId, Status>, run: Status): Status
    requires forall d | d in hop.dependsOn :: d in end
  {
    if Root(hop) then run
    else if forall d | d in hop.dependsOn :: end[d] == Failed || end[d] == Skipped then Skipped
    else if hop.joinType == Any then
      if exists d | d in hop.dependsOn :: end[d] == Complete then run else Pending
    else if forall d | d in hop.dependsOn :: end[d] == Complete || end[d] == Skipped then run
    else Pending
  }

  /** `end` gives every hop the verdict of its predecessors. */
  ghost predicate Denotes(def: Definition, outcomes: Outcomes, end: map<HopId, Status>)
    requires ValidDefinition(def) && Ids(def) <= outcomes.Keys
  {
    && end.Keys == Ids(def)
    && forall hop | hop in def :: end[hop.id] == Verdict(hop, end, RunStatus(outcomes, hop.id))
  }

  /** A workflow without conditions, an outcome for every hop, and the denotation of the two. */
  ghost predicate Scenario(def: Definition, outcomes: Outcomes, end: map<HopId, Status>) {
    ValidDefinition(def) && Plain(def) && Ids(def) <= outcomes.Keys && Denotes(def, outcomes, end)
  }

  ghost function Denote(def: Definition, rank: map<HopId, nat>, outcomes: Outcomes, id: HopId): Status
    requires ValidDefinition(def) && Ranked(def, rank) && Ids(def) <= outcomes.Keys && id in Ids(def)
    decreases rank[id]
  {
    var hop := FindHop(def, id).value;
    Verdict(hop, map d | d in hop.dependsOn :: Denote(def, rank, outcomes, d), RunStatus(outcomes, id))
  }

  lemma DenoteIsVerdict(def: Definition, rank: map<HopId, nat>, outcomes: Outcomes, hop: Hop, end: map<HopId, Status>)
    requires ValidDefinition(def) && Ranked(def, rank) && Ids(def) <= outcomes.Keys && hop in def
    requires forall d | d in hop.dependsOn :: d in end && end[d] == Denote(def, rank, outcomes, d)
    ensures Denote(def, rank, outcomes, hop.id) == Verdict(hop, end, RunStatus(outcomes, hop.id))
  {
    FindHopIs(def, hop);
    VerdictReadsPredecessors(hop, end, map d | d in hop.dependsOn :: Denote(def, rank, outcomes, d), RunStatus(outcomes, hop.id));
  }

  /** An acyclic workflow has a denotation. */
  lemma DenotationExists(def: Definition, rank: map<HopId, nat>, outcomes: Outcomes) returns (end: map<HopId, Status>)
    requires ValidDefinition(def) && Ranked(def, rank) && Ids(def) <= outcomes.Keys
    ensures Denotes(def, outcomes, end)
  {
    end := map id | id in Ids(def) :: Denote(def, rank, outcomes, id);
    forall hop | hop in def
      ensures end[hop.id] == Verdict(hop, end, RunStatus(outcomes, hop.id))
    {
      DenoteIsVerdict(def, rank, outcomes, hop, end);
    }
  }

  lemma VerdictReadsPredecessors(hop: Hop, end: map<HopId, Status>, end': map<HopId, Status>, run: Status)
    requires forall d | d in hop.dependsOn :: d in end && d in end' && end[d] == end'[d]
    ensures Verdict(hop, end, run) == Verdict(hop, end', run)
  {
  }

  /** What a state may say about a hop whose final status is `s`. */
  predicate Consistent(current: Status, s: Status, outcomes: Outcomes, id: HopId)
    requires id in outcomes
  {
    match current
    case Pending => true
    case Ready => s == RunStatus(outcomes, id)
    case Dispatched => s == RunStatus(outcomes, id)
    case _ => s == current
  }

  ghost predicate Agrees(def: Definition, outcomes: Outcomes, end: map<HopId, Status>, h: Hops)
    requires Scenario(def, outcomes, end)
  {
    forall hop | hop in def && hop.id in h :: Consistent(h[hop.id].status, end[hop.id], outcomes, hop.id)
  }

  /** No pending hop has its join met, and none has only failed and skipped predecessors. */
  ghost predicate Settled(def: Definition, h: Hops) {
    forall hop | hop in def && Is(h, hop.id, Pending) :: !JoinMet(h, hop) && !CutOff(h, hop, {})
  }

  /** Run results follow the outcomes, and no agent rejects or vanishes. */
  ghost predicate Follows(def: Definition, outcomes: Outcomes, h: Hops, step: Step)
    requires ValidDefinition(def) && Shaped(def, h) && Ids(def) <= outcomes.Keys && Enabled(def, h, step)
  {
    match step
    case Dispatch(_, _, _, _) => true
    case Report(run, result, _, _, _) =>
      var id := FindDispatched(def, h).value;
      ReportEvent(def, id, run, result).outcome == if outcomes[id] then Completed else Failing
    case Enforce(_, _) => false
    case Escalate(_, _, _) => true
  }

  ghost predicate FollowsAll(def: Definition, outcomes: Outcomes, h: Hops, steps: seq<Step>)
    requires ValidDefinition(def) && Shaped(def, h) && Ids(def) <= outcomes.Keys && Legal(def, h, steps)
    decreases |steps|
  {
    steps == [] ||
    (&& Follows(def, outcomes, h, steps[0])
     && (TakeKeepsShape(def, h, steps[0]); FollowsAll(def, outcomes, Take(def, h, steps[0]), steps[1..])))
  }

  // ----- One evaluation -----

  /** The pending hops whose final status is "skipped" form a closed set. */
  lemma SkippedAreClosed(def: Definition, outcomes: Outcomes, end: map<HopId, Status>, h: Hops, start: HopId)
    requires Scenario(def, outcomes, end) && Shaped(def, h) && Agrees(def, outcomes, end, h)
    ensures forall id | id in CascadeSet(def, h, start) :: id in Ids(def) && end[id] == Skipped
  {
    var T := set hop | hop in def && end[hop.id] == Skipped :: hop.id;
    forall hop | hop in def && Is(h, hop.id, Pending) && Touched(hop, start, T) && CutOff(h, hop, T)
      ensures hop.id in T
    {
      FindHopIs(def, hop);
      forall d | d in hop.dependsOn
        ensures end[d] in {Failed, Skipped}
      {
        var p := FindHop(def, d).value;
        assert p in def && p.id == d;
      }
    }
    assert Closed(def, h, start, T);
    CascadeSetIsLeast(def, h, start);
  }

  /** A startable hop that is not cut off is to run, whatever the unfinished predecessors end with. */
  lemma StartableVerdict(h: Hops, hop: Hop, end: map<HopId, Status>, run: Status)
    requires JoinMet(h, hop) && !CutOff(h, hop, {})
    requires forall d | d in hop.dependsOn :: d in end && (Terminal(h, d) ==> end[d] == h[d].status)
    ensures Verdict(hop, end, run) == run
  {
    if hop.joinType == All {
      var d :| d in hop.dependsOn && !NonSuccess(h, d);
      assert Terminal(h, d);
    } else {
      var d :| d in hop.dependsOn && Is(h, d, Complete);
      assert Terminal(h, d);
    }
  }

  lemma StartableRuns(def: Definition, outcomes: Outcomes, end: map<HopId, Status>, h: Hops, hop: Hop)
    requires Scenario(def, outcomes, end) && Shaped(def, h) && Agrees(def, outcomes, end, h)
    requires hop in def && BecomesReady(h, hop) && !CutOff(h, hop, {})
    ensures end[hop.id] == RunStatus(outcomes, hop.id)
  {
    forall d | d in hop.dependsOn
      ensures d in end && (Terminal(h, d) ==> end[d] == h[d].status)
    {
      var p := FindHop(def, d).value;
      assert p in def && p.id == d;
    }
    StartableVerdict(h, hop, end, RunStatus(outcomes, hop.id));
  }

  lemma PrimaryAgrees(def: Definition, outcomes: Outcomes, end: map<HopId, Status>, h: Hops, event: HopEvent, now: Timestamp)
    requires Scenario(def, outcomes, end) && Shaped(def, h) && Agrees(def, outcomes, end, h)
    requires Is(h, event.hopId, Dispatched) && event.outcome == if outcomes[event.hopId] then Completed else Failing
    ensures Agrees(def, outcomes, end, AfterCascade(def, h, event, now))
  {
    var h1 := ApplyPrimary(h, event, now);
    assert Agrees(def, outcomes, end, h1);
    if !event.outcome.Completed? {
      SkippedAreClosed(def, outcomes, end, h1, event.hopId);
    }
  }

  /** The cascade leaves no pending hop cut off. */
  lemma CascadeSettles(def: Definition, h: Hops, event: HopEvent, now: Timestamp, hop: Hop)
    requires Settled(def, h) && Is(h, event.hopId, Dispatched)
    requires event.outcome.Completed? || event.outcome.Failing?
    requires hop in def && Is(AfterCascade(def, h, event, now), hop.id, Pending)
    ensures !CutOff(AfterCascade(def, h, event, now), hop, {})
  {
    var h1 := ApplyPrimary(h, event, now);
    assert Is(h, hop.id, Pending);
    var d :| d in hop.dependsOn && !NonSuccess(h, d);
    if event.outcome.Failing? {
      var S := CascadeSet(def, h1, event.hopId);
      CascadeSetIsLeast(def, h1, event.hopId);
      assert d == event.hopId || d in S ==> Touched(hop, event.hopId, S) && !CutOff(h1, hop, S);
    }
  }

  lemma ReportSettles(def: Definition, h: Hops, event: HopEvent, task: TaskMeta, now: Timestamp)
    requires UniqueIds(def) && Plain(def) && Settled(def, h) && Is(h, event.hopId, Dispatched)
    requires event.outcome.Completed? || event.outcome.Failing?
    ensures Settled(def, EvaluateNormal(def, h, event, task, now))
  {
    var h2 := AfterCascade(def, h, event, now);
    var h' := EvaluateNormal(def, h, event, task, now);
    ScanWithoutConditions(def, h2, BuildContext(h2, task), task, now);
    ReadySetIsPending(def, h2);
    ReadyingKeepsTerminal(h2, ReadySet(def, h2));
    NormalLeavesNoneStartable(def, h, event, task, now);
    forall hop | hop in def && Is(h', hop.id, Pending)
      ensures !JoinMet(h', hop) && !CutOff(h', hop, {})
    {
      CascadeSettles(def, h, event, now, hop);
      assert hop.id !in ReadySet(def, h');
    }
  }

  lemma ReportAgrees(def: Definition, outcomes: Outcomes, end: map<HopId, Status>, h: Hops, event: HopEvent, task: TaskMeta, now: Timestamp)
    requires Scenario(def, outcomes, end) && Shaped(def, h) && Agrees(def, outcomes, end, h) && Settled(def, h)
    requires Is(h, event.hopId, Dispatched) && event.outcome == if outcomes[event.hopId] then Completed else Failing
    ensures Agrees(def, outcomes, end, EvaluateNormal(def, h, event, task, now))
  {
    var h2 := AfterCascade(def, h, event, now);
    ScanWithoutConditions(def, h2, BuildContext(h2, task), task, now);
    PrimaryAgrees(def, outcomes, end, h, event, now);
    forall hop | hop in def && hop.id in ReadySet(def, h2)
      ensures end[hop.id] == RunStatus(outcomes, hop.id)
    {
      var x :| x in def && BecomesReady(h2, x) && x.id == hop.id;
      SameId(def, x, hop);
      CascadeSettles(def, h, event, now, hop);
      StartableRuns(def, outcomes, end, h2, hop);
    }
  }

  lemma ReportKeepsInvariants(def: Definition, outcomes: Outcomes, end: map<HopId, Status>, h: Hops, event: HopEvent, task: TaskMeta, now: Timestamp)
    requires Scenario(def, outcomes, end) && Shaped(def, h) && Agrees(def, outcomes, end, h) && Settled(def, h)
    requires Is(h, event.hopId, Dispatched) && event.outcome == if outcomes[event.hopId] then Completed else Failing
    ensures var h' := EvaluateNormal(def, h, event, task, now);
            Shaped(def, h') && Agrees(def, outcomes, end, h') && Settled(def, h')
  {
    ReportAgrees(def, outcomes, end, h, event, task, now);
    ReportSettles(def, h, event, task, now);
    NormalEffect(def, h, event, task, now);
  }

  // ----- Runs -----

  ghost predicate Invariant(def: Definition, outcomes: Outcomes, end: map<HopId, Status>, h: Hops)
    requires Scenario(def, outcomes, end)
  {
    Shaped(def, h) && Agrees(def, outcomes, end, h) && Settled(def, h)
  }

  /** A hop that has started ends as its outcome says. */
  lemma StartedEndsAsRun(def: Definition, outcomes: Outcomes, end: map<HopId, Status>, h: Hops, id: HopId)
    requires Scenario(def, outcomes, end) && Shaped(def, h) && Agrees(def, outcomes, end, h) && Started(h, id)
    ensures end[id] == RunStatus(outcomes, id)
  {
    var hop := FindHop(def, id).value;
    assert Consistent(h[id].status, end[id], outcomes, id);
    assert end[id] == Verdict(hop, end, RunStatus(outcomes, id));
  }

  /** Moving a started hop to "ready" or "dispatched", even a finished one, gives no join to a pending hop. */
  lemma RestartKeepsInvariant(def: Definition, outcomes: Outcomes, end: map<HopId, Status>, h: Hops, id: HopId, next: HopState)
    requires Scenario(def, outcomes, end) && Invariant(def, outcomes, end, h) && Started(h, id)
    requires next.status == Ready || next.status == Dispatched
    ensures Invariant(def, outcomes, end, h[id := next])
  {
    var h' := h[id := next];
    StartedEndsAsRun(def, outcomes, end, h, id);
    forall hop | hop in def && Is(h', hop.id, Pending)
      ensures !JoinMet(h', hop) && !CutOff(h', hop, {})
    {
      assert Is(h, hop.id, Pending);
      assert forall d :: Satisfied(h', d) ==> Satisfied(h, d);
      assert forall d :: Is(h', d, Complete) ==> Is(h, d, Complete);
      assert forall d :: NonSuccess(h', d) ==> NonSuccess(h, d);
    }
  }

  lemma StepKeepsInvariant(def: Definition, outcomes: Outcomes, end: map<HopId, Status>, h: Hops, step: Step)
    requires Scenario(def, outcomes, end) && Invariant(def, outcomes, end, h)
    requires Enabled(def, h, step) && Follows(def, outcomes, h, step)
    requires step.Dispatch? ==> Started(h, step.id)
    ensures Invariant(def, outcomes, end, Take(def, h, step))
  {
    if step.Report? {
      var event := ReportEvent(def, FindDispatched(def, h).value, step.run, step.result);
      ReportKeepsInvariants(def, outcomes, end, h, event, step.task, step.now);
      if step.follow.Some? {
        var id := step.follow.value.hopId;
        assert Is(AfterReport(def, h, step), id, Ready);
        RestartKeepsInvariant(def, outcomes, end, AfterReport(def, h, step), id, Take(def, h, step)[id]);
      }
    } else {
      RestartKeepsInvariant(def, outcomes, end, h, step.id, Take(def, h, step)[step.id]);
    }
  }

  /** Every hop that was ready in one of the listings has started since. */
  ghost predicate SeenHaveStarted(past: seq<Hops>, h: Hops) {
    forall seen, id | seen in past && Is(seen, id, Ready) :: Started(h, id)
  }

  /** Without rejections, what has started stays started. */
  lemma StartedStays(def: Definition, outcomes: Outcomes, h: Hops, step: Step, id: HopId)
    requires ValidDefinition(def) && Shaped(def, h) && Ids(def) <= outcomes.Keys && Started(h, id)
    requires Enabled(def, h, step) && Follows(def, outcomes, h, step)
    ensures Started(Take(def, h, step), id)
  {
    if step.Report? {
      var event := ReportEvent(def, FindDispatched(def, h).value, step.run, step.result);
      if id == event.hopId {
        NormalSettles(def, h, event, step.task, step.now);
      } else {
        NormalKeepsStarted(def, h, event, step.task, step.now, id);
      }
    }
  }

  lemma SeenStayStarted(def: Definition, outcomes: Outcomes, past: seq<Hops>, h: Hops, step: Step)
    requires ValidDefinition(def) && Shaped(def, h) && Ids(def) <= outcomes.Keys && SeenHaveStarted(past, h)
    requires Enabled(def, h, step) && Follows(def, outcomes, h, step)
    ensures SeenHaveStarted(past + [h], Take(def, h, step))
  {
    forall seen, id | seen in past + [h] && Is(seen, id, Ready)
      ensures Started(Take(def, h, step), id)
    {
      StartedStays(def, outcomes, h, step, id);
    }
  }

  lemma {:induction false} RunKeepsInvariant(def: Definition, outcomes: Outcomes, end: map<HopId, Status>, past: seq<Hops>, h: Hops, steps: seq<Step>)
    requires Scenario(def, outcomes, end) && Invariant(def, outcomes, end, h) && SeenHaveStarted(past, h)
    requires Legal(def, h, steps) && Listed(def, past, h, steps) && FollowsAll(def, outcomes, h, steps)
    ensures Invariant(def, outcomes, end, Final(def, h, steps))
    decreases |steps|
  {
    if steps != [] {
      TakeKeepsShape(def, h, steps[0]);
      StepKeepsInvariant(def, outcomes, end, h, steps[0]);
      SeenStayStarted(def, outcomes, past, h, steps[0]);
      RunKeepsInvariant(def, outcomes, end, past + [h], Take(def, h, steps[0]), steps[1..]);
    }
  }

  lemma InitialInvariant(def: Definition, outcomes: Outcomes, end: map<HopId, Status>)
    requires Scenario(def, outcomes, end)
    ensures Invariant(def, outcomes, end, InitialState(def))
  {
    var h := InitialState(def);
    forall hop | hop in def
      ensures Consistent(h[hop.id].status, end[hop.id], outcomes, hop.id)
      ensures Is(h, hop.id, Pending) ==> !JoinMet(h, hop) && !CutOff(h, hop, {})
    {
      InitialStatus(def, hop);
      FindHopIs(def, hop);
      if !Root(hop) {
        var d := hop.dependsOn[0];
        assert d in hop.dependsOn && !Terminal(h, d);
        assert forall x :: !Is(h, x, Complete);
      }
    }
  }

  // ----- The end of a maximal run -----

  predicate Quiescent(h: Hops) {
    forall id | id in h :: h[id].status != Ready && h[id].status != Dispatched
  }

  /** A state is quiescent exactly when nothing is left to happen but dispatches on stale listings. */
  lemma QuiescentIffMaximal(def: Definition, h: Hops)
    requires ValidDefinition(def) && Shaped(def, h)
    ensures Quiescent(h) <==> forall step | Enabled(def, h, step) :: Stale(h, step)
  {
    if id :| id in h && h[id].status == Dispatched {
      assert Enabled(def, h, Enforce(id, 0));
    } else if id :| id in h && h[id].status == Ready {
      assert NoneDispatched(h);
      assert Enabled(def, h, Dispatch(id, h, "", 0));
    }
  }

  lemma StuckVerdict(h: Hops, hop: Hop, end: map<HopId, Status>, run: Status)
    requires !JoinMet(h, hop) && !CutOff(h, hop, {})
    requires forall d | d in hop.dependsOn :: d in end && d in h && h[d].status == end[d]
    ensures Verdict(hop, end, run) == Pending
  {
  }

  lemma {:induction false} QuiescentIsDenoted(def: Definition, rank: map<HopId, nat>, outcomes: Outcomes, end: map<HopId, Status>,
                                              h: Hops, id: HopId)
    requires Scenario(def, outcomes, end) && Ranked(def, rank)
    requires Invariant(def, outcomes, end, h) && Quiescent(h) && id in Ids(def)
    ensures h[id].status == end[id]
    decreases rank[id]
  {
    var hop := FindHop(def, id).value;
    forall d | d in hop.dependsOn
      ensures d in h && h[d].status == end[d]
    {
      QuiescentIsDenoted(def, rank, outcomes, end, h, d);
    }
    if Is(h, id, Pending) {
      StuckVerdict(h, hop, end, RunStatus(outcomes, id));
    }
  }

  lemma QuiescentStatuses(def: Definition, rank: map<HopId, nat>, outcomes: Outcomes, end: map<HopId, Status>, h: Hops)
    requires Scenario(def, outcomes, end) && Ranked(def, rank) && Invariant(def, outcomes, end, h) && Quiescent(h)
    ensures Statuses(h) == end
  {
    forall id | id in Ids(def)
      ensures h[id].status == end[id]
    {
      QuiescentIsDenoted(def, rank, outcomes, end, h, id);
    }
  }

  /** A run of the scheduler: its polls act on listings of this run, fresh or stale, and its results follow the outcomes. */
  ghost predicate Schedule(def: Definition, outcomes: Outcomes, steps: seq<Step>)
    requires ValidDefinition(def) && Ids(def) <= outcomes.Keys
  {
    && Legal(def, InitialState(def), steps)
    && Listed(def, [], InitialState(def), steps)
    && FollowsAll(def, outcomes, InitialState(def), steps)
  }

  /** Every run that ends with nothing ready or in flight ends in the denotation of the workflow. */
  lemma {:induction false} MaximalRunsEndInDenotation(def: Definition, rank: map<HopId, nat>, outcomes: Outcomes, end: map<HopId, Status>, steps: seq<Step>)
    requires Scenario(def, outcomes, end) && Ranked(def, rank) && Schedule(def, outcomes, steps)
    requires Quiescent(Final(def, InitialState(def), steps))
    ensures Statuses(Final(def, InitialState(def), steps)) == end
  {
    InitialInvariant(def, outcomes, end);
    RunKeepsInvariant(def, outcomes, end, [], InitialState(def), steps);
    QuiescentStatuses(def, rank, outcomes, end, Final(def, InitialState(def), steps));
  }

  /** Confluence: any two such runs with the same outcomes end in the same status map. */
  lemma {:induction false} Confluence(def: Definition, rank: map<HopId, nat>, outcomes: Outcomes, steps: seq<Step>, steps': seq<Step>)
    requires ValidDefinition(def) && Plain(def) && Ranked(def, rank) && Ids(def) <= outcomes.Keys
    requires Schedule(def, outcomes, steps) && Quiescent(Final(def, InitialState(def), steps))
    requires Schedule(def, outcomes, steps') && Quiescent(Final(def, InitialState(def), steps'))
    ensures Statuses(Final(def, InitialState(def), steps)) == Statuses(Final(def, InitialState(def), steps'))
    ensures DagStatus(Final(def, InitialState(def), steps)) == DagStatus(Final(def, InitialState(def), steps'))
  {
    var end := DenotationExists(def, rank, outcomes);
    MaximalRunsEndInDenotation(def, rank, outcomes, end, steps);
    MaximalRunsEndInDenotation(def, rank, outcomes, end, steps');
    SameStatusesSameEnd(Final(def, InitialState(def), steps), Final(def, InitialState(def), steps'));
  }

  lemma SameStatusesSameEnd(h: Hops, h': Hops)
    requires Statuses(h) == Statuses(h')
    ensures DagStatus(h) == DagStatus(h')
  {
    assert h.Keys == Statuses(h).Keys == h'.Keys;
    assert forall id | id in h :: h[id].status == Statuses(h)[id] == h'[id].status;
    assert forall id | id in h :: Terminal(h, id) <==> Terminal(h', id);
  }
}
