/** What one evaluation of a hop event means: a function from hop states to hop states. */
module DagSemantics {
  import opened Wrappers
  import opened Conditions
  import opened Workflow

  const DEFAULT_MAX_REJECTIONS: nat := 3

  datatype Outcome = Completed | Failing | Skipping | Rejected

  datatype HopEvent = HopEvent(hopId: HopId, outcome: Outcome, result: Option<Record>)

  datatype Reason = Primary | Cascade | ConditionFalse | RejectOrigin | RejectPredecessors | CircuitBreaker

  datatype HopTransition = HopTransition(hopId: HopId, from: Status, to: Status, reason: Reason)

  datatype WorkflowStatus = WfPending | WfRunning | WfComplete | WfFailed

  // ----- Skip cascade -----

  /** Every predecessor has failed, was skipped, or is in `S`. */
  ghost predicate CutOff(h: Hops, hop: Hop, S: set<HopId>) {
    forall d | d in hop.dependsOn :: NonSuccess(h, d) || d in S
  }

  /** Some predecessor is `start` or in `S`. */
  ghost predicate Touched(hop: Hop, start: HopId, S: set<HopId>) {
    exists d :: d in hop.dependsOn && (d == start || d in S)
  }

  ghost predicate Closed(def: Definition, h: Hops, start: HopId, S: set<HopId>) {
    forall hop | hop in def && Is(h, hop.id, Pending) && Touched(hop, start, S) && CutOff(h, hop, S) ::
      hop.id in S
  }

  /** The pending hops that belong to every closed set. */
  ghost function CascadeSet(def: Definition, h: Hops, start: HopId): set<HopId> {
    set hop | hop in def && Is(h, hop.id, Pending) && (forall S :: Closed(def, h, start, S) ==> hop.id in S) :: hop.id
  }

  function SkipAll(h: Hops, S: set<HopId>, now: Timestamp): Hops {
    map id | id in h :: if id in S then h[id].(status := Skipped, completedAt := Some(now)) else h[id]
  }

  lemma {:induction false} CascadeSetIsLeast(def: Definition, h: Hops, start: HopId)
    ensures Closed(def, h, start, CascadeSet(def, h, start))
    ensures forall S :: Closed(def, h, start, S) ==> CascadeSet(def, h, start) <= S
    ensures forall id :: id in CascadeSet(def, h, start) ==> Is(h, id, Pending)
  {
    var C := CascadeSet(def, h, start);
    forall hop | hop in def && Is(h, hop.id, Pending) && Touched(hop, start, C) && CutOff(h, hop, C)
      ensures hop.id in C
    {
      forall S | Closed(def, h, start, S)
        ensures hop.id in S
      {
        assert C <= S;
        assert Touched(hop, start, S);
        assert CutOff(h, hop, S);
      }
    }
  }

  /** The cascade depends on the hops of the definition, not on the order they are listed in. */
  lemma {:induction false} CascadeSetIgnoresOrder(def: Definition, def': Definition, h: Hops, start: HopId)
    requires forall hop :: hop in def <==> hop in def'
    ensures CascadeSet(def, h, start) == CascadeSet(def', h, start)
  {
    forall S
      ensures Closed(def, h, start, S) <==> Closed(def', h, start, S)
    {
    }
  }

  // ----- Conditions -----

  /** `buildConditionContext`. */
  function BuildContext(h: Hops, task: TaskMeta): Value {
    var hops := map id | id in h :: Object(map["result" := Object(h[id].result.GetOr(map[]))]);
    Object(map[
             "hops" := Object(hops),
             "task" := Object(map[
                                "status" := Str(task.status),
                                "tags" := Array(seq(|task.tags|, i requires 0 <= i < |task.tags| => Str(task.tags[i]))),
                                "priority" := Str(task.priority),
                                "routing" := Object(task.routing)
                              ])
           ])
  }

  predicate AllTerminal(h: Hops, hop: Hop) {
    forall d | d in hop.dependsOn :: Terminal(h, d)
  }

  predicate ConditionHolds(hop: Hop, h: Hops, context: Value, task: TaskMeta)
    requires hop.condition.Some?
  {
    EvaluateCondition(hop.condition.value, Context(context, Statuses(h), task))
  }

  /** The hop is examined by the condition scan and its condition is false. */
  predicate ConditionSkips(hop: Hop, h: Hops, context: Value, task: TaskMeta) {
    Is(h, hop.id, Pending) && hop.condition.Some? && AllTerminal(h, hop) && !ConditionHolds(hop, h, context, task)
  }

  function ScanOne(hop: Hop, h: Hops, context: Value, task: TaskMeta, now: Timestamp): Hops {
    if ConditionSkips(hop, h, context, task) then h[hop.id := h[hop.id].(status := Skipped, completedAt := Some(now))]
    else h
  }

  /** Condition scan over `hops`, each hop seeing the skips of the earlier ones. */
  function Scan(hops: seq<Hop>, h: Hops, context: Value, task: TaskMeta, now: Timestamp): Hops {
    if hops == [] then h
    else Scan(hops[1..], ScanOne(hops[0], h, context, task, now), context, task, now)
  }

  // ----- Readiness -----

  predicate JoinMet(h: Hops, hop: Hop) {
    match hop.joinType
    case Any => exists d :: d in hop.dependsOn && Is(h, d, Complete)
    case All => forall d | d in hop.dependsOn :: Satisfied(h, d)
  }

  predicate BecomesReady(h: Hops, hop: Hop) {
    Is(h, hop.id, Pending) && !Root(hop) && JoinMet(h, hop)
  }

  function ReadySet(def: Definition, h: Hops): set<HopId> {
    set hop | hop in def && BecomesReady(h, hop) :: hop.id
  }

  /** The startable hops in definition order. */
  function ReadyList(def: Definition, h: Hops): seq<HopId> {
    if def == [] then []
    else
      var hop := def[|def| - 1];
      ReadyList(def[..|def| - 1], h) + if BecomesReady(h, hop) then [hop.id] else []
  }

  lemma {:induction false} ReadyListIsReadySet(def: Definition, h: Hops)
    ensures forall id :: id in ReadyList(def, h) <==> id in ReadySet(def, h)
  {
    if def != [] {
      var before, hop := def[..|def| - 1], def[|def| - 1];
      ReadyListIsReadySet(before, h);
      assert def == before + [hop];
      assert forall x :: x in def <==> x in before || x == hop;
    }
  }

  lemma {:induction false} ReadyListIsDistinct(def: Definition, h: Hops)
    requires UniqueIds(def)
    ensures forall i, j | 0 <= i < j < |ReadyList(def, h)| :: ReadyList(def, h)[i] != ReadyList(def, h)[j]
  {
    if def != [] {
      var before, hop := def[..|def| - 1], def[|def| - 1];
      ReadyListIsDistinct(before, h);
      ReadyListIsReadySet(before, h);
      assert hop.id !in ReadyList(before, h);
    }
  }

  /** A list with the ids of the ready hops it lacks added, in definition order. */
  function WithReady(def: Definition, h: Hops, listed: seq<HopId>): seq<HopId> {
    if def == [] then listed
    else
      var hop := def[|def| - 1];
      var before := WithReady(def[..|def| - 1], h, listed);
      if Is(h, hop.id, Ready) && hop.id !in before then before + [hop.id] else before
  }

  lemma {:induction false} WithReadyAdds(def: Definition, h: Hops, listed: seq<HopId>)
    ensures forall id :: id in WithReady(def, h, listed) <==> id in listed || (id in Ids(def) && Is(h, id, Ready))
  {
    if def != [] {
      WithReadyAdds(def[..|def| - 1], h, listed);
      IdsStep(def, |def| - 1);
      assert def[..|def| - 1 + 1] == def;
    }
  }

  lemma {:induction false} WithReadyIsDistinct(def: Definition, h: Hops, listed: seq<HopId>)
    requires forall i, j | 0 <= i < j < |listed| :: listed[i] != listed[j]
    ensures forall i, j | 0 <= i < j < |WithReady(def, h, listed)| :: WithReady(def, h, listed)[i] != WithReady(def, h, listed)[j]
  {
    if def != [] {
      WithReadyIsDistinct(def[..|def| - 1], h, listed);
    }
  }

  function MarkReady(h: Hops, S: set<HopId>): Hops {
    map id | id in h :: if id in S then h[id].(status := Ready) else h[id]
  }

  // ----- Rejection -----

  /** A reset hop keeps nothing but, on the rejected hop, the rejection count. */
  function ResetState(hop: Hop, ready: bool, rejected: HopId, count: nat): HopState {
    Fresh(if ready then Ready else Pending).(rejectionCount := if hop.id == rejected then Some(count) else None)
  }

  ghost function ResetOrigin(def: Definition, h: Hops, rejected: HopId, count: nat): Hops
    requires UniqueIds(def) && Shaped(def, h)
  {
    map id | id in h :: var hop := FindHop(def, id).value; ResetState(hop, Root(hop), rejected, count)
  }

  function ResetSet(rejected: Hop): set<HopId> {
    {rejected.id} + set d | d in rejected.dependsOn
  }

  /** All of the hop's own dependencies are complete or skipped and none of them is being reset. */
  predicate OutsideSatisfied(h: Hops, hop: Hop, reset: set<HopId>) {
    forall d | d in hop.dependsOn :: d !in reset && Satisfied(h, d)
  }

  ghost function ResetPredecessors(def: Definition, h: Hops, rejected: Hop, count: nat): Hops
    requires UniqueIds(def) && Shaped(def, h)
  {
    var reset := ResetSet(rejected);
    map id | id in h ::
      if id !in reset then h[id]
      else var hop := FindHop(def, id).value; ResetState(hop, OutsideSatisfied(h, hop, reset), rejected.id, count)
  }

  // ----- One evaluation -----

  function CountAfter(h: Hops, id: HopId): nat
    requires id in h
  {
    h[id].rejectionCount.GetOr(0) + 1
  }

  ghost function EvaluateRejection(def: Definition, h: Hops, rejected: Hop, now: Timestamp): Hops
    requires ValidDefinition(def) && Shaped(def, h) && rejected in def
  {
    var count := CountAfter(h, rejected.id);
    if count >= DEFAULT_MAX_REJECTIONS then
      var h1 := h[rejected.id := h[rejected.id].(status := Failed, completedAt := Some(now), rejectionCount := Some(count))];
      SkipAll(h1, CascadeSet(def, h1, rejected.id), now)
    else if rejected.rejectionStrategy.GetOr(Origin) == Origin then
      ResetOrigin(def, h, rejected.id, count)
    else
      ResetPredecessors(def, h, rejected, count)
  }

  function OutcomeStatus(o: Outcome): Status
    requires !o.Rejected?
  {
    match o
    case Completed => Complete
    case Failing => Failed
    case Skipping => Skipped
  }

  function ApplyPrimary(h: Hops, event: HopEvent, now: Timestamp): Hops
    requires event.hopId in h && !event.outcome.Rejected?
  {
    h[event.hopId := h[event.hopId].(status := OutcomeStatus(event.outcome), completedAt := Some(now), result := event.result)]
  }

  /** Hop states after the primary transition and its skip cascade. */
  ghost function AfterCascade(def: Definition, h: Hops, event: HopEvent, now: Timestamp): Hops
    requires event.hopId in h && !event.outcome.Rejected?
  {
    var h1 := ApplyPrimary(h, event, now);
    if event.outcome.Completed? then h1 else SkipAll(h1, CascadeSet(def, h1, event.hopId), now)
  }

  /** Hop states after the condition scan. */
  ghost function AfterScan(def: Definition, h: Hops, event: HopEvent, task: TaskMeta, now: Timestamp): Hops
    requires event.hopId in h && !event.outcome.Rejected?
  {
    var h2 := AfterCascade(def, h, event, now);
    Scan(def, h2, BuildContext(h2, task), task, now)
  }

  ghost function EvaluateNormal(def: Definition, h: Hops, event: HopEvent, task: TaskMeta, now: Timestamp): Hops
    requires event.hopId in h && !event.outcome.Rejected?
  {
    var h3 := AfterScan(def, h, event, task, now);
    MarkReady(h3, ReadySet(def, h3))
  }

  ghost function Evaluate(def: Definition, h: Hops, event: HopEvent, task: TaskMeta, now: Timestamp): Hops
    requires ValidDefinition(def) && Shaped(def, h) && event.hopId in h
  {
    if event.outcome.Rejected? then EvaluateRejection(def, h, FindHop(def, event.hopId).value, now)
    else EvaluateNormal(def, h, event, task, now)
  }

  // ----- Workflow completion -----

  predicate AllDone(h: Hops) {
    forall id | id in h :: Terminal(h, id)
  }

  predicate AnyFailed(h: Hops) {
    exists id | id in h :: h[id].status == Failed
  }

  /** `checkDAGCompletion`: None while some hop is not terminal. */
  function DagStatus(h: Hops): Option<WorkflowStatus> {
    if !AllDone(h) then None else if AnyFailed(h) then Some(WfFailed) else Some(WfComplete)
  }

  datatype WorkflowState = WorkflowState(status: WorkflowStatus, hops: Hops, completedAt: Option<Timestamp>)

  datatype EvaluationResult = EvaluationResult(
    state: WorkflowState,
    changes: seq<HopTransition>,
    readyHops: seq<HopId>,
    dagStatus: Option<WorkflowStatus>,
    taskStatus: Option<string>
  )

  /** The hops a call reports as ready: the ones it found startable, and after a rejection also the ones already ready. */
  ghost predicate Reported(def: Definition, h: Hops, event: HopEvent, task: TaskMeta, now: Timestamp, id: HopId)
    requires ValidDefinition(def) && Shaped(def, h) && event.hopId in h
  {
    if event.outcome.Rejected? then
      var h' := Evaluate(def, h, event, task, now);
      id in ReadySet(def, h') || Is(h', id, Ready)
    else
      id in ReadySet(def, AfterScan(def, h, event, task, now))
  }

  /** The same hops as the list `readyHops`. */
  ghost function ReportedList(def: Definition, h: Hops, event: HopEvent, task: TaskMeta, now: Timestamp): seq<HopId>
    requires ValidDefinition(def) && Shaped(def, h) && event.hopId in h
  {
    if event.outcome.Rejected? then
      var h' := Evaluate(def, h, event, task, now);
      WithReady(def, h', ReadyList(def, h'))
    else
      ReadyList(def, AfterScan(def, h, event, task, now))
  }

  // ----- Change log -----

  /** Folds the log over a status map; None as soon as a `from` does not match. */
  function Replay(s: map<HopId, Status>, log: seq<HopTransition>): Option<map<HopId, Status>> {
    if log == [] then Some(s)
    else
      var init := Replay(s, log[..|log| - 1]);
      var c := log[|log| - 1];
      if init.Some? && c.hopId in init.value && init.value[c.hopId] == c.from then
        Some(init.value[c.hopId := c.to])
      else None
  }

  lemma ReplayPush(s: map<HopId, Status>, log: seq<HopTransition>, c: HopTransition)
    requires Replay(s, log).Some? && c.hopId in Replay(s, log).value && Replay(s, log).value[c.hopId] == c.from
    ensures Replay(s, log + [c]) == Some(Replay(s, log).value[c.hopId := c.to])
  {
    assert (log + [c])[..|log + [c]| - 1] == log;
  }
}
