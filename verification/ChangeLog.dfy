/** What the change log of an evaluation says: which hops changed, in which phase and why. */
module ChangeLog {
  import opened Wrappers
  import opened Conditions
  import opened Workflow
  import opened DagSemantics
  import opened DagFacts

  /** Every entry added since `before` moves a hop that was pending to `to`, for the same reason. */
  ghost predicate Moves(before: seq<HopTransition>, log: seq<HopTransition>, h: Hops, h': Hops, to: Status, reason: Reason) {
    && before <= log
    && forall i | |before| <= i < |log| ::
         && log[i] == HopTransition(log[i].hopId, Pending, to, reason)
         && Is(h, log[i].hopId, Pending) && Is(h', log[i].hopId, to)
  }

  /** Nothing but moves from pending to `to` has happened. */
  ghost predicate OnlyMoves(h: Hops, h': Hops, to: Status) {
    && h'.Keys == h.Keys
    && forall id | id in h :: h'[id].status == h[id].status || (h[id].status == Pending && h'[id].status == to)
  }

  lemma MovesAfterMoves(l0: seq<HopTransition>, l1: seq<HopTransition>, l2: seq<HopTransition>, h0: Hops, h1: Hops, h2: Hops, to: Status,
                        reason: Reason)
    requires to != Pending
    requires Moves(l0, l1, h0, h1, to, reason) && Moves(l1, l2, h1, h2, to, reason)
    requires OnlyMoves(h0, h1, to) && OnlyMoves(h1, h2, to)
    ensures Moves(l0, l2, h0, h2, to, reason) && OnlyMoves(h0, h2, to)
  {
    forall i | |l0| <= i < |l2|
      ensures l2[i] == HopTransition(l2[i].hopId, Pending, to, reason)
      ensures Is(h0, l2[i].hopId, Pending) && Is(h2, l2[i].hopId, to)
    {
      if i < |l1| {
        assert l2[i] == l1[i];
      }
    }
  }

  lemma MoveOne(log: seq<HopTransition>, h: Hops, id: HopId, next: HopState, reason: Reason)
    requires Is(h, id, Pending) && next.status != Pending
    ensures var c := HopTransition(id, Pending, next.status, reason);
            Moves(log, log + [c], h, h[id := next], next.status, reason) && OnlyMoves(h, h[id := next], next.status)
  {
  }

  lemma SkipAllOnlyMoves(h: Hops, S: set<HopId>, now: Timestamp)
    requires forall id | id in S && id in h :: Is(h, id, Pending)
    ensures OnlyMoves(h, SkipAll(h, S, now), Skipped)
  {
  }

  lemma ScanOnlyMoves(hops: seq<Hop>, h: Hops, context: Value, task: TaskMeta, now: Timestamp)
    ensures OnlyMoves(h, Scan(hops, h, context, task, now), Skipped)
  {
    ScanOnlySkips(hops, h, context, task, now);
  }

  // ----- Resets -----

  /** Every entry added since `before` takes a hop from its status in `h` to its status in `h'`, for the same reason. */
  ghost predicate Resets(before: seq<HopTransition>, log: seq<HopTransition>, h: Hops, h': Hops, reason: Reason) {
    && before <= log
    && forall i | |before| <= i < |log| ::
         && log[i].hopId in h && log[i].hopId in h'
         && log[i] == HopTransition(log[i].hopId, h[log[i].hopId].status, h'[log[i].hopId].status, reason)
  }

  /** Some entry added since `before` is about the hop. */
  ghost predicate Mentions(before: seq<HopTransition>, log: seq<HopTransition>, id: HopId) {
    exists i | |before| <= i < |log| :: log[i].hopId == id
  }

  lemma ResetsOneMore(before: seq<HopTransition>, log: seq<HopTransition>, h: Hops, h': Hops, id: HopId, reason: Reason)
    requires Resets(before, log, h, h', reason) && id in h && id in h'
    ensures var log' := log + [HopTransition(id, h[id].status, h'[id].status, reason)];
            Resets(before, log', h, h', reason) && Mentions(before, log', id)
            && forall x | Mentions(before, log, x) :: Mentions(before, log', x)
  {
    var log' := log + [HopTransition(id, h[id].status, h'[id].status, reason)];
    assert log'[|log|].hopId == id;
    forall x | Mentions(before, log, x)
      ensures Mentions(before, log', x)
    {
      var i :| |before| <= i < |log| && log[i].hopId == x;
      assert log'[i].hopId == x;
    }
  }

  // ----- A whole evaluation -----

  /** The phases of an evaluation, in order: the cascade, the conditions, the readying. */
  function Phase(reason: Reason): nat {
    match reason
    case Cascade => 1
    case ConditionFalse => 2
    case _ => 3
  }

  /** The entries after the first: their phase is read off the state `h2` after the cascade and the state `h'` at the end. */
  ghost predicate InPhase(h2: Hops, h': Hops, c: HopTransition, phase: nat) {
    && c.from == Pending && Is(h', c.hopId, c.to)
    && match phase
       case 1 => c.reason == Cascade && c.to == Skipped && Is(h2, c.hopId, Skipped)
       case 2 => c.reason == ConditionFalse && c.to == Skipped && Is(h2, c.hopId, Pending)
       case _ => c.reason == Primary && c.to == Ready && Is(h2, c.hopId, Pending)
  }

  /**
   * The log of a normal evaluation: first the event's own transition; then hops that were pending, in this order, those the
   * cascade skipped, those whose condition was false, and those that became ready, each with its reason.
   */
  ghost predicate Tells(def: Definition, h: Hops, event: HopEvent, h': Hops, log: seq<HopTransition>, now: Timestamp)
    requires event.hopId in h && !event.outcome.Rejected?
  {
    var h2 := AfterCascade(def, h, event, now);
    && log != []
    && log[0] == HopTransition(event.hopId, h[event.hopId].status,
                               match event.outcome case Completed => Complete case Failing => Failed case _ => Skipped, Primary)
    && (forall i | 0 < i < |log| :: InPhase(h2, h', log[i], Phase(log[i].reason)))
    && (forall i, j | 0 < i < j < |log| :: Phase(log[i].reason) <= Phase(log[j].reason))
  }

  lemma PhasesOf(l0: seq<HopTransition>, l1: seq<HopTransition>, l2: seq<HopTransition>, l3: seq<HopTransition>, h1: Hops, h2: Hops,
                 h3: Hops, h': Hops)
    requires Moves(l0, l1, h1, h2, Skipped, Cascade) && Moves(l1, l2, h2, h3, Skipped, ConditionFalse)
    requires Moves(l2, l3, h3, h', Ready, Primary)
    requires OnlyMoves(h2, h3, Skipped) && OnlyMoves(h3, h', Ready)
    ensures l0 <= l3
    ensures forall i | |l0| <= i < |l3| :: InPhase(h2, h', l3[i], if i < |l1| then 1 else if i < |l2| then 2 else 3)
  {
    forall i | |l0| <= i < |l3|
      ensures InPhase(h2, h', l3[i], if i < |l1| then 1 else if i < |l2| then 2 else 3)
    {
      if i < |l1| {
        assert l3[i] == l2[i] == l1[i];
      } else if i < |l2| {
        assert l3[i] == l2[i];
      }
    }
  }

  lemma TellsAll(def: Definition, h: Hops, event: HopEvent, task: TaskMeta, now: Timestamp, l1: seq<HopTransition>,
                 l2: seq<HopTransition>, l3: seq<HopTransition>)
    requires event.hopId in h && !event.outcome.Rejected?
    requires var l0 := [HopTransition(event.hopId, h[event.hopId].status, OutcomeStatus(event.outcome), Primary)];
             Moves(l0, l1, ApplyPrimary(h, event, now), AfterCascade(def, h, event, now), Skipped, Cascade)
    requires Moves(l1, l2, AfterCascade(def, h, event, now), AfterScan(def, h, event, task, now), Skipped, ConditionFalse)
    requires Moves(l2, l3, AfterScan(def, h, event, task, now), EvaluateNormal(def, h, event, task, now), Ready, Primary)
    ensures Tells(def, h, event, EvaluateNormal(def, h, event, task, now), l3, now)
  {
    var l0 := [HopTransition(event.hopId, h[event.hopId].status, OutcomeStatus(event.outcome), Primary)];
    var h2 := AfterCascade(def, h, event, now);
    var h3 := AfterScan(def, h, event, task, now);
    var h' := EvaluateNormal(def, h, event, task, now);
    ScanOnlyMoves(def, h2, BuildContext(h2, task), task, now);
    ReadySetIsPending(def, h3);
    MarkOnlyMoves(h3, ReadySet(def, h3));
    PhasesOf(l0, l1, l2, l3, ApplyPrimary(h, event, now), h2, h3, h');
    assert l3[0] == l0[0];
    forall i | 0 < i < |l3|
      ensures InPhase(h2, h', l3[i], Phase(l3[i].reason))
      ensures Phase(l3[i].reason) == if i < |l1| then 1 else if i < |l2| then 2 else 3
    {
      assert InPhase(h2, h', l3[i], if i < |l1| then 1 else if i < |l2| then 2 else 3);
    }
  }

  lemma MarkOnlyMoves(h: Hops, S: set<HopId>)
    requires forall id | id in S && id in h :: Is(h, id, Pending)
    ensures OnlyMoves(h, MarkReady(h, S), Ready)
  {
  }

  /** The log of a rejection: the breaker's transition and its cascade, or the resets the strategy makes, the rejected hop's among them. */
  ghost predicate TellsRejection(h: Hops, r: Hop, h': Hops, log: seq<HopTransition>)
    requires r.id in h
  {
    var count := match h[r.id].rejectionCount case None => 1 case Some(n) => n + 1;
    if count >= 3 then
      && log != [] && log[0] == HopTransition(r.id, h[r.id].status, Failed, CircuitBreaker)
      && forall i | 0 < i < |log| :: log[i] == HopTransition(log[i].hopId, Pending, Skipped, Cascade)
    else
      && Resets([], log, h, h', if r.rejectionStrategy == Some(Predecessors) then RejectPredecessors else RejectOrigin)
      && Mentions([], log, r.id)
  }
}
