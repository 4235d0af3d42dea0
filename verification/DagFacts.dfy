/** How one evaluation can change each single hop. */
module DagFacts {
  import opened Wrappers
  import opened Conditions
  import opened Workflow
  import opened DagSemantics

  /** `s` is skipped at `now`, with its other fields kept. */
  function SkippedAt(s: HopState, now: Timestamp): HopState {
    s.(status := Skipped, completedAt := Some(now))
  }

  /** Pending hops may be skipped; nothing else changes. */
  ghost predicate OnlySkips(h: Hops, h': Hops, now: Timestamp) {
    && h'.Keys == h.Keys
    && forall id | id in h :: h'[id] == h[id] || (Is(h, id, Pending) && h'[id] == SkippedAt(h[id], now))
  }

  lemma {:induction false} ScanOnlySkips(hops: seq<Hop>, h: Hops, context: Value, task: TaskMeta, now: Timestamp)
    ensures OnlySkips(h, Scan(hops, h, context, task, now), now)
    decreases |hops|
  {
    if hops != [] {
      ScanOnlySkips(hops[1..], ScanOne(hops[0], h, context, task, now), context, task, now);
    }
  }

  lemma {:induction false} ScanWithoutConditions(hops: seq<Hop>, h: Hops, context: Value, task: TaskMeta, now: Timestamp)
    requires forall hop | hop in hops :: hop.condition.None?
    ensures Scan(hops, h, context, task, now) == h
    decreases |hops|
  {
    if hops != [] {
      ScanWithoutConditions(hops[1..], h, context, task, now);
    }
  }

  /** The scan leaves a hop without a condition alone. */
  lemma {:induction false} ScanLeavesUnconditioned(hops: seq<Hop>, h: Hops, context: Value, task: TaskMeta, now: Timestamp, id: HopId)
    requires id in h && forall hop | hop in hops && hop.id == id :: hop.condition.None?
    ensures id in Scan(hops, h, context, task, now)
    ensures Scan(hops, h, context, task, now)[id] == h[id]
    decreases |hops|
  {
    if hops != [] {
      ScanLeavesUnconditioned(hops[1..], ScanOne(hops[0], h, context, task, now), context, task, now, id);
    }
  }

  lemma CascadeOnlySkips(def: Definition, h: Hops, start: HopId, now: Timestamp)
    ensures OnlySkips(h, SkipAll(h, CascadeSet(def, h, start), now), now)
  {
    CascadeSetIsLeast(def, h, start);
  }

  /** After the primary transition, an evaluation only skips pending hops, and then only readies startable ones. */
  lemma NormalEffect(def: Definition, h: Hops, event: HopEvent, task: TaskMeta, now: Timestamp)
    requires event.hopId in h && !event.outcome.Rejected?
    ensures var h1 := ApplyPrimary(h, event, now);
            var h2 := AfterCascade(def, h, event, now);
            var h3 := AfterScan(def, h, event, task, now);
            OnlySkips(h1, h2, now) && OnlySkips(h2, h3, now) && OnlySkips(h1, h3, now)
  {
    var h1 := ApplyPrimary(h, event, now);
    var h2 := AfterCascade(def, h, event, now);
    CascadeOnlySkips(def, h1, event.hopId, now);
    ScanOnlySkips(def, h2, BuildContext(h2, task), task, now);
  }

  /** On a non-rejection call every other hop that has left the pending status keeps its whole state. */
  lemma NormalKeepsStarted(def: Definition, h: Hops, event: HopEvent, task: TaskMeta, now: Timestamp, id: HopId)
    requires event.hopId in h && !event.outcome.Rejected?
    requires id in h && id != event.hopId && h[id].status != Pending
    ensures id in EvaluateNormal(def, h, event, task, now)
    ensures EvaluateNormal(def, h, event, task, now)[id] == h[id]
  {
    NormalEffect(def, h, event, task, now);
  }

  /** On a non-rejection call the event's hop gets its outcome and result, and nothing later in the call changes it. */
  lemma NormalSettles(def: Definition, h: Hops, event: HopEvent, task: TaskMeta, now: Timestamp)
    requires event.hopId in h && !event.outcome.Rejected?
    ensures event.hopId in EvaluateNormal(def, h, event, task, now)
    ensures EvaluateNormal(def, h, event, task, now)[event.hopId] == ApplyPrimary(h, event, now)[event.hopId]
  {
    NormalEffect(def, h, event, task, now);
  }

  /** A pending hop stays pending, is skipped, or is readied because its join is met. */
  lemma NormalMovesPending(def: Definition, h: Hops, event: HopEvent, task: TaskMeta, now: Timestamp, hop: Hop)
    requires UniqueIds(def) && hop in def && Is(h, hop.id, Pending)
    requires event.hopId in h && event.hopId != hop.id && !event.outcome.Rejected?
    ensures var h3 := AfterScan(def, h, event, task, now);
            var h' := EvaluateNormal(def, h, event, task, now);
            && hop.id in h'
            && (h'[hop.id] == h[hop.id] || h'[hop.id] == SkippedAt(h[hop.id], now)
                || (h'[hop.id] == h[hop.id].(status := Ready) && BecomesReady(h3, hop)))
            && (h'[hop.id].status == Pending ==> !BecomesReady(h3, hop))
  {
    NormalEffect(def, h, event, task, now);
    var h3 := AfterScan(def, h, event, task, now);
    if hop.id in ReadySet(def, h3) {
      var x :| x in def && BecomesReady(h3, x) && x.id == hop.id;
      SameId(def, x, hop);
    }
  }

  /** Readying hops creates no terminal hop. */
  lemma ReadyingKeepsTerminal(h3: Hops, S: set<HopId>)
    requires forall id | id in S && id in h3 :: Is(h3, id, Pending)
    ensures forall id :: Terminal(h3, id) <==> Terminal(MarkReady(h3, S), id)
    ensures forall id :: Satisfied(h3, id) <==> Satisfied(MarkReady(h3, S), id)
    ensures forall id :: NonSuccess(h3, id) <==> NonSuccess(MarkReady(h3, S), id)
    ensures forall id :: Is(h3, id, Complete) <==> Is(MarkReady(h3, S), id, Complete)
  {
  }

  lemma ReadySetIsPending(def: Definition, h: Hops)
    ensures forall id | id in ReadySet(def, h) :: Is(h, id, Pending)
  {
  }

  /** After a non-rejection call no pending hop is startable. */
  lemma {:induction false} NormalLeavesNoneStartable(def: Definition, h: Hops, event: HopEvent, task: TaskMeta, now: Timestamp)
    requires UniqueIds(def) && event.hopId in h && !event.outcome.Rejected?
    ensures ReadySet(def, EvaluateNormal(def, h, event, task, now)) == {}
  {
    var h3 := AfterScan(def, h, event, task, now);
    var h' := EvaluateNormal(def, h, event, task, now);
    ReadySetIsPending(def, h3);
    ReadyingKeepsTerminal(h3, ReadySet(def, h3));
    forall hop | hop in def
      ensures !BecomesReady(h', hop)
    {
      if Is(h', hop.id, Pending) {
        assert hop.id !in ReadySet(def, h3);
        assert !BecomesReady(h3, hop);
      }
    }
  }

  /** The circuit breaker fails the hop and skips pending hops, nothing else. */
  lemma {:induction false} BreakerEffect(def: Definition, h: Hops, rejected: Hop, now: Timestamp)
    requires ValidDefinition(def) && Shaped(def, h) && rejected in def
    requires CountAfter(h, rejected.id) >= DEFAULT_MAX_REJECTIONS
    ensures var h1 := h[rejected.id := h[rejected.id].(status := Failed, completedAt := Some(now), rejectionCount := Some(CountAfter(h, rejected.id)))];
            OnlySkips(h1, EvaluateRejection(def, h, rejected, now), now)
  {
    var h1 := h[rejected.id := h[rejected.id].(status := Failed, completedAt := Some(now), rejectionCount := Some(CountAfter(h, rejected.id)))];
    CascadeOnlySkips(def, h1, rejected.id, now);
  }

  lemma EvaluateKeepsShape(def: Definition, h: Hops, event: HopEvent, task: TaskMeta, now: Timestamp)
    requires ValidDefinition(def) && Shaped(def, h) && event.hopId in h
    ensures Shaped(def, Evaluate(def, h, event, task, now))
  {
    if !event.outcome.Rejected? {
      NormalEffect(def, h, event, task, now);
    }
  }

  lemma OriginEffect(def: Definition, h: Hops, rejected: HopId, count: nat, hop: Hop)
    requires UniqueIds(def) && Shaped(def, h) && hop in def
    ensures hop.id in ResetOrigin(def, h, rejected, count)
    ensures ResetOrigin(def, h, rejected, count)[hop.id] == ResetState(hop, Root(hop), rejected, count)
  {
    FindHopIs(def, hop);
  }

  lemma PredecessorsEffect(def: Definition, h: Hops, rejected: Hop, count: nat, hop: Hop)
    requires UniqueIds(def) && Shaped(def, h) && hop in def
    ensures var h' := ResetPredecessors(def, h, rejected, count);
            var reset := ResetSet(rejected);
            && hop.id in h'
            && h'[hop.id] == if hop.id in reset then ResetState(hop, OutsideSatisfied(h, hop, reset), rejected.id, count)
                             else h[hop.id]
  {
    FindHopIs(def, hop);
  }
}
