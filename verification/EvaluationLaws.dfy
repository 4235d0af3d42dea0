/** What the condition scan does, told from the states before and after it, and what an evaluation makes of every hop. */
module EvaluationLaws {
  import opened Wrappers
  import opened Conditions
  import opened Workflow
  import opened DagSemantics
  import opened DagFacts

  // ----- Parts of a scan -----

  lemma {:induction false} ScanSplit(a: seq<Hop>, b: seq<Hop>, h: Hops, context: Value, task: TaskMeta, now: Timestamp)
    ensures Scan(a + b, h, context, task, now) == Scan(b, Scan(a, h, context, task, now), context, task, now)
    decreases |a|
  {
    if a == [] {
      assert a + b == b;
    } else {
      ScanSplit(a[1..], b, ScanOne(a[0], h, context, task, now), context, task, now);
      assert (a + b)[1..] == a[1..] + b;
    }
  }

  /** The scan of some hops leaves every other hop alone. */
  lemma {:induction false} ScanLeavesOthers(hops: seq<Hop>, h: Hops, context: Value, task: TaskMeta, now: Timestamp, id: HopId)
    requires id !in Ids(hops) && id in h
    ensures id in Scan(hops, h, context, task, now)
    ensures Scan(hops, h, context, task, now)[id] == h[id]
    decreases |hops|
  {
    if hops != [] {
      ScanLeavesOthers(hops[1..], ScanOne(hops[0], h, context, task, now), context, task, now, id);
    }
  }

  lemma DisjointIds(def: Definition, k: nat, id: HopId)
    requires UniqueIds(def) && k <= |def| && id in Ids(def[..k])
    ensures id !in Ids(def[k..])
  {
    var x := FindHop(def[..k], id).value;
    var i :| 0 <= i < k && def[..k][i] == x;
    forall y | y in def[k..]
      ensures y.id != id
    {
      var j :| 0 <= j < |def| - k && def[k..][j] == y;
      assert def[i].id != def[k + j].id;
    }
    assert FindHop(def[k..], id).None?;
  }

  // ----- What the scan does -----

  /** The statuses seen when the k-th hop is examined: of the hops listed before it, those skipped by then are skipped. */
  ghost function Seen(def: Definition, h: Hops, h': Hops, k: nat): map<HopId, Status>
    requires k <= |def|
  {
    map id | id in h :: if id in Ids(def[..k]) && Is(h', id, Skipped) then Skipped else h[id].status
  }

  /** The status of `d` is one of the three final ones. */
  predicate Ended(seen: map<HopId, Status>, d: HopId) {
    d in seen && (seen[d] == Complete || seen[d] == Failed || seen[d] == Skipped)
  }

  /** The k-th hop is pending, all its predecessors have ended when it is examined, and its condition is false. */
  ghost predicate ConditionFails(def: Definition, h: Hops, h': Hops, context: Value, task: TaskMeta, k: nat)
    requires k < |def|
  {
    && Is(h, def[k].id, Pending) && def[k].condition.Some?
    && (forall d | d in def[k].dependsOn :: Ended(Seen(def, h, h', k), d))
    && !EvaluateCondition(def[k].condition.value, Context(context, Seen(def, h, h', k), task))
  }

  /** From `h` to `h'` exactly the hops whose condition failed have been skipped. */
  ghost predicate ConditionsApplied(def: Definition, h: Hops, h': Hops, context: Value, task: TaskMeta, now: Timestamp) {
    && h'.Keys == h.Keys
    && (forall id | id in h && id !in Ids(def) :: h'[id] == h[id])
    && forall k | 0 <= k < |def| && def[k].id in h ::
         h'[def[k].id] == if ConditionFails(def, h, h', context, task, k) then h[def[k].id].(status := Skipped, completedAt := Some(now))
                          else h[def[k].id]
  }

  lemma SeenIs(def: Definition, h: Hops, context: Value, task: TaskMeta, now: Timestamp, k: nat)
    requires UniqueIds(def) && k <= |def|
    ensures var hk := Scan(def[..k], h, context, task, now);
            var h' := Scan(def, h, context, task, now);
            && hk.Keys == h.Keys == h'.Keys && Statuses(hk) == Seen(def, h, h', k)
            && (forall id | id in h && id in Ids(def[..k]) :: hk[id] == h'[id])
            && (forall id | id in h && id !in Ids(def[..k]) :: hk[id] == h[id])
  {
    var hk := Scan(def[..k], h, context, task, now);
    var h' := Scan(def, h, context, task, now);
    ScanOnlySkips(def[..k], h, context, task, now);
    ScanOnlySkips(def, h, context, task, now);
    assert def == def[..k] + def[k..];
    ScanSplit(def[..k], def[k..], h, context, task, now);
    forall id | id in h
      ensures hk[id] == if id in Ids(def[..k]) then h'[id] else h[id]
    {
      if id in Ids(def[..k]) {
        DisjointIds(def, k, id);
        ScanLeavesOthers(def[k..], hk, context, task, now, id);
      } else {
        ScanLeavesOthers(def[..k], h, context, task, now, id);
      }
    }
    assert Statuses(hk).Keys == Seen(def, h, h', k).Keys;
  }

  lemma FailsIffSkips(def: Definition, h: Hops, hk: Hops, h': Hops, context: Value, task: TaskMeta, k: nat)
    requires k < |def| && hk.Keys == h.Keys && Statuses(hk) == Seen(def, h, h', k)
    requires def[k].id in h && hk[def[k].id] == h[def[k].id]
    ensures ConditionSkips(def[k], hk, context, task) <==> ConditionFails(def, h, h', context, task, k)
  {
    forall d
      ensures Terminal(hk, d) <==> Ended(Statuses(hk), d)
    {
    }
  }

  lemma ScanNext(def: Definition, h: Hops, context: Value, task: TaskMeta, now: Timestamp, k: nat)
    requires k < |def|
    ensures Scan(def[..k + 1], h, context, task, now) == ScanOne(def[k], Scan(def[..k], h, context, task, now), context, task, now)
  {
    var hk := Scan(def[..k], h, context, task, now);
    assert def[..k + 1] == def[..k] + [def[k]];
    ScanSplit(def[..k], [def[k]], h, context, task, now);
    assert Scan([def[k]], hk, context, task, now) == ScanOne(def[k], hk, context, task, now) by {
      assert [def[k]][1..] == [];
    }
  }

  lemma ExaminedIs(def: Definition, h: Hops, context: Value, task: TaskMeta, now: Timestamp, k: nat)
    requires UniqueIds(def) && k < |def| && def[k].id in h
    ensures var h' := Scan(def, h, context, task, now);
            && def[k].id in h'
            && h'[def[k].id] == if ConditionFails(def, h, h', context, task, k) then h[def[k].id].(status := Skipped, completedAt := Some(now))
                                else h[def[k].id]
  {
    var hk := Scan(def[..k], h, context, task, now);
    SeenIs(def, h, context, task, now, k);
    SeenIs(def, h, context, task, now, k + 1);
    FreshId(def, k);
    ScanNext(def, h, context, task, now, k);
    FailsIffSkips(def, h, hk, Scan(def, h, context, task, now), context, task, k);
  }

  /** The scan skips exactly the hops whose condition fails, each seeing the skips before it. */
  lemma {:induction false} ScanApplies(def: Definition, h: Hops, context: Value, task: TaskMeta, now: Timestamp)
    requires UniqueIds(def)
    ensures ConditionsApplied(def, h, Scan(def, h, context, task, now), context, task, now)
  {
    ScanOnlySkips(def, h, context, task, now);
    forall id | id in h && id !in Ids(def)
      ensures Scan(def, h, context, task, now)[id] == h[id]
    {
      ScanLeavesOthers(def, h, context, task, now, id);
    }
    forall k | 0 <= k < |def| && def[k].id in h
      ensures var h' := Scan(def, h, context, task, now);
              h'[def[k].id] == if ConditionFails(def, h, h', context, task, k) then h[def[k].id].(status := Skipped, completedAt := Some(now))
                               else h[def[k].id]
    {
      ExaminedIs(def, h, context, task, now, k);
    }
  }

  lemma {:induction false} AppliedSame(def: Definition, h: Hops, a: Hops, b: Hops, context: Value, task: TaskMeta, now: Timestamp, k: nat)
    requires UniqueIds(def) && ConditionsApplied(def, h, a, context, task, now) && ConditionsApplied(def, h, b, context, task, now)
    requires k <= |def|
    ensures forall id | id in h && id in Ids(def[..k]) :: a[id] == b[id]
  {
    if k > 0 {
      AppliedSame(def, h, a, b, context, task, now, k - 1);
      IdsStep(def, k - 1);
      assert Seen(def, h, a, k - 1) == Seen(def, h, b, k - 1);
      forall id | id in h && id in Ids(def[..k])
        ensures a[id] == b[id]
      {
        if id !in Ids(def[..k - 1]) {
          assert id == def[k - 1].id;
        }
      }
    }
  }

  /** These equations have one solution only: they say all there is to say about the scan. */
  lemma {:induction false} AppliedIsUnique(def: Definition, h: Hops, a: Hops, b: Hops, context: Value, task: TaskMeta, now: Timestamp)
    requires UniqueIds(def) && ConditionsApplied(def, h, a, context, task, now) && ConditionsApplied(def, h, b, context, task, now)
    ensures a == b
  {
    AppliedSame(def, h, a, b, context, task, now, |def|);
    assert def[..|def|] == def;
    forall id | id in h
      ensures a[id] == b[id]
    {
    }
  }

  // ----- What an evaluation does -----

  /** The join of a hop is met: some dependency is complete, or all are complete or skipped. */
  predicate Joined(h: Hops, hop: Hop) {
    && hop.dependsOn != []
    && match hop.joinType
       case Any => exists d | d in hop.dependsOn :: d in h && h[d].status == Complete
       case All => forall d | d in hop.dependsOn :: d in h && (h[d].status == Complete || h[d].status == Skipped)
  }

  /**
   * After a call, a hop still pending once the event and its cascade were in is skipped if its condition failed, else ready
   * if its join is met, else pending; every other hop is as it was then.
   */
  ghost predicate EvaluatedTo(def: Definition, h: Hops, event: HopEvent, h': Hops, task: TaskMeta, now: Timestamp)
    requires event.hopId in h && !event.outcome.Rejected?
  {
    var h2 := AfterCascade(def, h, event, now);
    && h'.Keys == h2.Keys == h.Keys
    && forall k | 0 <= k < |def| && def[k].id in h ::
         var id := def[k].id;
         h'[id] == if h2[id].status != Pending then h2[id]
                   else if ConditionFails(def, h2, h', BuildContext(h2, task), task, k) then h2[id].(status := Skipped, completedAt := Some(now))
                   else if Joined(h', def[k]) then h2[id].(status := Ready)
                   else h2[id]
  }

  lemma EvaluatedOne(def: Definition, h: Hops, event: HopEvent, task: TaskMeta, now: Timestamp, k: nat)
    requires UniqueIds(def) && event.hopId in h && !event.outcome.Rejected? && k < |def| && def[k].id in h
    ensures var h2 := AfterCascade(def, h, event, now);
            var h' := EvaluateNormal(def, h, event, task, now);
            var id := def[k].id;
            && id in h2 && id in h'
            && h'[id] == if h2[id].status != Pending then h2[id]
                         else if ConditionFails(def, h2, h', BuildContext(h2, task), task, k) then h2[id].(status := Skipped, completedAt := Some(now))
                         else if Joined(h', def[k]) then h2[id].(status := Ready)
                         else h2[id]
  {
    var h2 := AfterCascade(def, h, event, now);
    var h3 := AfterScan(def, h, event, task, now);
    NormalEffect(def, h, event, task, now);
    ReadySetIsPending(def, h3);
    assert def[k] in def;
    ExaminedIs(def, h2, BuildContext(h2, task), task, now, k);
    SeenAfterReadying(def, h2, h3, ReadySet(def, h3), k);
    JoinedIff(def, h3, def[k]);
  }

  lemma {:induction false} EvaluationLaw(def: Definition, h: Hops, event: HopEvent, task: TaskMeta, now: Timestamp)
    requires UniqueIds(def) && event.hopId in h && !event.outcome.Rejected?
    ensures EvaluatedTo(def, h, event, EvaluateNormal(def, h, event, task, now), task, now)
  {
    NormalEffect(def, h, event, task, now);
    forall k | 0 <= k < |def| && def[k].id in h
      ensures var h2 := AfterCascade(def, h, event, now);
              var h' := EvaluateNormal(def, h, event, task, now);
              var id := def[k].id;
              h'[id] == if h2[id].status != Pending then h2[id]
                        else if ConditionFails(def, h2, h', BuildContext(h2, task), task, k) then h2[id].(status := Skipped, completedAt := Some(now))
                        else if Joined(h', def[k]) then h2[id].(status := Ready)
                        else h2[id]
    {
      EvaluatedOne(def, h, event, task, now, k);
    }
  }

  /** Readying hops changes nothing that a condition sees. */
  lemma SeenAfterReadying(def: Definition, h: Hops, h3: Hops, ready: set<HopId>, k: nat)
    requires k <= |def| && forall id | id in ready && id in h3 :: Is(h3, id, Pending)
    ensures Seen(def, h, h3, k) == Seen(def, h, MarkReady(h3, ready), k)
  {
  }

  lemma JoinedIff(def: Definition, h: Hops, hop: Hop)
    requires UniqueIds(def) && hop in def
    ensures hop.id in ReadySet(def, h) <==> Is(h, hop.id, Pending) && Joined(MarkReady(h, ReadySet(def, h)), hop)
  {
    ReadySetHas(def, h, hop);
    ReadySetIsPending(def, h);
    ReadyingKeepsTerminal(h, ReadySet(def, h));
  }

  lemma ReadySetHas(def: Definition, h: Hops, hop: Hop)
    requires UniqueIds(def) && hop in def
    ensures hop.id in ReadySet(def, h) <==> BecomesReady(h, hop)
  {
    if hop.id in ReadySet(def, h) {
      var x :| x in def && BecomesReady(h, x) && x.id == hop.id;
      SameId(def, x, hop);
    }
  }

  /**
   * A hop with a condition whose predecessors have ended by the time the scan starts: its condition alone decides whether it
   * is skipped, and if it is true and the join is met the hop becomes ready.
   */
  lemma {:induction false} ConditionDecides(def: Definition, h: Hops, event: HopEvent, task: TaskMeta, now: Timestamp, k: nat)
    requires ValidDefinition(def) && Shaped(def, h) && event.hopId in h && !event.outcome.Rejected? && k < |def|
    requires var h2 := AfterCascade(def, h, event, now);
             && Is(h2, def[k].id, Pending) && def[k].condition.Some?
             && forall d | d in def[k].dependsOn :: Is(h2, d, Complete) || Is(h2, d, Failed) || Is(h2, d, Skipped)
    ensures var h2 := AfterCascade(def, h, event, now);
            var h' := EvaluateNormal(def, h, event, task, now);
            var holds := EvaluateCondition(def[k].condition.value, Context(BuildContext(h2, task), Seen(def, h2, h', k), task));
            && (Is(h', def[k].id, Skipped) <==> !holds)
            && (Is(h', def[k].id, Ready) <==> holds && Joined(h2, def[k]))
  {
    var h2 := AfterCascade(def, h, event, now);
    var h' := EvaluateNormal(def, h, event, task, now);
    assert def[k] in def;
    EvaluatedOne(def, h, event, task, now, k);
    NormalEffect(def, h, event, task, now);
    forall d | d in def[k].dependsOn
      ensures d in h' && h'[d] == h2[d]
    {
      EndedStays(def, h, event, task, now, d);
    }
  }

  lemma EndedStays(def: Definition, h: Hops, event: HopEvent, task: TaskMeta, now: Timestamp, d: HopId)
    requires ValidDefinition(def) && Shaped(def, h) && event.hopId in h && !event.outcome.Rejected?
    requires var h2 := AfterCascade(def, h, event, now); d in h2 && !Is(h2, d, Pending)
    ensures var h' := EvaluateNormal(def, h, event, task, now);
            d in h' && h'[d] == AfterCascade(def, h, event, now)[d]
  {
    NormalEffect(def, h, event, task, now);
    ReadySetIsPending(def, AfterScan(def, h, event, task, now));
  }

  // ----- The event and its cascade -----

  /** The event's hop takes the outcome, the time and the result; hops its cascade reaches are skipped; the rest stays. */
  lemma {:induction false} PrimaryLaw(def: Definition, h: Hops, event: HopEvent, now: Timestamp)
    requires event.hopId in h && !event.outcome.Rejected?
    ensures var h2 := AfterCascade(def, h, event, now);
            && h2.Keys == h.Keys
            && (event.outcome.Completed? ==>
                  h2 == h[event.hopId := h[event.hopId].(status := Complete, completedAt := Some(now), result := event.result)])
            && (event.outcome.Failing? ==>
                  CascadedFrom(def, h[event.hopId := h[event.hopId].(status := Failed, completedAt := Some(now), result := event.result)],
                               event.hopId, h2, now))
            && (event.outcome.Skipping? ==>
                  CascadedFrom(def, h[event.hopId := h[event.hopId].(status := Skipped, completedAt := Some(now), result := event.result)],
                               event.hopId, h2, now))
  {
    if !event.outcome.Completed? {
      CascadeLaw(def, ApplyPrimary(h, event, now), event.hopId, now);
    }
  }

  /** A set that a cascade from `start` does not leave: a pending hop that depends on it, and only on lost hops, is in it. */
  ghost predicate LossClosed(def: Definition, h: Hops, start: HopId, lost: set<HopId>) {
    forall hop | hop in def && Is(h, hop.id, Pending)
                 && (exists d :: d in hop.dependsOn && (d == start || d in lost))
                 && (forall d | d in hop.dependsOn :: d in lost || (d in h && (h[d].status == Failed || h[d].status == Skipped))) ::
      hop.id in lost
  }

  /** The least such set of pending hops is skipped. */
  ghost predicate CascadedFrom(def: Definition, h: Hops, start: HopId, h': Hops, now: Timestamp) {
    exists lost: set<HopId> ::
      && LossClosed(def, h, start, lost) && (forall other :: LossClosed(def, h, start, other) ==> lost <= other)
      && (forall id | id in lost :: Is(h, id, Pending))
      && h'.Keys == h.Keys
      && forall id | id in h :: h'[id] == if id in lost then h[id].(status := Skipped, completedAt := Some(now)) else h[id]
  }

  lemma ClosedIsLossClosed(def: Definition, h: Hops, start: HopId, S: set<HopId>)
    ensures Closed(def, h, start, S) <==> LossClosed(def, h, start, S)
  {
  }

  lemma CascadeLaw(def: Definition, h: Hops, start: HopId, now: Timestamp)
    ensures CascadedFrom(def, h, start, SkipAll(h, CascadeSet(def, h, start), now), now)
  {
    var lost := CascadeSet(def, h, start);
    CascadeSetIsLeast(def, h, start);
    forall S
      ensures Closed(def, h, start, S) <==> LossClosed(def, h, start, S)
    {
      ClosedIsLossClosed(def, h, start, S);
    }
    assert LossClosed(def, h, start, lost);
  }

  // ----- Rejections -----

  function NextCount(s: HopState): nat {
    match s.rejectionCount
    case None => 1
    case Some(n) => n + 1
  }

  /** A hop reset to a status: nothing else is kept but, on the rejected hop, the count. */
  function ResetTo(status: Status, count: Option<nat>): HopState {
    HopState(status, None, None, None, None, None, count, false)
  }

  /**
   * The third rejection fails the hop and cascades. Before that, "origin", which is also the default, resets every hop, roots
   * to ready; "predecessors" resets the hop and those it depends on, to ready when no dependency is reset or unfinished.
   */
  ghost predicate RejectedTo(def: Definition, h: Hops, r: Hop, h': Hops, now: Timestamp)
    requires r.id in h
  {
    var count := NextCount(h[r.id]);
    && h'.Keys == h.Keys
    && (count >= 3 ==>
          CascadedFrom(def, h[r.id := h[r.id].(status := Failed, completedAt := Some(now), rejectionCount := Some(count))], r.id, h', now))
    && (count < 3 && r.rejectionStrategy != Some(Predecessors) ==>
          forall x | x in def && x.id in h ::
            h'[x.id] == ResetTo(if x.dependsOn == [] then Ready else Pending, if x.id == r.id then Some(count) else None))
    && (count < 3 && r.rejectionStrategy == Some(Predecessors) ==>
          forall x | x in def && x.id in h ::
            h'[x.id] == if x.id == r.id || x.id in r.dependsOn then
                          ResetTo(if Restartable(h, r, x) then Ready else Pending, if x.id == r.id then Some(count) else None)
                        else h[x.id])
  }

  /** All dependencies of `x` are complete or skipped, and none is the rejected hop or one of its dependencies. */
  predicate Restartable(h: Hops, r: Hop, x: Hop) {
    forall d | d in x.dependsOn ::
      d != r.id && d !in r.dependsOn && d in h && (h[d].status == Complete || h[d].status == Skipped)
  }

  lemma OriginResets(def: Definition, h: Hops, r: Hop, now: Timestamp, x: Hop)
    requires ValidDefinition(def) && Shaped(def, h) && r in def && x in def
    requires NextCount(h[r.id]) < 3 && r.rejectionStrategy != Some(Predecessors)
    ensures var h' := EvaluateRejection(def, h, r, now);
            && h'.Keys == h.Keys && x.id in h'
            && h'[x.id] == ResetTo(if x.dependsOn == [] then Ready else Pending, if x.id == r.id then Some(NextCount(h[r.id])) else None)
  {
    assert CountAfter(h, r.id) == NextCount(h[r.id]);
    OriginEffect(def, h, r.id, CountAfter(h, r.id), x);
  }

  lemma PredecessorsReset(def: Definition, h: Hops, r: Hop, now: Timestamp, x: Hop)
    requires ValidDefinition(def) && Shaped(def, h) && r in def && x in def
    requires NextCount(h[r.id]) < 3 && r.rejectionStrategy == Some(Predecessors)
    ensures var h' := EvaluateRejection(def, h, r, now);
            && h'.Keys == h.Keys && x.id in h'
            && h'[x.id] == if x.id == r.id || x.id in r.dependsOn then
                             ResetTo(if Restartable(h, r, x) then Ready else Pending, if x.id == r.id then Some(NextCount(h[r.id])) else None)
                           else h[x.id]
  {
    assert CountAfter(h, r.id) == NextCount(h[r.id]);
    PredecessorsEffect(def, h, r, CountAfter(h, r.id), x);
    assert OutsideSatisfied(h, x, ResetSet(r)) <==> Restartable(h, r, x);
  }

  lemma BreakerTrips(def: Definition, h: Hops, r: Hop, now: Timestamp)
    requires ValidDefinition(def) && Shaped(def, h) && r in def && NextCount(h[r.id]) >= 3
    ensures var h' := EvaluateRejection(def, h, r, now);
            && h'.Keys == h.Keys
            && CascadedFrom(def, h[r.id := h[r.id].(status := Failed, completedAt := Some(now), rejectionCount := Some(NextCount(h[r.id])))],
                            r.id, h', now)
  {
    assert CountAfter(h, r.id) == NextCount(h[r.id]);
    CascadeLaw(def, h[r.id := h[r.id].(status := Failed, completedAt := Some(now), rejectionCount := Some(NextCount(h[r.id])))], r.id, now);
  }

  lemma {:induction false} RejectionLaw(def: Definition, h: Hops, r: Hop, now: Timestamp)
    requires ValidDefinition(def) && Shaped(def, h) && r in def
    ensures RejectedTo(def, h, r, EvaluateRejection(def, h, r, now), now)
  {
    var h' := EvaluateRejection(def, h, r, now);
    var count := NextCount(h[r.id]);
    if count >= 3 {
      BreakerTrips(def, h, r, now);
    } else if r.rejectionStrategy != Some(Predecessors) {
      OriginResets(def, h, r, now, r);
      forall x | x in def && x.id in h
        ensures h'[x.id] == ResetTo(if x.dependsOn == [] then Ready else Pending, if x.id == r.id then Some(count) else None)
      {
        OriginResets(def, h, r, now, x);
      }
    } else {
      PredecessorsReset(def, h, r, now, r);
      forall x | x in def && x.id in h
        ensures h'[x.id] == if x.id == r.id || x.id in r.dependsOn then
                              ResetTo(if Restartable(h, r, x) then Ready else Pending, if x.id == r.id then Some(count) else None)
                            else h[x.id]
      {
        PredecessorsReset(def, h, r, now, x);
      }
    }
  }

  // ----- The reported hops -----

  /** The definition lists the hop `a` before the hop `b`. */
  ghost predicate Before(def: Definition, a: HopId, b: HopId) {
    exists i, j | 0 <= i < j < |def| :: def[i].id == a && def[j].id == b
  }

  lemma BeforeInMore(def: Definition, n: nat, a: HopId, b: HopId)
    requires n <= |def| && Before(def[..n], a, b)
    ensures Before(def, a, b)
  {
    var i, j :| 0 <= i < j < n && def[..n][i].id == a && def[..n][j].id == b;
    assert def[i].id == a && def[j].id == b;
  }

  lemma BeforeLast(def: Definition, a: HopId)
    requires def != [] && a in Ids(def[..|def| - 1])
    ensures Before(def, a, def[|def| - 1].id)
  {
    var hop := FindHop(def[..|def| - 1], a).value;
    var i :| 0 <= i < |def| - 1 && def[..|def| - 1][i] == hop;
    assert def[i].id == a;
  }

  /** From the n-th on, the list holds hops of the definition in its order. */
  ghost predicate Ordered(def: Definition, list: seq<HopId>, n: nat) {
    && (forall i | n <= i < |list| :: list[i] in Ids(def))
    && forall i, j | n <= i < j < |list| :: Before(def, list[i], list[j])
  }

  lemma OrderedOneMore(def: Definition, list: seq<HopId>, n: nat, more: seq<HopId>)
    requires def != [] && Ordered(def[..|def| - 1], list, n) && n <= |list|
    requires more == [] || more == [def[|def| - 1].id]
    ensures Ordered(def, list + more, n)
  {
    var all := list + more;
    IdsStep(def, |def| - 1);
    assert def[..|def|] == def;
    forall i, j | n <= i < j < |all|
      ensures Before(def, all[i], all[j])
    {
      if j < |list| {
        BeforeInMore(def, |def| - 1, all[i], all[j]);
      } else {
        BeforeLast(def, all[i]);
      }
    }
  }

  lemma {:induction false} ReadyListOrdered(def: Definition, h: Hops)
    ensures Ordered(def, ReadyList(def, h), 0)
  {
    if def != [] {
      var hop := def[|def| - 1];
      ReadyListOrdered(def[..|def| - 1], h);
      OrderedOneMore(def, ReadyList(def[..|def| - 1], h), 0, if BecomesReady(h, hop) then [hop.id] else []);
    }
  }

  lemma {:induction false} WithReadyOrdered(def: Definition, h: Hops, listed: seq<HopId>)
    ensures var list := WithReady(def, h, listed);
            listed <= list && Ordered(def, list, |listed|) && forall i | |listed| <= i < |list| :: Is(h, list[i], Ready)
  {
    if def != [] {
      var hop := def[|def| - 1];
      var before := WithReady(def[..|def| - 1], h, listed);
      WithReadyOrdered(def[..|def| - 1], h, listed);
      OrderedOneMore(def, before, |listed|, if Is(h, hop.id, Ready) && hop.id !in before then [hop.id] else []);
      assert before + [] == before;
    }
  }

  /**
   * Reported are the hops this call made ready; after a rejection, the pending hops whose join is met, then those that are
   * ready. Each part is in definition order, and nothing is listed twice.
   */
  ghost predicate ReadyHopsAre(def: Definition, h: Hops, rejection: bool, h': Hops, list: seq<HopId>) {
    && (forall i, j | 0 <= i < j < |list| :: list[i] != list[j])
    && if rejection then
         && (forall id :: id in list <==> Is(h', id, Ready) || exists x | x in def :: x.id == id && Is(h', id, Pending) && Joined(h', x))
         && exists n | 0 <= n <= |list| ::
              && (forall i | 0 <= i < |list| :: Is(h', list[i], Pending) <==> i < n)
              && Ordered(def, list[..n], 0) && Ordered(def, list, n)
       else
         && (forall id :: id in list <==> Is(h', id, Ready) && Is(h, id, Pending))
         && Ordered(def, list, 0)
  }

  lemma NormalReports(def: Definition, h: Hops, event: HopEvent, task: TaskMeta, now: Timestamp)
    requires ValidDefinition(def) && Shaped(def, h) && event.hopId in h && !event.outcome.Rejected?
    ensures ReadyHopsAre(def, h, false, EvaluateNormal(def, h, event, task, now), ReadyList(def, AfterScan(def, h, event, task, now)))
  {
    var h3 := AfterScan(def, h, event, task, now);
    var h' := EvaluateNormal(def, h, event, task, now);
    NormalEffect(def, h, event, task, now);
    ReadyListIsReadySet(def, h3);
    ReadyListIsDistinct(def, h3);
    ReadyListOrdered(def, h3);
    ReadySetIsPending(def, h3);
    forall id
      ensures id in ReadySet(def, h3) <==> Is(h', id, Ready) && Is(h, id, Pending)
    {
    }
  }

  lemma StartableIs(def: Definition, h: Hops, id: HopId)
    ensures id in ReadySet(def, h) <==> exists x | x in def :: x.id == id && Is(h, id, Pending) && Joined(h, x)
  {
    if x :| x in def && BecomesReady(h, x) && x.id == id {
      assert Joined(h, x);
    }
    if x :| x in def && x.id == id && Is(h, id, Pending) && Joined(h, x) {
      assert BecomesReady(h, x);
    }
  }

  lemma RejectionReports(def: Definition, h: Hops, h': Hops)
    requires ValidDefinition(def) && Shaped(def, h')
    ensures ReadyHopsAre(def, h, true, h', WithReady(def, h', ReadyList(def, h')))
  {
    var startable := ReadyList(def, h');
    var list := WithReady(def, h', startable);
    ReadyListIsReadySet(def, h');
    ReadyListIsDistinct(def, h');
    ReadyListOrdered(def, h');
    ReadySetIsPending(def, h');
    WithReadyAdds(def, h', startable);
    WithReadyIsDistinct(def, h', startable);
    WithReadyOrdered(def, h', startable);
    forall id
      ensures id in list <==> Is(h', id, Ready) || exists x | x in def :: x.id == id && Is(h', id, Pending) && Joined(h', x)
    {
      StartableIs(def, h', id);
    }
    forall i | 0 <= i < |list|
      ensures Is(h', list[i], Pending) <==> i < |startable|
    {
      assert i < |startable| ==> list[i] == startable[i] && startable[i] in startable;
    }
    assert list[..|startable|] == startable;
  }

  lemma {:induction false} ReportsLaw(def: Definition, h: Hops, event: HopEvent, task: TaskMeta, now: Timestamp)
    requires ValidDefinition(def) && Shaped(def, h) && event.hopId in h
    ensures ReadyHopsAre(def, h, event.outcome.Rejected?, Evaluate(def, h, event, task, now), ReportedList(def, h, event, task, now))
  {
    if event.outcome.Rejected? {
      EvaluateKeepsShape(def, h, event, task, now);
      RejectionReports(def, h, Evaluate(def, h, event, task, now));
    } else {
      NormalReports(def, h, event, task, now);
    }
  }

  // ----- The workflow's status -----

  /** No status while some hop has not ended; then failed if some hop failed, else complete. */
  lemma {:induction false} StatusLaw(h: Hops)
    ensures DagStatus(h).None? <==> exists id :: id in h && (h[id].status == Pending || h[id].status == Ready || h[id].status == Dispatched)
    ensures DagStatus(h) == Some(WfFailed) ==> exists id :: id in h && h[id].status == Failed
    ensures DagStatus(h) == Some(WfComplete) ==> forall id | id in h :: h[id].status == Complete || h[id].status == Skipped
    ensures DagStatus(h) != Some(WfPending) && DagStatus(h) != Some(WfRunning)
  {
    if id :| id in h && (h[id].status == Pending || h[id].status == Ready || h[id].status == Dispatched) {
      assert !Terminal(h, id);
    }
  }
}
