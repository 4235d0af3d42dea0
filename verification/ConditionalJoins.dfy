/** When an AND-join with a condition may become ready. */
module ConditionalJoins {
  import opened Wrappers
  import opened Conditions
  import opened Workflow
  import opened DagSemantics
  import opened DagFacts
  import opened DagSteps
  import opened EvaluationLaws

  /** The dependencies of the k-th hop that carry a condition are listed before it. */
  ghost predicate ScannedBefore(def: Definition, k: nat)
    requires k < |def|
  {
    forall x | x in def && x.id in def[k].dependsOn && x.condition.Some? :: x.id in Ids(def[..k])
  }

  /** The state in which the scan reaches the k-th hop. */
  ghost function ReachedAt(def: Definition, h: Hops, event: HopEvent, task: TaskMeta, now: Timestamp, k: nat): Hops
    requires event.hopId in h && !event.outcome.Rejected? && k <= |def|
  {
    var h2 := AfterCascade(def, h, event, now);
    Scan(def[..k], h2, BuildContext(h2, task), task, now)
  }

  /** Hops scanned before the k-th one are final when the scan reaches it. */
  lemma EarlierAreFinal(def: Definition, h: Hops, event: HopEvent, task: TaskMeta, now: Timestamp, k: nat, id: HopId)
    requires UniqueIds(def) && event.hopId in h && !event.outcome.Rejected? && k <= |def|
    requires id in h && id in Ids(def[..k])
    ensures var hk := ReachedAt(def, h, event, task, now, k);
            var h3 := AfterScan(def, h, event, task, now);
            id in hk && id in h3 && hk[id] == h3[id]
  {
    var h2 := AfterCascade(def, h, event, now);
    var hk := ReachedAt(def, h, event, task, now, k);
    var context := BuildContext(h2, task);
    assert def == def[..k] + def[k..];
    ScanSplit(def[..k], def[k..], h2, context, task, now);
    NormalEffect(def, h, event, task, now);
    ScanOnlySkips(def[..k], h2, context, task, now);
    DisjointIds(def, k, id);
    ScanLeavesOthers(def[k..], hk, context, task, now, id);
  }

  /** A hop still pending after the scan was not skipped when the scan reached it. */
  lemma SurvivesScan(def: Definition, h: Hops, event: HopEvent, task: TaskMeta, now: Timestamp, k: nat)
    requires event.hopId in h && !event.outcome.Rejected? && k < |def|
    requires Is(AfterScan(def, h, event, task, now), def[k].id, Pending)
    ensures var h2 := AfterCascade(def, h, event, now);
            var hk := ReachedAt(def, h, event, task, now, k);
            Is(hk, def[k].id, Pending) && !ConditionSkips(def[k], hk, BuildContext(h2, task), task)
  {
    var h2 := AfterCascade(def, h, event, now);
    var hk := ReachedAt(def, h, event, task, now, k);
    var context := BuildContext(h2, task);
    assert def == def[..k] + def[k..] && def[k..][0] == def[k];
    ScanSplit(def[..k], def[k..], h2, context, task, now);
    ScanOnlySkips(def[k..], hk, context, task, now);
    ScanOnlySkips(def[k..][1..], ScanOne(def[k], hk, context, task, now), context, task, now);
  }

  /** A hop without a condition keeps its state through the whole scan. */
  lemma UnconditionedAreFinal(def: Definition, h: Hops, event: HopEvent, task: TaskMeta, now: Timestamp, k: nat, x: Hop)
    requires UniqueIds(def) && event.hopId in h && !event.outcome.Rejected? && k <= |def|
    requires x in def && x.condition.None? && x.id in h
    ensures var hk := ReachedAt(def, h, event, task, now, k);
            var h3 := AfterScan(def, h, event, task, now);
            x.id in hk && x.id in h3 && hk[x.id] == h3[x.id]
  {
    var h2 := AfterCascade(def, h, event, now);
    forall hop | hop in def && hop.id == x.id
      ensures hop.condition.None?
    {
      SameId(def, hop, x);
    }
    NormalEffect(def, h, event, task, now);
    ScanLeavesUnconditioned(def, h2, BuildContext(h2, task), task, now, x.id);
    ScanLeavesUnconditioned(def[..k], h2, BuildContext(h2, task), task, now, x.id);
  }

  /** The hops `def[k]` depends on that are still pending once the event and its skips are in are listed before it. */
  ghost predicate PendingListedBefore(def: Definition, h: Hops, event: HopEvent, now: Timestamp, k: nat)
    requires event.hopId in h && !event.outcome.Rejected? && k < |def|
  {
    forall d | d in def[k].dependsOn && Is(AfterCascade(def, h, event, now), d, Pending) :: d in Ids(def[..k])
  }

  /** What is still pending then can be told from the state before the call; a completion skips nothing. */
  lemma {:induction false} PendingAfterCascade(def: Definition, h: Hops, event: HopEvent, now: Timestamp, d: HopId)
    requires event.hopId in h && !event.outcome.Rejected?
    ensures Is(AfterCascade(def, h, event, now), d, Pending)
       <==> (&& d != event.hopId && Is(h, d, Pending)
             && (event.outcome.Completed? || d !in CascadeSet(def, ApplyPrimary(h, event, now), event.hopId)))
  {
  }

  lemma PendingStaysUnlessListed(def: Definition, h: Hops, event: HopEvent, task: TaskMeta, now: Timestamp, k: nat, d: HopId)
    requires event.hopId in h && !event.outcome.Rejected? && k <= |def| && d !in Ids(def[..k])
    requires Is(AfterCascade(def, h, event, now), d, Pending)
    ensures Is(ReachedAt(def, h, event, task, now, k), d, Pending)
  {
    var h2 := AfterCascade(def, h, event, now);
    ScanLeavesOthers(def[..k], h2, BuildContext(h2, task), task, now, d);
  }

  /** What is no longer pending when the scan starts is final. */
  lemma NotPendingIsFinal(def: Definition, h: Hops, event: HopEvent, task: TaskMeta, now: Timestamp, k: nat, d: HopId)
    requires event.hopId in h && !event.outcome.Rejected? && k <= |def| && d in h
    requires !Is(AfterCascade(def, h, event, now), d, Pending)
    ensures var hk := ReachedAt(def, h, event, task, now, k);
            var h3 := AfterScan(def, h, event, task, now);
            d in hk && d in h3 && hk[d] == h3[d]
  {
    var h2 := AfterCascade(def, h, event, now);
    NormalEffect(def, h, event, task, now);
    ScanOnlySkips(def[..k], h2, BuildContext(h2, task), task, now);
  }

  /**
   * When an AND-join with a condition becomes ready in a call: in that call the condition was evaluated, with all its
   * predecessors terminal, and was true, if and only if no predecessor still to be scanned was pending as the scan began.
   */
  lemma ConditionHeldIff(def: Definition, h: Hops, event: HopEvent, task: TaskMeta, now: Timestamp, k: nat)
    requires ValidDefinition(def) && Shaped(def, h) && event.hopId in h && !event.outcome.Rejected?
    requires k < |def| && def[k].joinType == All && def[k].condition.Some?
    requires def[k].id != event.hopId && Is(h, def[k].id, Pending)
    requires Is(EvaluateNormal(def, h, event, task, now), def[k].id, Ready)
    ensures var h2 := AfterCascade(def, h, event, now);
            var hk := ReachedAt(def, h, event, task, now, k);
            AllTerminal(hk, def[k]) && ConditionHolds(def[k], hk, BuildContext(h2, task), task)
            <==> PendingListedBefore(def, h, event, now, k)
  {
    var hop := def[k];
    var h2 := AfterCascade(def, h, event, now);
    var hk := ReachedAt(def, h, event, task, now, k);
    NormalMovesPending(def, h, event, task, now, hop);
    SurvivesScan(def, h, event, task, now, k);
    if PendingListedBefore(def, h, event, now, k) {
      forall d | d in hop.dependsOn
        ensures Terminal(hk, d)
      {
        assert Satisfied(AfterScan(def, h, event, task, now), d);
        if Is(h2, d, Pending) {
          EarlierAreFinal(def, h, event, task, now, k, d);
        } else {
          NotPendingIsFinal(def, h, event, task, now, k, d);
        }
      }
    } else {
      var d :| d in hop.dependsOn && Is(h2, d, Pending) && d !in Ids(def[..k]);
      PendingStaysUnlessListed(def, h, event, task, now, k, d);
      assert !Terminal(hk, d);
    }
  }

  /** In particular it was, when the dependencies with conditions are listed before the hop. */
  lemma ReadiedOnlyWhenConditionHeld(def: Definition, h: Hops, event: HopEvent, task: TaskMeta, now: Timestamp, k: nat)
    requires ValidDefinition(def) && Shaped(def, h) && event.hopId in h && !event.outcome.Rejected?
    requires k < |def| && ScannedBefore(def, k) && def[k].joinType == All && def[k].condition.Some?
    requires def[k].id != event.hopId && Is(h, def[k].id, Pending)
    requires Is(EvaluateNormal(def, h, event, task, now), def[k].id, Ready)
    ensures var h2 := AfterCascade(def, h, event, now);
            var hk := ReachedAt(def, h, event, task, now, k);
            AllTerminal(hk, def[k]) && ConditionHolds(def[k], hk, BuildContext(h2, task), task)
  {
    var h2 := AfterCascade(def, h, event, now);
    NormalMovesPending(def, h, event, task, now, def[k]);
    forall d | d in def[k].dependsOn && Is(h2, d, Pending)
      ensures d in Ids(def[..k])
    {
      assert Satisfied(AfterScan(def, h, event, task, now), d);
      var x := FindHop(def, d).value;
      if x.condition.None? {
        UnconditionedAreFinal(def, h, event, task, now, 0, x);
      }
    }
    ConditionHeldIff(def, h, event, task, now, k);
  }

  // ----- Out of order -----

  /** "c" waits for "b" alone, which waits for the root "a", and they are listed in the wrong order; both conditions are false. */
  ghost predicate OutOfOrder(def: Definition, c: Hop, b: Hop, a: Hop) {
    && def == [c, b, a] && UniqueIds(def)
    && c.dependsOn == [b.id] && b.dependsOn == [a.id] && Root(a) && c.joinType == All
    && c.condition == Some(False) && b.condition == Some(False) && a.condition.None?
  }

  lemma OutOfOrderIsValid(def: Definition, c: Hop, b: Hop, a: Hop)
    requires OutOfOrder(def, c, b, a)
    ensures ValidDefinition(def) && c in def && b in def && a in def && c.id != b.id && c.id != a.id && b.id != a.id
  {
    assert def[0].id != def[1].id && def[0].id != def[2].id && def[1].id != def[2].id;
    assert c in def && b in def && a in def;
  }

  lemma ScanThree(x: Hop, y: Hop, z: Hop, h: Hops, context: Value, task: TaskMeta)
    ensures Scan([x, y, z], h, context, task, 0)
         == ScanOne(z, ScanOne(y, ScanOne(x, h, context, task, 0), context, task, 0), context, task, 0)
  {
    var h1 := ScanOne(x, h, context, task, 0);
    var h2 := ScanOne(y, h1, context, task, 0);
    assert Scan([z], h2, context, task, 0) == ScanOne(z, h2, context, task, 0) by {
      assert [z][1..] == [];
    }
    assert Scan([y, z], h1, context, task, 0) == Scan([z], h2, context, task, 0) by {
      assert [y, z][1..] == [z];
    }
    assert [x, y, z][1..] == [y, z];
  }

  /** When "a" completes, "c" is scanned while "b" is pending, then "b" is skipped, and that readies "c". */
  lemma OutOfOrderCall(def: Definition, c: Hop, b: Hop, a: Hop, h: Hops, task: TaskMeta)
    requires OutOfOrder(def, c, b, a) && ValidDefinition(def) && c in def && b in def && a in def
    requires Shaped(def, h) && Is(h, a.id, Dispatched) && Is(h, b.id, Pending) && Is(h, c.id, Pending)
    ensures Is(EvaluateNormal(def, h, HopEvent(a.id, Completed, None), task, 0), c.id, Ready)
  {
    var h2 := AfterCascade(def, h, HopEvent(a.id, Completed, None), 0);
    var context := BuildContext(h2, task);
    assert b.id in c.dependsOn && !Terminal(h2, b.id);
    var h3 := ScanOne(b, h2, context, task, 0);
    ScanThree(c, b, a, h2, context, task);
    assert BecomesReady(h3, c);
  }

  /** In the initial state "a" can be dispatched while the others wait. */
  lemma OutOfOrderStart(def: Definition, c: Hop, b: Hop, a: Hop)
    requires OutOfOrder(def, c, b, a) && ValidDefinition(def) && c in def && b in def && a in def
    ensures var h := InitialState(def);
            var s := Dispatch(a.id, h, "", 0);
            && Enabled(def, h, s)
            && var h' := Take(def, h, s);
               && Shaped(def, h') && Is(h', a.id, Dispatched) && Is(h', b.id, Pending) && Is(h', c.id, Pending)
               && FindDispatched(def, h') == Some(a.id)
  {
    InitialStatus(def, c);
    InitialStatus(def, b);
    InitialStatus(def, a);
    OutOfOrderIsValid(def, c, b, a);
    InitiallyNoneDispatched(def);
    Launch(def, InitialState(def), a.id);
  }

  /**
   * Listed out of order, a hop whose condition is always false becomes ready: in the run that dispatches "a" and completes
   * it, "c" is scanned before its predecessor "b" is skipped.
   */
  lemma ConditionIgnoredOutOfOrder(def: Definition, c: Hop, b: Hop, a: Hop, task: TaskMeta)
    requires OutOfOrder(def, c, b, a) && ValidDefinition(def)
    ensures var h := InitialState(def);
            var steps := [Dispatch(a.id, h, "", 0), Report(Done, None, task, 0, None)];
            && Legal(def, h, steps) && UpToDate(def, h, steps)
            && Is(Final(def, h, steps), c.id, Ready) && c.condition == Some(False)
  {
    OutOfOrderIsValid(def, c, b, a);
    OutOfOrderStart(def, c, b, a);
    var h := InitialState(def);
    var s, t := Dispatch(a.id, h, "", 0), Report(Done, None, task, 0, None);
    OutOfOrderCall(def, c, b, a, Take(def, h, s), task);
    DispatchAndReport(def, h, s, t);
  }

  // ----- True and false conditions -----

  /** The k-th hop follows the root `a` alone, and its condition is a constant. */
  ghost predicate ConstantFollower(def: Definition, a: Hop, k: nat, c: Expr) {
    && ValidDefinition(def) && a in def && Root(a) && k < |def|
    && def[k].dependsOn == [a.id] && def[k].condition == Some(c) && (c == True || c == False)
  }

  lemma ConstantDecides(def: Definition, a: Hop, k: nat, c: Expr, h: Hops, task: TaskMeta)
    requires ConstantFollower(def, a, k, c) && Shaped(def, h) && Is(h, a.id, Dispatched) && Is(h, def[k].id, Pending)
    ensures Is(EvaluateNormal(def, h, HopEvent(a.id, Completed, None), task, 0), def[k].id, if c == True then Ready else Skipped)
  {
    ConditionDecides(def, h, HopEvent(a.id, Completed, None), task, 0, k);
  }

  lemma ConstantStart(def: Definition, a: Hop, k: nat, c: Expr)
    requires ConstantFollower(def, a, k, c)
    ensures var h := InitialState(def);
            var s := Dispatch(a.id, h, "", 0);
            && Enabled(def, h, s)
            && var h' := Take(def, h, s);
               Shaped(def, h') && Is(h', a.id, Dispatched) && Is(h', def[k].id, Pending) && FindDispatched(def, h') == Some(a.id)
  {
    assert def[k] in def;
    InitialStatus(def, a);
    InitialStatus(def, def[k]);
    InitiallyNoneDispatched(def);
    Launch(def, InitialState(def), a.id);
  }

  /** When the root completes, its follower becomes ready if its condition is true, and is skipped if it is false. */
  lemma {:induction false} ConditionDecidesRun(def: Definition, a: Hop, k: nat, c: Expr, task: TaskMeta)
    requires ConstantFollower(def, a, k, c)
    ensures var h := InitialState(def);
            var steps := [Dispatch(a.id, h, "", 0), Report(Done, None, task, 0, None)];
            && Legal(def, h, steps) && UpToDate(def, h, steps)
            && Is(Final(def, h, steps), def[k].id, if c == True then Ready else Skipped)
  {
    ConstantStart(def, a, k, c);
    var h := InitialState(def);
    var s, t := Dispatch(a.id, h, "", 0), Report(Done, None, task, 0, None);
    ConstantDecides(def, a, k, c, Take(def, h, s), task);
    DispatchAndReport(def, h, s, t);
  }
}
