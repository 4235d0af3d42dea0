/** Which steps can stall a workflow, and when the stall has a cause in the workflow itself. */
module Stalls {
  import opened Wrappers
  import opened Conditions
  import opened Workflow
  import opened DagSemantics
  import opened DagFacts
  import opened DagSteps
  import opened DagHandlers
  import opened Progress

  // ----- Rejections that can leave a startable hop pending -----

  /** The step reports a rejection by `rejected`. */
  ghost predicate Rejects(def: Definition, h: Hops, step: Step, rejected: Hop)
    requires ValidDefinition(def) && Shaped(def, h) && Enabled(def, h, step)
  {
    && step.Report? && FindHop(def, FindDispatched(def, h).value) == Some(rejected)
    && ReportEvent(def, rejected.id, step.run, step.result).outcome.Rejected?
  }

  predicate TripsBreaker(h: Hops, rejected: Hop) {
    rejected.id in h && CountAfter(h, rejected.id) >= DEFAULT_MAX_REJECTIONS
  }

  predicate NoneReady(h: Hops) {
    forall id | id in h :: !Is(h, id, Ready)
  }

  /** The state in which the circuit breaker starts its cascade. */
  function Broken(h: Hops, id: HopId, now: Timestamp): Hops
    requires id in h
  {
    h[id := h[id].(status := Failed, completedAt := Some(now), rejectionCount := Some(CountAfter(h, id)))]
  }

  lemma FollowIsNoStall(def: Definition, h: Hops, step: Step)
    requires ValidDefinition(def) && Shaped(def, h) && Enabled(def, h, step) && step.Report? && step.follow.Some?
    ensures !Stalled(Take(def, h, step))
  {
    ReportedIsDefined(def, h, step);
    assert Is(Take(def, h, step), step.follow.value.hopId, Dispatched);
  }

  /** The circuit breaker stalls the workflow exactly when no hop was ready, some pending hop escapes its cascade, and no reported hop is dispatched at once. */
  lemma {:induction false} BreakerStallsIff(def: Definition, h: Hops, step: Step, rejected: Hop)
    requires ValidDefinition(def) && Shaped(def, h) && AtMostOneDispatched(h) && Enabled(def, h, step)
    requires Rejects(def, h, step, rejected) && TripsBreaker(h, rejected)
    ensures Stalled(Take(def, h, step))
       <==> (&& step.follow.None? && NoneReady(h)
             && exists id :: Is(h, id, Pending) && id !in CascadeSet(def, Broken(h, rejected.id, step.now), rejected.id))
  {
    if step.follow.Some? {
      FollowIsNoStall(def, h, step);
    } else {
      BreakerOutcome(def, h, rejected, step.now);
    }
  }

  lemma BreakerOutcome(def: Definition, h: Hops, rejected: Hop, now: Timestamp)
    requires ValidDefinition(def) && Shaped(def, h) && AtMostOneDispatched(h) && rejected in def
    requires Is(h, rejected.id, Dispatched) && TripsBreaker(h, rejected)
    ensures Stalled(EvaluateRejection(def, h, rejected, now))
       <==> NoneReady(h) && exists id :: Is(h, id, Pending) && id !in CascadeSet(def, Broken(h, rejected.id, now), rejected.id)
  {
    var C := CascadeSet(def, Broken(h, rejected.id, now), rejected.id);
    var h' := EvaluateRejection(def, h, rejected, now);
    CascadeSetIsLeast(def, Broken(h, rejected.id, now), rejected.id);
    forall id | id in h
      ensures Is(h', id, Ready) <==> Is(h, id, Ready)
      ensures !Is(h', id, Dispatched)
      ensures Is(h', id, Pending) <==> Is(h, id, Pending) && id !in C
    {
      if id != rejected.id {
        assert !Is(h, id, Dispatched);
      }
    }
    assert NoneReady(h) ==> forall id | id in h' :: h'[id].status != Ready && h'[id].status != Dispatched;
    if id :| Is(h, id, Pending) && id !in C {
      assert !Terminal(h', id);
    }
  }

  /** A "predecessors" rejection stalls the workflow exactly when no hop outside the reset was ready, none inside is, and no reported hop is dispatched at once. */
  lemma {:induction false} PredecessorsStallIff(def: Definition, h: Hops, step: Step, rejected: Hop)
    requires ValidDefinition(def) && Shaped(def, h) && AtMostOneDispatched(h) && Enabled(def, h, step)
    requires Rejects(def, h, step, rejected) && !TripsBreaker(h, rejected) && rejected.rejectionStrategy == Some(Predecessors)
    ensures Stalled(Take(def, h, step))
       <==> (&& step.follow.None?
             && (forall id | Is(h, id, Ready) :: id in ResetSet(rejected))
             && forall hop | hop in def && hop.id in ResetSet(rejected) :: !OutsideSatisfied(h, hop, ResetSet(rejected)))
  {
    if step.follow.Some? {
      FollowIsNoStall(def, h, step);
    } else {
      PredecessorsOutcome(def, h, rejected);
    }
  }

  lemma PredecessorsOutcome(def: Definition, h: Hops, rejected: Hop)
    requires ValidDefinition(def) && Shaped(def, h) && AtMostOneDispatched(h) && rejected in def
    requires Is(h, rejected.id, Dispatched)
    ensures var reset := ResetSet(rejected);
            Stalled(ResetPredecessors(def, h, rejected, CountAfter(h, rejected.id)))
            <==> (&& (forall id | Is(h, id, Ready) :: id in reset)
                  && forall hop | hop in def && hop.id in reset :: !OutsideSatisfied(h, hop, reset))
  {
    var reset := ResetSet(rejected);
    var count := CountAfter(h, rejected.id);
    var h' := ResetPredecessors(def, h, rejected, count);
    forall hop | hop in def
      ensures Is(h', hop.id, Ready) <==> if hop.id in reset then OutsideSatisfied(h, hop, reset) else Is(h, hop.id, Ready)
      ensures !Is(h', hop.id, Dispatched)
    {
      PredecessorsEffect(def, h, rejected, count, hop);
      if hop.id != rejected.id {
        assert !Is(h, hop.id, Dispatched);
      }
    }
    PredecessorsEffect(def, h, rejected, count, rejected);
    assert Is(h', rejected.id, Pending) || Is(h', rejected.id, Ready);
    assert Stalled(h') <==> forall hop | hop in def :: !Is(h', hop.id, Ready) by {
      StalledByHops(def, h', rejected);
    }
    assert (forall id | Is(h, id, Ready) :: id in reset) <==> forall hop | hop in def && Is(h, hop.id, Ready) :: hop.id in reset by {
      forall id | id in h
        ensures FindHop(def, id).value in def
      {
      }
    }
  }

  /** With nothing in flight and some hop unfinished, a workflow is stalled unless a hop is ready. */
  lemma StalledByHops(def: Definition, h: Hops, open: Hop)
    requires Shaped(def, h) && (forall hop | hop in def :: !Is(h, hop.id, Dispatched))
    requires Is(h, open.id, Pending) || Is(h, open.id, Ready)
    ensures Stalled(h) <==> forall hop | hop in def :: !Is(h, hop.id, Ready)
  {
    assert !Terminal(h, open.id);
    forall id | id in h
      ensures exists hop :: hop in def && hop.id == id
    {
      assert FindHop(def, id).value in def;
    }
    if forall hop | hop in def :: !Is(h, hop.id, Ready) {
      forall id | id in h
        ensures h[id].status != Ready && h[id].status != Dispatched
      {
        assert FindHop(def, id).value in def;
      }
    }
  }

  // ----- Every other step leaves no startable hop pending -----

  /** A rejection that trips the breaker or resets predecessors. */
  ghost predicate Disrupts(def: Definition, h: Hops, step: Step)
    requires ValidDefinition(def) && Shaped(def, h) && Enabled(def, h, step)
  {
    exists rejected :: Rejects(def, h, step, rejected) && (TripsBreaker(h, rejected) || rejected.rejectionStrategy == Some(Predecessors))
  }

  lemma RestartReadiesNothing(def: Definition, h: Hops, id: HopId, next: HopState)
    requires ReadySet(def, h) == {} && (next.status == Ready || next.status == Dispatched || next.status == Failed)
    ensures ReadySet(def, h[id := next]) == {}
  {
    forall hop | hop in def
      ensures !BecomesReady(h[id := next], hop)
    {
      assert hop.id !in ReadySet(def, h);
      assert !BecomesReady(h, hop);
    }
  }

  /** When only roots are ready and the rest is pending, no pending hop is startable. */
  lemma OnlyRootsStarted(def: Definition, h: Hops)
    requires ValidDefinition(def) && forall hop | hop in def :: Is(h, hop.id, if Root(hop) then Ready else Pending)
    ensures ReadySet(def, h) == {}
  {
    forall hop | hop in def
      ensures !BecomesReady(h, hop)
    {
      if !Root(hop) {
        assert hop.dependsOn[0] in hop.dependsOn;
        forall d | d in hop.dependsOn
          ensures !Satisfied(h, d)
        {
          assert FindHop(def, d).value in def;
        }
      }
    }
  }

  lemma ReportLeavesNoneStartable(def: Definition, h: Hops, step: Step)
    requires ValidDefinition(def) && Shaped(def, h) && Enabled(def, h, step) && step.Report? && !Disrupts(def, h, step)
    ensures ReadySet(def, AfterReport(def, h, step)) == {}
  {
    var hop := FindHop(def, FindDispatched(def, h).value).value;
    var event := ReportEvent(def, hop.id, step.run, step.result);
    if event.outcome.Rejected? {
      assert Rejects(def, h, step, hop);
      forall x | x in def
        ensures Is(AfterReport(def, h, step), x.id, if Root(x) then Ready else Pending)
      {
        OriginEffect(def, h, hop.id, CountAfter(h, hop.id), x);
      }
      OnlyRootsStarted(def, AfterReport(def, h, step));
    } else {
      NormalLeavesNoneStartable(def, h, event, step.task, step.now);
    }
  }

  lemma StepLeavesNoneStartable(def: Definition, h: Hops, step: Step)
    requires ValidDefinition(def) && Shaped(def, h) && Enabled(def, h, step) && !Disrupts(def, h, step)
    requires ReadySet(def, h) == {}
    ensures ReadySet(def, Take(def, h, step)) == {}
  {
    if step.Report? {
      ReportLeavesNoneStartable(def, h, step);
      if step.follow.Some? {
        ReportedIsDefined(def, h, step);
        var id := step.follow.value.hopId;
        RestartReadiesNothing(def, AfterReport(def, h, step), id, Take(def, h, step)[id]);
      }
    } else {
      RestartReadiesNothing(def, h, step.id, Take(def, h, step)[step.id]);
    }
  }

  ghost predicate Undisrupted(def: Definition, h: Hops, steps: seq<Step>)
    requires ValidDefinition(def) && Shaped(def, h) && Legal(def, h, steps)
    decreases |steps|
  {
    steps == [] ||
    (!Disrupts(def, h, steps[0]) && (TakeKeepsShape(def, h, steps[0]); Undisrupted(def, Take(def, h, steps[0]), steps[1..])))
  }

  lemma {:induction false} RunLeavesNoneStartable(def: Definition, h: Hops, steps: seq<Step>)
    requires ValidDefinition(def) && Shaped(def, h) && Legal(def, h, steps) && Undisrupted(def, h, steps) && ReadySet(def, h) == {}
    ensures ReadySet(def, Final(def, h, steps)) == {}
    decreases |steps|
  {
    if steps != [] {
      TakeKeepsShape(def, h, steps[0]);
      StepLeavesNoneStartable(def, h, steps[0]);
      RunLeavesNoneStartable(def, Take(def, h, steps[0]), steps[1..]);
    }
  }

  /** Runs in which no rejection trips the breaker or resets predecessors stall only with a blocked hop. */
  lemma {:induction false} UndisruptedStallIsBlocked(def: Definition, rank: map<HopId, nat>, steps: seq<Step>) returns (blocked: Hop)
    requires ValidDefinition(def) && Ranked(def, rank) && Legal(def, InitialState(def), steps)
    requires Undisrupted(def, InitialState(def), steps) && Stalled(Final(def, InitialState(def), steps))
    ensures blocked in def && Blocked(Final(def, InitialState(def), steps), blocked)
  {
    forall hop | hop in def
      ensures Is(InitialState(def), hop.id, if Root(hop) then Ready else Pending)
    {
      InitialStatus(def, hop);
    }
    OnlyRootsStarted(def, InitialState(def));
    RunLeavesNoneStartable(def, InitialState(def), steps);
    InitialRootsStarted(def);
    RunKeepsRootsStarted(def, InitialState(def), steps);
    StalledStateIsBlockedOrStartable(def, rank, Final(def, InitialState(def), steps));
    blocked :| blocked in def && Blocked(Final(def, InitialState(def), steps), blocked);
  }

  // ----- As long as sessions can be spawned -----

  /** If the follow-up session can be spawned, the end of a session stalls the workflow only with a blocked hop, rejections included. */
  lemma {:induction false} AttendedStallIsBlocked(def: Definition, rank: map<HopId, nat>, h: Hops, h': Hops, step: Step, spawned: Option<string>)
    returns (blocked: Hop)
    requires ValidDefinition(def) && Ranked(def, rank) && Shaped(def, h) && RootsStarted(def, h)
    requires FindDispatched(def, h).Some? && step.Report? && EndedBy(def, h, h', step, spawned)
    requires spawned.Some? && Stalled(h')
    ensures blocked in def && Blocked(h', blocked)
  {
    var hop := FindHop(def, FindDispatched(def, h).value).value;
    var event := ReportEvent(def, hop.id, step.run, step.result);
    if step.follow.Some? {
      FollowIsNoStall(def, h, step);
    }
    EvaluateKeepsShape(def, h, event, step.task, step.now);
    EvaluateKeepsRootsStarted(def, h, event, step.task, step.now);
    if event.outcome.Rejected? {
      WithReadyAdds(def, h', ReadyList(def, h'));
      ReadyListIsReadySet(def, h');
      forall id
        ensures id !in ReadySet(def, h')
      {
        assert id !in ReportedList(def, h, event, step.task, step.now);
      }
    } else {
      NormalLeavesNoneStartable(def, h, event, step.task, step.now);
    }
    StalledStateIsBlockedOrStartable(def, rank, h');
    blocked :| blocked in def && Blocked(h', blocked);
  }

  // ----- A run that stalls with no hop blocked -----

  /** "d" is an AND-join of "a" and "c", and "c" follows "b" alone. */
  ghost predicate SideBranch(def: Definition, a: Hop, b: Hop, c: Hop, d: Hop) {
    && a in def && b in def && c in def && d in def
    && a.dependsOn == [] && b.dependsOn == [] && c.dependsOn == [b.id] && d.dependsOn == [a.id, c.id] && d.joinType == All
  }

  /** The definition holds no other hops. */
  ghost predicate Only(def: Definition, a: Hop, b: Hop, c: Hop, d: Hop) {
    forall hop | hop in def :: hop == a || hop == b || hop == c || hop == d
  }

  /** Once "b" has failed, its cascade skips "c" and stops there. */
  lemma SideBranchCascade(def: Definition, a: Hop, b: Hop, c: Hop, d: Hop, h: Hops)
    requires SideBranch(def, a, b, c, d) && Only(def, a, b, c, d)
    requires Is(h, a.id, Complete) && Is(h, b.id, Failed) && Is(h, c.id, Pending) && Is(h, d.id, Pending)
    ensures CascadeSet(def, h, b.id) == {c.id}
  {
    var C := CascadeSet(def, h, b.id);
    CascadeSetIsLeast(def, h, b.id);
    assert Closed(def, h, b.id, {c.id}) by {
      assert a.id in d.dependsOn && !NonSuccess(h, a.id);
    }
    assert c in def && b.id in c.dependsOn;
    assert Touched(c, b.id, C) && CutOff(h, c, C);
  }

  /** With "a" complete, "b" failed, "c" skipped and "d" pending, nothing is ready or in flight, yet the join of "d" is met. */
  lemma SideBranchStalls(def: Definition, a: Hop, b: Hop, c: Hop, d: Hop, h: Hops)
    requires SideBranch(def, a, b, c, d) && Only(def, a, b, c, d) && Shaped(def, h)
    requires Is(h, a.id, Complete) && Is(h, b.id, Failed) && Is(h, c.id, Skipped) && Is(h, d.id, Pending)
    ensures Stalled(h) && d.id in ReadySet(def, h) && forall hop | hop in def :: !Blocked(h, hop)
  {
    assert BecomesReady(h, d);
    assert !Terminal(h, d.id);
    forall hop | hop in def
      ensures !Blocked(h, hop)
    {
      assert hop == a || hop == b || hop == c || hop == d;
    }
    forall id | id in h
      ensures h[id].status != Ready && h[id].status != Dispatched
    {
      var hop := FindHop(def, id).value;
      assert hop == a || hop == b || hop == c || hop == d;
    }
  }

  lemma SideBranchBreaks(def: Definition, a: Hop, b: Hop, c: Hop, d: Hop, h: Hops, now: Timestamp)
    requires ValidDefinition(def) && SideBranch(def, a, b, c, d) && Only(def, a, b, c, d) && Shaped(def, h)
    requires Is(h, a.id, Complete) && Is(h, b.id, Dispatched) && h[b.id].rejectionCount == Some(2)
    requires Is(h, c.id, Pending) && Is(h, d.id, Pending)
    ensures var h' := EvaluateRejection(def, h, b, now);
            && Shaped(def, h')
            && Is(h', a.id, Complete) && Is(h', b.id, Failed) && Is(h', c.id, Skipped) && Is(h', d.id, Pending)
  {
    assert CountAfter(h, b.id) == 3;
    var h1 := h[b.id := h[b.id].(status := Failed, completedAt := Some(now), rejectionCount := Some(3))];
    SideBranchCascade(def, a, b, c, d, h1);
    assert EvaluateRejection(def, h, b, now) == SkipAll(h1, {c.id}, now);
  }

  /** "b" may reject; "a" and "b" are two hops; there are no conditions. */
  ghost predicate RejectingBranch(def: Definition, a: Hop, b: Hop, c: Hop, d: Hop) {
    ValidDefinition(def) && SideBranch(def, a, b, c, d) && a.id != b.id && b.canReject && Plain(def)
  }

  /** "a" has the given status, "b" is ready and has been rejected `n` times, "c" and "d" wait, and nothing is in flight. */
  ghost predicate AtRound(def: Definition, a: Hop, b: Hop, c: Hop, d: Hop, h: Hops, first: Status, n: nat) {
    && Shaped(def, h) && NoneDispatched(h) && Is(h, a.id, first) && Is(h, b.id, Ready) && Is(h, c.id, Pending) && Is(h, d.id, Pending)
    && h[b.id].rejectionCount.GetOr(0) == n
  }

  lemma InitialRound(def: Definition, a: Hop, b: Hop, c: Hop, d: Hop)
    requires RejectingBranch(def, a, b, c, d)
    ensures AtRound(def, a, b, c, d, InitialState(def), Ready, 0)
  {
    InitiallyNoneDispatched(def);
    InitialStatus(def, a);
    InitialStatus(def, b);
    InitialStatus(def, c);
    InitialStatus(def, d);
  }

  /** What the first or second rejection by the root "b" makes of another hop. */
  lemma RejectedOther(def: Definition, b: Hop, h: Hops, x: Hop)
    requires ValidDefinition(def) && Shaped(def, h) && b in def && b.dependsOn == [] && x in def && x.id != b.id
    requires CountAfter(h, b.id) < 3 && Is(h, x.id, if Root(x) then Ready else Pending)
    ensures Is(EvaluateRejection(def, h, b, 0), x.id, if Root(x) then Ready else Pending)
  {
    if b.rejectionStrategy.GetOr(Origin) == Origin {
      OriginEffect(def, h, b.id, CountAfter(h, b.id), x);
    } else {
      PredecessorsEffect(def, h, b, CountAfter(h, b.id), x);
    }
  }

  lemma RejectedRoot(def: Definition, b: Hop, h: Hops)
    requires ValidDefinition(def) && Shaped(def, h) && b in def && b.dependsOn == [] && CountAfter(h, b.id) < 3
    ensures var h' := EvaluateRejection(def, h, b, 0);
            Shaped(def, h') && Is(h', b.id, Ready) && h'[b.id].rejectionCount == Some(CountAfter(h, b.id))
  {
    if b.rejectionStrategy.GetOr(Origin) == Origin {
      OriginEffect(def, h, b.id, CountAfter(h, b.id), b);
    } else {
      PredecessorsEffect(def, h, b, CountAfter(h, b.id), b);
    }
  }

  lemma RejectionRound(def: Definition, a: Hop, b: Hop, c: Hop, d: Hop, h: Hops, n: nat, task: TaskMeta) returns (steps: seq<Step>)
    requires RejectingBranch(def, a, b, c, d) && AtRound(def, a, b, c, d, h, Ready, n) && n < 2
    ensures Legal(def, h, steps) && UpToDate(def, h, steps) && AtRound(def, a, b, c, d, Final(def, h, steps), Ready, n + 1)
  {
    var s, t := Dispatch(b.id, h, "", 0), Report(NeedsReview, None, task, 0, None);
    Launch(def, h, b.id);
    FindHopIs(def, b);
    var h' := Take(def, h, s);
    RejectionEndsFlight(def, h', b, 0);
    RejectedRoot(def, b, h');
    RejectedOther(def, b, h', a);
    RejectedOther(def, b, h', c);
    RejectedOther(def, b, h', d);
    DispatchAndReport(def, h, s, t);
    steps := [s, t];
  }

  /** A pending hop that waits for an unfinished one stays as it is when another hop completes. */
  lemma KeepsWaiting(def: Definition, h: Hops, id: HopId, task: TaskMeta, x: Hop, d: HopId)
    requires ValidDefinition(def) && Plain(def) && id in h && x in def && x.id != id && Is(h, x.id, Pending)
    requires x.dependsOn == [d] || (x.joinType == All && d in x.dependsOn)
    requires d in h && d != id && !Satisfied(h, d)
    ensures Is(EvaluateNormal(def, h, HopEvent(id, Completed, None), task, 0), x.id, Pending)
  {
    var event := HopEvent(id, Completed, None);
    var h1 := ApplyPrimary(h, event, 0);
    ScanWithoutConditions(def, h1, BuildContext(h1, task), task, 0);
    NormalMovesPending(def, h, event, task, 0, x);
    assert d in x.dependsOn && !Satisfied(h1, d);
    assert !JoinMet(h1, x);
  }

  /** "a" completes, which readies nothing. */
  lemma CompletionRound(def: Definition, a: Hop, b: Hop, c: Hop, d: Hop, h: Hops, n: nat, task: TaskMeta) returns (steps: seq<Step>)
    requires RejectingBranch(def, a, b, c, d) && AtRound(def, a, b, c, d, h, Ready, n)
    ensures Legal(def, h, steps) && UpToDate(def, h, steps) && AtRound(def, a, b, c, d, Final(def, h, steps), Complete, n)
  {
    var s, t := Dispatch(a.id, h, "", 0), Report(Done, None, task, 0, None);
    var event := HopEvent(a.id, Completed, None);
    Launch(def, h, a.id);
    var h' := Take(def, h, s);
    NormalEndsFlight(def, h', event, task, 0);
    NormalSettles(def, h', event, task, 0);
    NormalKeepsStarted(def, h', event, task, 0, b.id);
    KeepsWaiting(def, h', a.id, task, c, b.id);
    KeepsWaiting(def, h', a.id, task, d, c.id);
    TakeKeepsShape(def, h', t);
    DispatchAndReport(def, h, s, t);
    steps := [s, t];
  }

  /** The third rejection, whose follow-up session is not spawned. */
  lemma ThirdRejection(def: Definition, a: Hop, b: Hop, c: Hop, d: Hop, h: Hops, task: TaskMeta) returns (steps: seq<Step>)
    requires RejectingBranch(def, a, b, c, d) && Only(def, a, b, c, d) && AtRound(def, a, b, c, d, h, Complete, 2)
    ensures Legal(def, h, steps) && UpToDate(def, h, steps)
    ensures |steps| == 2 && steps[1] == Report(NeedsReview, None, task, 0, None)
    ensures StalledUnblocked(def, Final(def, h, steps), d)
  {
    var s, t := Dispatch(b.id, h, "", 0), Report(NeedsReview, None, task, 0, None);
    Launch(def, h, b.id);
    var h' := Take(def, h, s);
    BreakerRound(def, a, b, c, d, h', task);
    DispatchAndReport(def, h, s, t);
    steps := [s, t];
  }

  /** Nothing is ready or in flight, `d` could start, and no hop is blocked. */
  ghost predicate StalledUnblocked(def: Definition, h: Hops, d: Hop) {
    Stalled(h) && d.id in ReadySet(def, h) && forall hop | hop in def :: !Blocked(h, hop)
  }

  lemma BreakerRound(def: Definition, a: Hop, b: Hop, c: Hop, d: Hop, h: Hops, task: TaskMeta)
    requires RejectingBranch(def, a, b, c, d) && Only(def, a, b, c, d) && Shaped(def, h) && FindDispatched(def, h) == Some(b.id)
    requires Is(h, a.id, Complete) && h[b.id].rejectionCount == Some(2) && Is(h, c.id, Pending) && Is(h, d.id, Pending)
    ensures var t := Report(NeedsReview, None, task, 0, None);
            Enabled(def, h, t) && StalledUnblocked(def, Take(def, h, t), d)
  {
    FindHopIs(def, b);
    SideBranchBreaks(def, a, b, c, d, h, 0);
    SideBranchStalls(def, a, b, c, d, EvaluateRejection(def, h, b, 0));
  }

  /**
   * From the initial state: "b" rejects twice, "a" completes, and "b" rejects a third time. The breaker lists "d" as ready
   * and leaves it pending; when the session for "d" cannot be spawned, the workflow stalls with no hop blocked.
   */
  lemma {:induction false} BreakerCanStall(def: Definition, a: Hop, b: Hop, c: Hop, d: Hop, task: TaskMeta) returns (steps: seq<Step>)
    requires RejectingBranch(def, a, b, c, d) && Only(def, a, b, c, d)
    ensures Legal(def, InitialState(def), steps) && UpToDate(def, InitialState(def), steps)
    ensures steps != [] && steps[|steps| - 1] == Report(NeedsReview, None, task, 0, None)
    ensures StalledUnblocked(def, Final(def, InitialState(def), steps), d)
  {
    InitialRound(def, a, b, c, d);
    var r1 := RejectionRound(def, a, b, c, d, InitialState(def), 0, task);
    var h1 := Final(def, InitialState(def), r1);
    var r2 := RejectionRound(def, a, b, c, d, h1, 1, task);
    var h2 := Final(def, h1, r2);
    var r3 := CompletionRound(def, a, b, c, d, h2, 2, task);
    var r4 := ThirdRejection(def, a, b, c, d, Final(def, h2, r3), task);
    Concat(def, h2, r3, r4);
    Concat(def, h1, r2, r3 + r4);
    Concat(def, InitialState(def), r1, r2 + (r3 + r4));
    steps := r1 + (r2 + (r3 + r4));
  }
}
