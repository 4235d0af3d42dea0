/** When a workflow can get stuck, and when it cannot. */
module Progress {
  import opened Wrappers
  import opened Conditions
  import opened Workflow
  import opened DagSemantics
  import opened DagFacts
  import opened DagSteps

  ghost predicate AndOnly(def: Definition) {
    forall hop | hop in def :: hop.joinType == All
  }

  predicate NoneFailed(h: Hops) {
    forall id | id in h :: h[id].status != Failed
  }

  /** No hop ever fails along the run. */
  ghost predicate NeverFails(def: Definition, h: Hops, steps: seq<Step>)
    requires ValidDefinition(def) && Shaped(def, h) && Legal(def, h, steps)
    decreases |steps|
  {
    && NoneFailed(h)
    && (steps == [] || (TakeKeepsShape(def, h, steps[0]); NeverFails(def, Take(def, h, steps[0]), steps[1..])))
  }

  /** Every pending hop waits for a predecessor that is neither complete nor skipped. */
  ghost predicate Awaiting(def: Definition, h: Hops) {
    forall hop | hop in def && Is(h, hop.id, Pending) :: exists d :: d in hop.dependsOn && !Satisfied(h, d)
  }

  lemma NormalKeepsAwaiting(def: Definition, h: Hops, event: HopEvent, task: TaskMeta, now: Timestamp)
    requires UniqueIds(def) && AndOnly(def) && Awaiting(def, h) && Is(h, event.hopId, Dispatched) && !event.outcome.Rejected?
    ensures Awaiting(def, EvaluateNormal(def, h, event, task, now))
  {
    var h3 := AfterScan(def, h, event, task, now);
    var h' := EvaluateNormal(def, h, event, task, now);
    NormalEffect(def, h, event, task, now);
    ReadySetIsPending(def, h3);
    ReadyingKeepsTerminal(h3, ReadySet(def, h3));
    NormalLeavesNoneStartable(def, h, event, task, now);
    forall hop | hop in def && Is(h', hop.id, Pending)
      ensures exists d :: d in hop.dependsOn && !Satisfied(h', d)
    {
      assert Is(h, hop.id, Pending);
      var d0 :| d0 in hop.dependsOn && !Satisfied(h, d0);
      assert hop.id !in ReadySet(def, h');
      assert !JoinMet(h', hop);
    }
  }

  lemma ResetKeepsAwaiting(def: Definition, h: Hops, rejected: Hop, now: Timestamp)
    requires ValidDefinition(def) && Shaped(def, h) && Awaiting(def, h) && rejected in def
    requires CountAfter(h, rejected.id) < DEFAULT_MAX_REJECTIONS
    ensures Awaiting(def, EvaluateRejection(def, h, rejected, now))
  {
    var h' := EvaluateRejection(def, h, rejected, now);
    var count := CountAfter(h, rejected.id);
    forall hop | hop in def && Is(h', hop.id, Pending)
      ensures exists d :: d in hop.dependsOn && !Satisfied(h', d)
    {
      if rejected.rejectionStrategy.GetOr(Origin) == Origin {
        OriginEffect(def, h, rejected.id, count, hop);
        var d := hop.dependsOn[0];
        assert d in hop.dependsOn;
        OriginEffect(def, h, rejected.id, count, FindHop(def, d).value);
      } else {
        PredecessorsKeepAwaiting(def, h, rejected, count, hop);
      }
    }
  }

  lemma PredecessorsKeepAwaiting(def: Definition, h: Hops, rejected: Hop, count: nat, hop: Hop)
    requires ValidDefinition(def) && Shaped(def, h) && Awaiting(def, h) && rejected in def && hop in def
    requires Is(ResetPredecessors(def, h, rejected, count), hop.id, Pending)
    ensures exists d :: d in hop.dependsOn && !Satisfied(ResetPredecessors(def, h, rejected, count), d)
  {
    var reset := ResetSet(rejected);
    PredecessorsEffect(def, h, rejected, count, hop);
    var d :| d in hop.dependsOn && (d in reset || !Satisfied(h, d));
    PredecessorsEffect(def, h, rejected, count, FindHop(def, d).value);
  }

  lemma ReportKeepsAwaiting(def: Definition, h: Hops, step: Step)
    requires ValidDefinition(def) && AndOnly(def) && Shaped(def, h) && Awaiting(def, h)
    requires step.Report? && Enabled(def, h, step) && NoneFailed(AfterReport(def, h, step))
    ensures Awaiting(def, AfterReport(def, h, step))
  {
    var id := FindDispatched(def, h).value;
    var hop := FindHop(def, id).value;
    var event := ReportEvent(def, id, step.run, step.result);
    if event.outcome.Rejected? {
      if CountAfter(h, id) >= DEFAULT_MAX_REJECTIONS {
        BreakerEffect(def, h, hop, step.now);
      }
      ResetKeepsAwaiting(def, h, hop, step.now);
    } else {
      NormalKeepsAwaiting(def, h, event, step.task, step.now);
    }
  }

  /** Taking a hop out of the finished ones, or out of the pending ones, leaves every pending hop waiting. */
  lemma RestartKeepsAwaiting(def: Definition, h: Hops, id: HopId, next: HopState)
    requires Awaiting(def, h) && (next.status == Ready || next.status == Dispatched || next.status == Failed)
    ensures Awaiting(def, h[id := next])
  {
    var h' := h[id := next];
    forall hop | hop in def && Is(h', hop.id, Pending)
      ensures exists d :: d in hop.dependsOn && !Satisfied(h', d)
    {
      assert Is(h, hop.id, Pending);
      var d :| d in hop.dependsOn && !Satisfied(h, d);
      assert !Satisfied(h', d);
    }
  }

  lemma StepKeepsAwaiting(def: Definition, h: Hops, step: Step)
    requires ValidDefinition(def) && AndOnly(def) && Shaped(def, h) && Awaiting(def, h)
    requires Enabled(def, h, step) && NoneFailed(Take(def, h, step))
    ensures Awaiting(def, Take(def, h, step))
  {
    if step.Report? {
      var h' := AfterReport(def, h, step);
      if step.follow.Some? {
        ReportedIsDefined(def, h, step);
        var id := step.follow.value.hopId;
        ReportedIsNotFailed(def, h, step);
        ReportKeepsAwaiting(def, h, step);
        RestartKeepsAwaiting(def, h', id, Take(def, h, step)[id]);
      } else {
        ReportKeepsAwaiting(def, h, step);
      }
    } else {
      RestartKeepsAwaiting(def, h, step.id, Take(def, h, step)[step.id]);
    }
  }

  lemma ReportedIsNotFailed(def: Definition, h: Hops, step: Step)
    requires ValidDefinition(def) && Shaped(def, h) && step.Report? && step.follow.Some? && Enabled(def, h, step)
    requires NoneFailed(Take(def, h, step))
    ensures NoneFailed(AfterReport(def, h, step))
  {
    FollowIsStartable(def, h, step);
    var h' := AfterReport(def, h, step);
    var id := step.follow.value.hopId;
    forall x | x in h'
      ensures h'[x].status != Failed
    {
      assert x != id ==> Take(def, h, step)[x] == h'[x];
    }
  }

  lemma {:induction false} RunKeepsAwaiting(def: Definition, h: Hops, steps: seq<Step>)
    requires ValidDefinition(def) && AndOnly(def) && Shaped(def, h) && Awaiting(def, h)
    requires Legal(def, h, steps) && NeverFails(def, h, steps)
    ensures Awaiting(def, Final(def, h, steps)) && NoneFailed(Final(def, h, steps))
    decreases |steps|
  {
    if steps != [] {
      TakeKeepsShape(def, h, steps[0]);
      StepKeepsAwaiting(def, h, steps[0]);
      RunKeepsAwaiting(def, Take(def, h, steps[0]), steps[1..]);
    }
  }

  /** Below a pending hop, some hop is ready or in flight. */
  lemma {:induction false} FindActive(def: Definition, rank: map<HopId, nat>, h: Hops, hop: Hop) returns (id: HopId)
    requires ValidDefinition(def) && Ranked(def, rank) && Shaped(def, h) && Awaiting(def, h) && NoneFailed(h)
    requires hop in def && Is(h, hop.id, Pending)
    ensures Is(h, id, Ready) || Is(h, id, Dispatched)
    decreases rank[hop.id]
  {
    var d :| d in hop.dependsOn && !Satisfied(h, d);
    if Is(h, d, Pending) {
      id := FindActive(def, rank, h, FindHop(def, d).value);
    } else {
      id := d;
    }
  }

  /** With AND-joins only, whatever the conditions and rejections: as long as no hop fails, the workflow is done or has work to do. */
  lemma AlwaysWorkToDo(def: Definition, rank: map<HopId, nat>, steps: seq<Step>)
    requires ValidDefinition(def) && Ranked(def, rank) && AndOnly(def)
    requires Legal(def, InitialState(def), steps) && NeverFails(def, InitialState(def), steps)
    ensures var h := Final(def, InitialState(def), steps);
            AllDone(h) || exists id :: Is(h, id, Ready) || Is(h, id, Dispatched)
  {
    InitialAwaits(def);
    RunKeepsAwaiting(def, InitialState(def), steps);
    WorkToDo(def, rank, Final(def, InitialState(def), steps));
  }

  lemma WorkToDo(def: Definition, rank: map<HopId, nat>, h: Hops)
    requires ValidDefinition(def) && Ranked(def, rank) && Shaped(def, h) && Awaiting(def, h) && NoneFailed(h)
    ensures AllDone(h) || exists id :: Is(h, id, Ready) || Is(h, id, Dispatched)
  {
    if x :| x in h && !Terminal(h, x) {
      if Is(h, x, Pending) {
        var id := FindActive(def, rank, h, FindHop(def, x).value);
      } else {
        assert Is(h, x, Ready) || Is(h, x, Dispatched);
      }
    }
  }

  lemma InitialAwaits(def: Definition)
    requires ValidDefinition(def)
    ensures Awaiting(def, InitialState(def))
  {
    var h := InitialState(def);
    forall hop | hop in def && Is(h, hop.id, Pending)
      ensures exists d :: d in hop.dependsOn && !Satisfied(h, d)
    {
      InitialStatus(def, hop);
      assert hop.dependsOn[0] in hop.dependsOn;
      assert !Satisfied(h, hop.dependsOn[0]);
    }
  }

  // ----- Why a workflow stalls -----

  /** Work remains, but nothing is ready or in flight. */
  ghost predicate Stalled(h: Hops) {
    !AllDone(h) && forall id | id in h :: h[id].status != Ready && h[id].status != Dispatched
  }

  ghost predicate RootsStarted(def: Definition, h: Hops) {
    forall hop | hop in def && Root(hop) :: !Is(h, hop.id, Pending)
  }

  /** All predecessors are terminal, and they do not let the hop run. */
  predicate Blocked(h: Hops, hop: Hop) {
    && Is(h, hop.id, Pending) && AllTerminal(h, hop)
    && if hop.joinType == All then exists d :: d in hop.dependsOn && Is(h, d, Failed)
       else forall d | d in hop.dependsOn :: !Is(h, d, Complete)
  }

  lemma {:induction false} FindBlocked(def: Definition, rank: map<HopId, nat>, h: Hops, hop: Hop) returns (blocked: Hop)
    requires ValidDefinition(def) && Ranked(def, rank) && Shaped(def, h) && RootsStarted(def, h)
    requires ReadySet(def, h) == {} && Stalled(h) && hop in def && Is(h, hop.id, Pending)
    ensures blocked in def && Blocked(h, blocked)
    decreases rank[hop.id]
  {
    if d :| d in hop.dependsOn && Is(h, d, Pending) {
      blocked := FindBlocked(def, rank, h, FindHop(def, d).value);
    } else {
      blocked := hop;
      assert hop.id !in ReadySet(def, h);
      assert !JoinMet(h, hop);
    }
  }

  lemma StepKeepsRootsStarted(def: Definition, h: Hops, step: Step)
    requires ValidDefinition(def) && Shaped(def, h) && Enabled(def, h, step) && RootsStarted(def, h)
    ensures RootsStarted(def, Take(def, h, step))
  {
    if step.Report? {
      var id := FindDispatched(def, h).value;
      var event := ReportEvent(def, id, step.run, step.result);
      EvaluateKeepsRootsStarted(def, h, event, step.task, step.now);
    }
  }

  lemma EvaluateKeepsRootsStarted(def: Definition, h: Hops, event: HopEvent, task: TaskMeta, now: Timestamp)
    requires ValidDefinition(def) && Shaped(def, h) && event.hopId in h && RootsStarted(def, h)
    ensures RootsStarted(def, Evaluate(def, h, event, task, now))
  {
    if event.outcome.Rejected? {
      var r := FindHop(def, event.hopId).value;
      var count := CountAfter(h, r.id);
      if count >= DEFAULT_MAX_REJECTIONS {
        BreakerEffect(def, h, r, now);
      } else {
        forall hop | hop in def && Root(hop)
          ensures !Is(EvaluateRejection(def, h, r, now), hop.id, Pending)
        {
          OriginEffect(def, h, r.id, count, hop);
          PredecessorsEffect(def, h, r, count, hop);
        }
      }
    } else {
      NormalEffect(def, h, event, task, now);
    }
  }

  /** After a non-rejection call, a stalled workflow contains a blocked hop: an AND-join with a failed predecessor or an OR-join with no complete one. */
  lemma StalledOnlyByBlockedHop(def: Definition, rank: map<HopId, nat>, h: Hops, event: HopEvent, task: TaskMeta, now: Timestamp)
    returns (blocked: Hop)
    requires ValidDefinition(def) && Ranked(def, rank) && Shaped(def, h) && RootsStarted(def, h)
    requires event.hopId in h && !event.outcome.Rejected? && Stalled(EvaluateNormal(def, h, event, task, now))
    ensures blocked in def && Blocked(EvaluateNormal(def, h, event, task, now), blocked)
  {
    var h' := EvaluateNormal(def, h, event, task, now);
    EvaluateKeepsShape(def, h, event, task, now);
    EvaluateKeepsRootsStarted(def, h, event, task, now);
    NormalLeavesNoneStartable(def, h, event, task, now);
    var x :| x in h' && !Terminal(h', x);
    blocked := FindBlocked(def, rank, h', FindHop(def, x).value);
  }

  /** Roots are never pending in any reachable state, so the stall analysis applies along every run. */
  lemma {:induction false} RunKeepsRootsStarted(def: Definition, h: Hops, steps: seq<Step>)
    requires ValidDefinition(def) && Shaped(def, h) && Legal(def, h, steps) && RootsStarted(def, h)
    ensures RootsStarted(def, Final(def, h, steps))
    decreases |steps|
  {
    if steps != [] {
      TakeKeepsShape(def, h, steps[0]);
      StepKeepsRootsStarted(def, h, steps[0]);
      RunKeepsRootsStarted(def, Take(def, h, steps[0]), steps[1..]);
    }
  }

  lemma InitialRootsStarted(def: Definition)
    requires ValidDefinition(def)
    ensures RootsStarted(def, InitialState(def))
  {
    forall hop | hop in def && Root(hop)
      ensures !Is(InitialState(def), hop.id, Pending)
    {
      InitialStatus(def, hop);
    }
  }

  /**
   * Along every run, whatever its last step was: a stalled state contains a blocked hop, or a pending hop whose join is met
   * and that was not marked ready.
   */
  lemma {:induction false} StalledRunIsBlockedOrStartable(def: Definition, rank: map<HopId, nat>, steps: seq<Step>)
    requires ValidDefinition(def) && Ranked(def, rank) && Legal(def, InitialState(def), steps)
    requires Stalled(Final(def, InitialState(def), steps))
    ensures var h := Final(def, InitialState(def), steps);
            ReadySet(def, h) != {} || exists hop :: hop in def && Blocked(h, hop)
  {
    InitialRootsStarted(def);
    RunKeepsRootsStarted(def, InitialState(def), steps);
    StalledStateIsBlockedOrStartable(def, rank, Final(def, InitialState(def), steps));
  }

  lemma StalledStateIsBlockedOrStartable(def: Definition, rank: map<HopId, nat>, h: Hops)
    requires ValidDefinition(def) && Ranked(def, rank) && Shaped(def, h) && RootsStarted(def, h) && Stalled(h)
    ensures ReadySet(def, h) != {} || exists hop :: hop in def && Blocked(h, hop)
  {
    if ReadySet(def, h) == {} {
      var x :| x in h && !Terminal(h, x);
      var blocked := FindBlocked(def, rank, h, FindHop(def, x).value);
    }
  }
}
