/** Runs from the initial state in which a hop that has started loses its join. */
module CausalityBreaks {
  import opened Wrappers
  import opened Conditions
  import opened Workflow
  import opened DagSemantics
  import opened DagFacts
  import opened DagSteps
  import opened CausalSafety

  /** `b` follows the root `a` alone and has no condition. */
  ghost predicate Follower(def: Definition, a: Hop, b: Hop) {
    a in def && b in def && Root(a) && b.dependsOn == [a.id] && b.condition.None?
  }

  /** "a" is in flight and nothing else is; "b" waits, never rejected. */
  ghost predicate Waiting(def: Definition, h: Hops, a: Hop, b: Hop) {
    Shaped(def, h) && AtMostOneDispatched(h) && Is(h, a.id, Dispatched) && b.id in h && h[b.id] == Fresh(Pending)
  }

  lemma ScannedFollower(def: Definition, h: Hops, a: Hop, b: Hop, task: TaskMeta)
    requires ValidDefinition(def) && Follower(def, a, b) && Waiting(def, h, a, b)
    ensures var h3 := AfterScan(def, h, HopEvent(a.id, Completed, None), task, 0);
            b.id in h3 && h3[b.id] == h[b.id] && Is(h3, a.id, Complete)
  {
    var event := HopEvent(a.id, Completed, None);
    var h2 := ApplyPrimary(h, event, 0);
    forall hop | hop in def && hop.id == b.id
      ensures hop.condition.None?
    {
      SameId(def, hop, b);
    }
    ScanLeavesUnconditioned(def, h2, BuildContext(h2, task), task, 0, b.id);
    ScanOnlySkips(def, h2, BuildContext(h2, task), task, 0);
  }

  /** When the root completes, its followers become ready. */
  lemma CompletionReadies(def: Definition, h: Hops, a: Hop, b: Hop, task: TaskMeta)
    requires ValidDefinition(def) && Follower(def, a, b) && Waiting(def, h, a, b)
    ensures var h' := EvaluateNormal(def, h, HopEvent(a.id, Completed, None), task, 0);
            Is(h', a.id, Complete) && b.id in h' && h'[b.id] == Fresh(Ready) && NoneDispatched(h')
  {
    var event := HopEvent(a.id, Completed, None);
    ScannedFollower(def, h, a, b, task);
    NormalSettles(def, h, event, task, 0);
    NormalMovesPending(def, h, event, task, 0, b);
    EvaluateEndsFlight(def, h, event, task, 0);
    assert BecomesReady(AfterScan(def, h, event, task, 0), b);
  }

  lemma StartOfRun(def: Definition, a: Hop, b: Hop)
    requires ValidDefinition(def) && Follower(def, a, b)
    ensures var h0 := InitialState(def);
            var s := Dispatch(a.id, h0, "", 0);
            && Is(h0, a.id, Ready) && NoneDispatched(h0) && Enabled(def, h0, s)
            && Waiting(def, Take(def, h0, s), a, b) && FindDispatched(def, Take(def, h0, s)) == Some(a.id)
  {
    var h0 := InitialState(def);
    InitialStatus(def, a);
    InitialStatus(def, b);
    var h1 := Take(def, h0, Dispatch(a.id, h0, "", 0));
    DispatchedIsFound(def, h1, a.id);
  }

  /** The state after the root has run. */
  ghost function AfterRoot(def: Definition, a: Hop, task: TaskMeta): Hops
    requires ValidDefinition(def) && a in def && Is(InitialState(def), a.id, Ready) && NoneDispatched(InitialState(def))
  {
    var h1 := Take(def, InitialState(def), Dispatch(a.id, InitialState(def), "", 0));
    EvaluateNormal(def, h1, HopEvent(a.id, Completed, None), task, 0)
  }

  /** Dispatching and completing the root, in front of a run that listed the initial state among others. */
  lemma RunRoot(def: Definition, a: Hop, b: Hop, task: TaskMeta, rest: seq<Step>) returns (steps: seq<Step>)
    requires ValidDefinition(def) && Follower(def, a, b)
    requires Is(InitialState(def), a.id, Ready) && NoneDispatched(InitialState(def))
    requires var h2 := AfterRoot(def, a, task);
             && Shaped(def, h2) && Legal(def, h2, rest)
             && Listed(def, [InitialState(def), Take(def, InitialState(def), Dispatch(a.id, InitialState(def), "", 0))], h2, rest)
    ensures Legal(def, InitialState(def), steps) && Listed(def, [], InitialState(def), steps)
    ensures Final(def, InitialState(def), steps) == Final(def, AfterRoot(def, a, task), rest)
    ensures StaleDispatches(def, InitialState(def), steps) == StaleDispatches(def, AfterRoot(def, a, task), rest)
  {
    var h0 := InitialState(def);
    var s1, s2 := Dispatch(a.id, h0, "", 0), Report(Done, None, task, 0, None);
    StartOfRun(def, a, b);
    var h1 := Take(def, h0, s1);
    assert Take(def, h1, s2) == AfterRoot(def, a, task);
    assert [] + [h0] == [h0] && [h0] + [h1] == [h0, h1];
    Prepend(def, [h0], h1, s2, rest);
    Prepend(def, [], h0, s1, [s2] + rest);
    steps := [s1] + ([s2] + rest);
  }

  /**
   * A poll that listed the tasks before the root completed dispatches it again afterwards: its follower is ready without
   * its predecessor complete. Any definition with a follower of a root has such a run.
   */
  lemma {:induction false} StaleListingBreaksCausality(def: Definition, a: Hop, b: Hop, task: TaskMeta) returns (steps: seq<Step>)
    requires ValidDefinition(def) && Follower(def, a, b)
    ensures Legal(def, InitialState(def), steps) && Listed(def, [], InitialState(def), steps)
    ensures StaleDispatches(def, InitialState(def), steps) == 1
    ensures !Causal(def, Final(def, InitialState(def), steps))
  {
    var h0 := InitialState(def);
    StartOfRun(def, a, b);
    var h1 := Take(def, h0, Dispatch(a.id, h0, "", 0));
    var h2 := AfterRoot(def, a, task);
    CompletionReadies(def, h1, a, b, task);
    EvaluateKeepsShape(def, h1, HopEvent(a.id, Completed, None), task, 0);
    var s3 := Dispatch(a.id, h0, "", 0);
    var h3 := Take(def, h2, s3);
    TakeKeepsShape(def, h2, s3);
    Prepend(def, [h0, h1], h2, s3, []);
    steps := RunRoot(def, a, b, task, [s3] + []);
    LosesJoin(def, h3, a, b);
  }

  lemma LosesJoin(def: Definition, h: Hops, a: Hop, b: Hop)
    requires Follower(def, a, b) && Started(h, b.id) && !Satisfied(h, a.id)
    ensures !Causal(def, h)
  {
    assert a.id in b.dependsOn;
    assert !Justified(h, b);
  }

  /** Two followers of a root, one of which rejects to its predecessors while the other is ready. */
  lemma {:induction false} PredecessorRejectionBreaksCausality(def: Definition, a: Hop, b: Hop, c: Hop, task: TaskMeta) returns (steps: seq<Step>)
    requires ValidDefinition(def) && Follower(def, a, b) && Follower(def, a, c) && b.id != c.id
    requires b.canReject && b.rejectionStrategy == Some(Predecessors)
    ensures Legal(def, InitialState(def), steps) && Listed(def, [], InitialState(def), steps)
    ensures StaleDispatches(def, InitialState(def), steps) == 0
    ensures !Causal(def, Final(def, InitialState(def), steps))
  {
    var h0 := InitialState(def);
    StartOfRun(def, a, b);
    StartOfRun(def, a, c);
    var h1 := Take(def, h0, Dispatch(a.id, h0, "", 0));
    var h2 := AfterRoot(def, a, task);
    CompletionReadies(def, h1, a, b, task);
    CompletionReadies(def, h1, a, c, task);
    EvaluateKeepsShape(def, h1, HopEvent(a.id, Completed, None), task, 0);
    var rest := RejectionTail(def, [h0, h1], h2, a, b, c, task);
    steps := RunRoot(def, a, b, task, rest);
  }

  lemma RejectionTail(def: Definition, past: seq<Hops>, h: Hops, a: Hop, b: Hop, c: Hop, task: TaskMeta) returns (steps: seq<Step>)
    requires ValidDefinition(def) && Follower(def, a, b) && Follower(def, a, c) && b.id != c.id
    requires b.canReject && b.rejectionStrategy == Some(Predecessors)
    requires Shaped(def, h) && NoneDispatched(h) && b.id in h && h[b.id] == Fresh(Ready) && Is(h, c.id, Ready)
    ensures Legal(def, h, steps) && Listed(def, past, h, steps) && StaleDispatches(def, h, steps) == 0
    ensures !Causal(def, Final(def, h, steps))
  {
    var s, t := Dispatch(b.id, h, "", 0), Report(NeedsReview, None, task, 0, None);
    var h' := Take(def, h, s);
    RejectAfterRoot(def, h', a, b, c, task);
    Prepend(def, past + [h], h', t, []);
    assert [t] + [] == [t];
    Prepend(def, past, h, s, [t]);
    steps := [s] + [t];
    LosesJoin(def, Take(def, h', t), a, c);
  }

  lemma RejectAfterRoot(def: Definition, h: Hops, a: Hop, b: Hop, c: Hop, task: TaskMeta)
    requires ValidDefinition(def) && Follower(def, a, b) && Follower(def, a, c) && b.id != c.id
    requires b.canReject && b.rejectionStrategy == Some(Predecessors)
    requires Shaped(def, h) && AtMostOneDispatched(h) && Is(h, b.id, Dispatched) && h[b.id].rejectionCount.None? && Is(h, c.id, Ready)
    ensures var s := Report(NeedsReview, None, task, 0, None);
            && Enabled(def, h, s) && Shaped(def, Take(def, h, s))
            && Is(Take(def, h, s), a.id, Ready) && Is(Take(def, h, s), c.id, Ready)
  {
    DispatchedIsFound(def, h, b.id);
    FindHopIs(def, b);
    PredecessorsEffect(def, h, b, 1, a);
    PredecessorsEffect(def, h, b, 1, c);
    assert a.id != c.id;
    assert a.id in b.dependsOn;
  }
}
