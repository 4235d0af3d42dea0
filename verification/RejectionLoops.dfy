/** Exactly when runs are bounded: in an acyclic workflow, unless two rejecting hops erase each other's count. */
module RejectionLoops {
  import opened Wrappers
  import opened Conditions
  import opened Workflow
  import opened DagSemantics
  import opened DagFacts
  import opened DagSteps
  import opened RunBounds
  import opened Progress

  // ----- Levels exist unless two hops erase each other -----

  ghost predicate EraseEachOther(x: Hop, y: Hop) {
    Erases(x, y) && Erases(y, x)
  }

  ghost predicate NoMutualErasure(def: Definition) {
    forall x, y | x in def && y in def :: !EraseEachOther(x, y)
  }

  /** The rejecting hops that have to come below `r`. */
  ghost function Lower(def: Definition, rank: map<HopId, nat>, r: Hop): set<HopId>
    requires Ranked(def, rank) && r in def
  {
    set x | x in def && x.canReject && x.id != r.id
            && (r.rejectionStrategy.GetOr(Origin) == Origin
                || (x.rejectionStrategy.GetOr(Origin) == Predecessors && rank[x.id] < rank[r.id])) :: x.id
  }

  lemma LowerShrinks(def: Definition, rank: map<HopId, nat>, r: Hop, x: Hop)
    requires UniqueIds(def) && Ranked(def, rank) && NoMutualErasure(def) && r in def && x in def && Erases(r, x)
    ensures Lower(def, rank, x) < Lower(def, rank, r)
  {
    assert !EraseEachOther(r, x);
    assert x.rejectionStrategy.GetOr(Origin) == Predecessors;
    assert x.id in Lower(def, rank, r) && x.id !in Lower(def, rank, x);
  }

  function RejectingIds(hops: seq<Hop>): set<HopId> {
    set hop | hop in hops && hop.canReject :: hop.id
  }

  lemma {:induction false} RejectorsCount(hops: seq<Hop>)
    ensures |RejectingIds(hops)| <= Rejectors(hops)
  {
    if hops != [] {
      RejectorsCount(hops[1..]);
      var first: set<HopId> := if hops[0].canReject then {hops[0].id} else {};
      assert RejectingIds(hops) <= first + RejectingIds(hops[1..]);
      SmallerSet(RejectingIds(hops), first + RejectingIds(hops[1..]));
    }
  }

  /** The number of levels a definition needs at most. */
  function Top(def: Definition): nat {
    if Rejectors(def) == 0 then 0 else Rejectors(def) - 1
  }

  lemma LowerCount(def: Definition, rank: map<HopId, nat>, r: Hop)
    requires Ranked(def, rank) && r in def && r.canReject
    ensures |Lower(def, rank, r)| <= Top(def)
  {
    RejectorsCount(def);
    assert r.id in RejectingIds(def) && r.id !in Lower(def, rank, r);
    SmallerSet(Lower(def, rank, r), RejectingIds(def));
  }

  ghost function LevelOf(def: Definition, rank: map<HopId, nat>, r: Hop): nat
    requires Ranked(def, rank) && r in def
  {
    if r.canReject then |Lower(def, rank, r)| else 0
  }

  ghost function LevelMap(def: Definition, rank: map<HopId, nat>): map<HopId, nat>
    requires Ranked(def, rank)
  {
    map id | id in Ids(def) :: LevelOf(def, rank, FindHop(def, id).value)
  }

  lemma LevelsExist(def: Definition, rank: map<HopId, nat>)
    requires ValidDefinition(def) && Ranked(def, rank) && NoMutualErasure(def)
    ensures Levels(def, LevelMap(def, rank), Top(def))
  {
    var level := LevelMap(def, rank);
    forall hop | hop in def
      ensures hop.id in level && level[hop.id] == LevelOf(def, rank, hop) <= Top(def)
    {
      FindHopIs(def, hop);
      if hop.canReject {
        LowerCount(def, rank, hop);
      }
    }
    forall r, x | r in def && x in def && Erases(r, x)
      ensures level[x.id] < level[r.id]
    {
      LowerShrinks(def, rank, r, x);
      SmallerSet(Lower(def, rank, x), Lower(def, rank, r));
    }
  }

  lemma MutualErasureHasNoLevels(def: Definition, x: Hop, y: Hop, level: map<HopId, nat>, top: nat)
    requires x in def && y in def && EraseEachOther(x, y)
    ensures !Levels(def, level, top)
  {
  }

  /** On an acyclic definition, levels decreasing along erasure exist exactly when no two hops erase each other. */
  lemma LevelsExistIff(def: Definition, rank: map<HopId, nat>)
    requires ValidDefinition(def) && Ranked(def, rank)
    ensures (exists level, top: nat :: Levels(def, level, top)) <==> NoMutualErasure(def)
  {
    if NoMutualErasure(def) {
      LevelsExist(def, rank);
    } else {
      var x, y :| x in def && y in def && EraseEachOther(x, y);
      forall level, top: nat
        ensures !Levels(def, level, top)
      {
        MutualErasureHasNoLevels(def, x, y, level, top);
      }
    }
  }

  // ----- Two hops that erase each other reject for ever -----

  /** Nothing in flight, nothing failed or skipped, and every pending hop waits for an unfinished one. */
  ghost predicate Calm(def: Definition, h: Hops) {
    && Shaped(def, h) && Awaiting(def, h)
    && forall id | id in h :: h[id].status == Pending || h[id].status == Ready || h[id].status == Complete
  }

  /** Calm except for the hop `z` in flight. */
  ghost predicate InFlight(def: Definition, h: Hops, z: HopId) {
    && Shaped(def, h) && Awaiting(def, h) && Is(h, z, Dispatched)
    && forall id | id in h && id != z :: h[id].status == Pending || h[id].status == Ready || h[id].status == Complete
  }

  predicate Unfinished(h: Hops, id: HopId) {
    id in h && h[id].status != Complete && h[id].rejectionCount.GetOr(0) == 0
  }

  lemma LaunchKeepsCalm(def: Definition, h: Hops, z: HopId)
    requires ValidDefinition(def) && Calm(def, h) && Is(h, z, Ready)
    ensures var s := Dispatch(z, h, "", 0);
            && Enabled(def, h, s) && InFlight(def, Take(def, h, s), z)
            && forall id | id in h :: Unfinished(h, id) ==> Unfinished(Take(def, h, s), id)
  {
    var s := Dispatch(z, h, "", 0);
    RestartKeepsAwaiting(def, h, z, Take(def, h, s)[z]);
  }

  lemma FlightIsFound(def: Definition, h: Hops, z: HopId)
    requires ValidDefinition(def) && InFlight(def, h, z)
    ensures FindDispatched(def, h) == Some(z)
  {
    DispatchedIsFound(def, h, z);
  }

  /** The hop in flight completes. */
  lemma LandingKeepsCalm(def: Definition, h: Hops, z: HopId, task: TaskMeta)
    requires ValidDefinition(def) && Plain(def) && InFlight(def, h, z)
    ensures var s := Report(Done, None, task, 0, None);
            && Enabled(def, h, s) && Calm(def, Take(def, h, s))
            && forall id | id in h && id != z :: Unfinished(h, id) ==> Unfinished(Take(def, h, s), id)
  {
    FlightIsFound(def, h, z);
    CompletionEffect(def, h, z, task);
    NormalLeavesNoneStartable(def, h, HopEvent(z, Completed, None), task, 0);
    var h' := EvaluateNormal(def, h, HopEvent(z, Completed, None), task, 0);
    forall hop | hop in def && Is(h', hop.id, Pending)
      ensures exists d :: d in hop.dependsOn && !Satisfied(h', d)
    {
      NotStartableAwaits(def, h, h', hop);
    }
  }

  /** Completing the hop in flight readies some pending hops and changes nothing else. */
  lemma CompletionEffect(def: Definition, h: Hops, z: HopId, task: TaskMeta)
    requires Plain(def) && InFlight(def, h, z)
    ensures var h' := EvaluateNormal(def, h, HopEvent(z, Completed, None), task, 0);
            && h'.Keys == h.Keys && Is(h', z, Complete)
            && forall id | id in h && id != z :: h'[id] == h[id] || (Is(h, id, Pending) && h'[id] == h[id].(status := Ready))
  {
    var event := HopEvent(z, Completed, None);
    var h2 := ApplyPrimary(h, event, 0);
    ScanWithoutConditions(def, h2, BuildContext(h2, task), task, 0);
    assert AfterScan(def, h, event, task, 0) == h2;
    ReadySetIsPending(def, h2);
  }

  lemma NotStartableAwaits(def: Definition, h: Hops, h': Hops, hop: Hop)
    requires hop in def && Awaiting(def, h) && Is(h, hop.id, Pending) && Is(h', hop.id, Pending) && ReadySet(def, h') == {}
    requires forall id | id in h' :: h'[id].status != Skipped
    ensures exists d :: d in hop.dependsOn && !Satisfied(h', d)
  {
    var d :| d in hop.dependsOn && !Satisfied(h, d);
    assert hop.id !in ReadySet(def, h');
    assert !JoinMet(h', hop);
    if hop.joinType == Any {
      assert !Is(h', d, Complete);
    }
  }

  /** The hop in flight rejects for the first time since its count was erased. */
  lemma RejectionKeepsCalm(def: Definition, h: Hops, t: Hop, u: Hop, task: TaskMeta)
    requires ValidDefinition(def) && InFlight(def, h, t.id) && t in def && u in def && Erases(t, u)
    requires h[t.id].rejectionCount.GetOr(0) == 0
    ensures var s := Report(NeedsReview, None, task, 0, None);
            Enabled(def, h, s) && Calm(def, Take(def, h, s)) && Unfinished(Take(def, h, s), u.id)
  {
    FlightIsFound(def, h, t.id);
    FindHopIs(def, t);
    ResetIsCalm(def, h, t);
    ErasedIsUnfinished(def, h, t, u);
  }

  lemma ResetIsCalm(def: Definition, h: Hops, t: Hop)
    requires ValidDefinition(def) && InFlight(def, h, t.id) && t in def && CountAfter(h, t.id) < DEFAULT_MAX_REJECTIONS
    ensures Calm(def, EvaluateRejection(def, h, t, 0))
  {
    ResetKeepsAwaiting(def, h, t, 0);
  }

  lemma ErasedIsUnfinished(def: Definition, h: Hops, t: Hop, u: Hop)
    requires ValidDefinition(def) && Shaped(def, h) && t in def && u in def && Erases(t, u)
    requires CountAfter(h, t.id) < DEFAULT_MAX_REJECTIONS
    ensures Unfinished(EvaluateRejection(def, h, t, 0), u.id)
  {
    OriginEffect(def, h, t.id, CountAfter(h, t.id), u);
    PredecessorsEffect(def, h, t, CountAfter(h, t.id), u);
  }

  /** What the loop keeps: `t` is the next to reject, unfinished and with its count erased. */
  ghost predicate Looping(def: Definition, h: Hops, t: Hop) {
    && Unfinished(h, t.id)
    && (Calm(def, h) || exists z :: InFlight(def, h, z))
  }

  /** A hop that is ready now and on which `t` waits, or `t` itself. */
  lemma NextToLaunch(def: Definition, rank: map<HopId, nat>, h: Hops, t: Hop) returns (z: HopId)
    requires ValidDefinition(def) && Ranked(def, rank) && Calm(def, h) && t in def && Unfinished(h, t.id)
    ensures Is(h, z, Ready)
  {
    z := t.id;
    if Is(h, t.id, Pending) {
      z := FindActive(def, rank, h, t);
    }
  }

  /** One more step of the loop; after a rejection the two hops change places. */
  lemma LoopStep(def: Definition, rank: map<HopId, nat>, h: Hops, t: Hop, u: Hop, task: TaskMeta) returns (s: Step, next: Hop, other: Hop)
    requires ValidDefinition(def) && Ranked(def, rank) && Plain(def) && t in def && u in def && EraseEachOther(t, u)
    requires Looping(def, h, t)
    ensures Enabled(def, h, s) && !Stale(h, s) && (s.Dispatch? ==> s.seen == h)
    ensures next in def && other in def && EraseEachOther(next, other) && Looping(def, Take(def, h, s), next)
  {
    next, other := t, u;
    if Calm(def, h) {
      var z := NextToLaunch(def, rank, h, t);
      LaunchKeepsCalm(def, h, z);
      s := Dispatch(z, h, "", 0);
    } else {
      var z :| InFlight(def, h, z);
      if z == t.id {
        RejectionKeepsCalm(def, h, t, u, task);
        s := Report(NeedsReview, None, task, 0, None);
        next, other := u, t;
      } else {
        LandingKeepsCalm(def, h, z, task);
        s := Report(Done, None, task, 0, None);
      }
    }
  }

  lemma {:induction false} LoopFor(def: Definition, rank: map<HopId, nat>, past: seq<Hops>, h: Hops, t: Hop, u: Hop, task: TaskMeta, n: nat)
    returns (steps: seq<Step>)
    requires ValidDefinition(def) && Ranked(def, rank) && Plain(def) && t in def && u in def && EraseEachOther(t, u)
    requires Shaped(def, h) && Looping(def, h, t)
    ensures |steps| == n && Legal(def, h, steps) && Listed(def, past, h, steps) && StaleDispatches(def, h, steps) == 0
    decreases n
  {
    if n == 0 {
      steps := [];
    } else {
      var s, next, other := LoopStep(def, rank, h, t, u, task);
      TakeKeepsShape(def, h, s);
      var rest := LoopFor(def, rank, past + [h], Take(def, h, s), next, other, task, n - 1);
      Prepend(def, past, h, s, rest);
      steps := [s] + rest;
    }
  }

  lemma InitialIsCalm(def: Definition)
    requires ValidDefinition(def)
    ensures Calm(def, InitialState(def))
    ensures forall hop | hop in def :: Unfinished(InitialState(def), hop.id)
  {
    InitialAwaits(def);
    forall hop | hop in def
      ensures Unfinished(InitialState(def), hop.id)
    {
      InitialStatus(def, hop);
    }
  }

  /**
   * In an acyclic workflow without conditions, two hops that erase each other's count give runs of every length from the
   * initial state, with fresh listings only. One of the two rejects to the origin; the other may be any hop.
   */
  lemma {:induction false} EndlessRuns(def: Definition, rank: map<HopId, nat>, x: Hop, y: Hop, task: TaskMeta, n: nat)
    returns (steps: seq<Step>)
    requires ValidDefinition(def) && Ranked(def, rank) && Plain(def) && x in def && y in def && EraseEachOther(x, y)
    ensures |steps| == n && Legal(def, InitialState(def), steps) && Listed(def, [], InitialState(def), steps)
    ensures StaleDispatches(def, InitialState(def), steps) == 0
  {
    InitialIsCalm(def);
    steps := LoopFor(def, rank, [], InitialState(def), x, y, task, n);
  }

  // ----- Exactly when runs are bounded -----

  /** Every run takes at most `bound` steps, and four more for every dispatch on a stale listing. */
  ghost predicate BoundedBy(def: Definition, bound: nat)
    requires ValidDefinition(def)
  {
    forall steps | Legal(def, InitialState(def), steps) ::
      |steps| <= bound + 4 * StaleDispatches(def, InitialState(def), steps)
  }

  /** On acyclic definitions, conditions or not: without mutual erasure, at most (2r + 1)^r rounds of four steps per hop. */
  lemma {:induction false} BoundedWithoutMutualErasure(def: Definition, rank: map<HopId, nat>)
    requires ValidDefinition(def) && Ranked(def, rank) && NoMutualErasure(def)
    ensures BoundedBy(def, Rounds(def, Top(def), 4 * |def|))
  {
    LevelsExist(def, rank);
    forall steps | Legal(def, InitialState(def), steps)
      ensures |steps| <= Rounds(def, Top(def), 4 * |def|) + 4 * StaleDispatches(def, InitialState(def), steps)
    {
      RunLengthBound(def, LevelMap(def, rank), Top(def), steps);
    }
  }

  /** In an acyclic workflow without conditions, runs are bounded if and only if no two hops erase each other's count. */
  lemma {:induction false} BoundedIff(def: Definition, rank: map<HopId, nat>)
    requires ValidDefinition(def) && Ranked(def, rank) && Plain(def)
    ensures (exists bound: nat :: BoundedBy(def, bound)) <==> NoMutualErasure(def)
  {
    if NoMutualErasure(def) {
      BoundedWithoutMutualErasure(def, rank);
    } else {
      var x, y :| x in def && y in def && EraseEachOther(x, y);
      var numeric: Value -> Option<real> := (v: Value) => None;
      forall bound: nat
        ensures !BoundedBy(def, bound)
      {
        var steps := EndlessRuns(def, rank, x, y, TaskMeta("", [], "", map[], numeric), bound + 1);
      }
    }
  }
}
