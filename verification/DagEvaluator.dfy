/** The evaluator: a working copy of the hop states and a change log, updated in place. */
module DagEvaluator {
  import opened Wrappers
  import opened Conditions
  import opened Workflow
  import opened DagSemantics
  import DagFacts
  import EvaluationLaws
  import opened ChangeLog

  /** The distinct elements of `s`, first occurrences in order: a JavaScript `Set` of the list. */
  function Distinct(s: seq<HopId>): (r: seq<HopId>)
    ensures forall x :: x in r <==> x in s
    ensures forall i, j | 0 <= i < j < |r| :: r[i] != r[j]
  {
    if s == [] then []
    else
      var init := Distinct(s[..|s| - 1]);
      var x := s[|s| - 1];
      assert forall y :: y in s <==> y in s[..|s| - 1] || y == x by {
        assert s == s[..|s| - 1] + [x];
      }
      if x in init then init else init + [x]
  }

  /** `hopId` is a pending hop all of whose predecessors have failed or been skipped. */
  ghost predicate Eligible(h: Hops, hop: Hop) {
    Is(h, hop.id, Pending) && forall d | d in hop.dependsOn :: NonSuccess(h, d)
  }

  /** Every hop that some member of `A` precedes has been dealt with. */
  ghost predicate Examined(def: Definition, h: Hops, A: set<HopId>) {
    forall hop, d | hop in def && d in hop.dependsOn && d in A :: !Eligible(h, hop)
  }

  /** A closed set for a state is still closed after skipping some of its members. */
  lemma ClosedAfterSkips(def: Definition, h: Hops, start: HopId, T: set<HopId>, A: set<HopId>, y: HopId, now: Timestamp)
    requires Closed(def, h, start, T) && A <= T && y in T
    ensures Closed(def, SkipAll(h, A, now), y, T)
  {
    var h' := SkipAll(h, A, now);
    forall hop | hop in def && Is(h', hop.id, Pending) && Touched(hop, y, T) && CutOff(h', hop, T)
      ensures hop.id in T
    {
      assert CutOff(h, hop, T);
      assert Touched(hop, start, T);
    }
  }

  /** A hop dealt with before skipping `B` stays dealt with when `B` is examined afterwards. */
  lemma StaysIneligible(def: Definition, h: Hops, B: set<HopId>, hop: Hop, now: Timestamp)
    requires hop in def && !Eligible(h, hop) && Examined(def, SkipAll(h, B, now), B)
    ensures !Eligible(SkipAll(h, B, now), hop)
  {
    if Is(h, hop.id, Pending) {
      var x :| x in hop.dependsOn && !NonSuccess(h, x);
      assert x in B ==> !Eligible(SkipAll(h, B, now), hop);
    }
  }

  lemma StillExamined(def: Definition, h: Hops, A: set<HopId>, B: set<HopId>, now: Timestamp)
    requires Examined(def, h, A) && Examined(def, SkipAll(h, B, now), B)
    ensures Examined(def, SkipAll(h, B, now), A + B)
  {
    forall hop, d | hop in def && d in hop.dependsOn && d in A
      ensures !Eligible(SkipAll(h, B, now), hop)
    {
      StaysIneligible(def, h, B, hop, now);
    }
  }

  /** Ids of the hops still pending; every recursive cascade call starts with fewer of them. */
  function PendingOf(h: Hops): set<HopId> {
    set id | id in h && h[id].status == Pending
  }

  lemma SkipOne(h: Hops, id: HopId, now: Timestamp)
    requires id in h
    ensures h[id := h[id].(status := Skipped, completedAt := Some(now))] == SkipAll(h, {id}, now)
  {
  }

  lemma FewerPending(h0: Hops, A: set<HopId>, id: HopId, now: Timestamp)
    requires Is(SkipAll(h0, A, now), id, Pending)
    ensures PendingOf(SkipAll(SkipAll(h0, A, now), {id}, now)) < PendingOf(h0)
  {
    assert id in PendingOf(h0);
  }

  lemma SkipAllTwice(h: Hops, A: set<HopId>, B: set<HopId>, now: Timestamp)
    ensures SkipAll(SkipAll(h, A, now), B, now) == SkipAll(h, A + B, now)
  {
  }

  /** State of the cascade from `start` after `A` has been skipped and the first `i` downstream hops examined. */
  ghost predicate Cascading(def: Definition, h0: Hops, start: HopId, A: set<HopId>, h: Hops, seen: seq<HopId>, now: Timestamp) {
    && A <= CascadeSet(def, h0, start)
    && h == SkipAll(h0, A, now)
    && Examined(def, h, A)
    && (forall hop | hop in def && hop.id in seen :: !Eligible(h, hop))
  }

  /** The cascade set of a freshly skipped hop, together with that hop, has been examined. */
  lemma CascadeExamines(def: Definition, h1: Hops, y: HopId, now: Timestamp)
    requires NonSuccess(h1, y)
    ensures var B := {y} + CascadeSet(def, h1, y);
            Examined(def, SkipAll(h1, B - {y}, now), B)
  {
    var S := CascadeSet(def, h1, y);
    CascadeSetIsLeast(def, h1, y);
    assert {y} + S - {y} == S;
    var h2 := SkipAll(h1, S, now);
    forall hop, d | hop in def && d in hop.dependsOn && d in {y} + S
      ensures !Eligible(h2, hop)
    {
      if Is(h2, hop.id, Pending) {
        assert Touched(hop, y, S);
        assert !CutOff(h1, hop, S);
      }
    }
  }

  /** A hop that has to be skipped belongs to the cascade set, and so does its own cascade. */
  lemma CascadeStepIsNeeded(def: Definition, h0: Hops, start: HopId, A: set<HopId>, y: Hop, h1: Hops, now: Timestamp)
    requires y in def && start in y.dependsOn && A <= CascadeSet(def, h0, start)
    requires Eligible(SkipAll(h0, A, now), y) && h1 == SkipAll(h0, A + {y.id}, now)
    ensures A + {y.id} + CascadeSet(def, h1, y.id) <= CascadeSet(def, h0, start)
  {
    var C := CascadeSet(def, h0, start);
    CascadeSetIsLeast(def, h0, start);
    assert y.id in C by {
      assert Touched(y, start, C) && CutOff(h0, y, C);
    }
    ClosedAfterSkips(def, h0, start, C, A + {y.id}, y.id, now);
    CascadeSetIsLeast(def, h1, y.id);
  }

  /** Skipping one more hop, with its own cascade, leaves every hop dealt with so far dealt with. */
  lemma CascadeStepExamines(def: Definition, A: set<HopId>, h: Hops, seen: seq<HopId>, y: Hop, h1: Hops, now: Timestamp)
    requires y in def && Eligible(h, y) && Examined(def, h, A) && h1 == SkipAll(h, {y.id}, now)
    requires forall hop | hop in def && hop.id in seen :: !Eligible(h, hop)
    ensures var S := CascadeSet(def, h1, y.id);
            && Examined(def, SkipAll(h1, S, now), A + {y.id} + S)
            && (forall hop | hop in def && hop.id in seen + [y.id] :: !Eligible(SkipAll(h1, S, now), hop))
  {
    var S := CascadeSet(def, h1, y.id);
    var B := {y.id} + S;
    CascadeSetIsLeast(def, h1, y.id);
    CascadeExamines(def, h1, y.id, now);
    assert B - {y.id} == S;
    SkipAllTwice(h, {y.id}, S, now);
    StillExamined(def, h, A, B, now);
    assert A + B == A + {y.id} + S;
    forall hop | hop in def && hop.id in seen
      ensures !Eligible(SkipAll(h, B, now), hop)
    {
      StaysIneligible(def, h, B, hop, now);
    }
  }

  /** Skipping one more hop, with its own cascade, advances the cascade under way. */
  lemma CascadeStep(def: Definition, h0: Hops, start: HopId, A: set<HopId>, h: Hops, seen: seq<HopId>, y: Hop, h1: Hops, now: Timestamp)
    requires y in def && start in y.dependsOn && Eligible(h, y) && h1 == SkipAll(h, {y.id}, now)
    requires Cascading(def, h0, start, A, h, seen, now)
    ensures var S := CascadeSet(def, h1, y.id);
            Cascading(def, h0, start, A + {y.id} + S, SkipAll(h1, S, now), seen + [y.id], now)
  {
    SkipAllTwice(h0, A, {y.id}, now);
    CascadeStepIsNeeded(def, h0, start, A, y, h1, now);
    CascadeStepExamines(def, A, h, seen, y, h1, now);
    SkipAllTwice(h0, A + {y.id}, CascadeSet(def, h1, y.id), now);
  }

  /** A downstream hop that is not to be skipped only has to be ticked off. */
  lemma CascadePass(def: Definition, h0: Hops, start: HopId, A: set<HopId>, h: Hops, seen: seq<HopId>, y: Hop, now: Timestamp)
    requires UniqueIds(def) && y in def && !Eligible(h, y)
    requires Cascading(def, h0, start, A, h, seen, now)
    ensures Cascading(def, h0, start, A, h, seen + [y.id], now)
  {
    forall hop | hop in def && hop.id in seen + [y.id]
      ensures !Eligible(h, hop)
    {
      if hop.id == y.id {
        SameId(def, hop, y);
      }
    }
  }

  /** When all downstream hops have been examined, exactly the cascade set has been skipped. */
  lemma CascadeDone(def: Definition, h0: Hops, start: HopId, A: set<HopId>, h: Hops, seen: seq<HopId>, now: Timestamp)
    requires Cascading(def, h0, start, A, h, seen, now)
    requires forall y :: y in seen <==> Edge(def, |def|, start, y)
    ensures A == CascadeSet(def, h0, start)
  {
    forall hop | hop in def && Is(h0, hop.id, Pending) && Touched(hop, start, A) && CutOff(h0, hop, A)
      ensures hop.id in A
    {
      assert start in hop.dependsOn ==> Edge(def, |def|, start, hop.id);
      assert !Eligible(h, hop);
    }
    assert Closed(def, h0, start, A);
    CascadeSetIsLeast(def, h0, start);
  }

  /** Some hop among the first `n` is `y` and depends on `d`. */
  ghost predicate Edge(def: Definition, n: nat, d: HopId, y: HopId)
    requires n <= |def|
  {
    exists j | 0 <= j < n :: def[j].id == y && d in def[j].dependsOn
  }

  /** The definition of a hop named by the downstream list of `d`. */
  function Dependent(def: Definition, d: HopId, y: HopId): (hop: Hop)
    requires UniqueIds(def) && Edge(def, |def|, d, y)
    ensures hop in def && hop.id == y && d in hop.dependsOn
  {
    var j: nat :| j < |def| && def[j].id == y && d in def[j].dependsOn;
    FindHopIs(def, def[j]);
    FindHop(def, y).value
  }

  /** `index.get(d) ?? []`. */
  function Downstream(index: map<HopId, seq<HopId>>, d: HopId): seq<HopId> {
    if d in index then index[d] else []
  }

  /** `h` agrees with `target` on `done` and with `h0` elsewhere. */
  ghost predicate Blend(h: Hops, h0: Hops, target: Hops, done: set<HopId>) {
    && h.Keys == h0.Keys == target.Keys
    && forall id | id in h :: h[id] == if id in done then target[id] else h0[id]
  }

  lemma BlendStep(h: Hops, h0: Hops, target: Hops, done: set<HopId>, id: HopId)
    requires Blend(h, h0, target, done) && id in h
    ensures Blend(h[id := target[id]], h0, target, done + {id})
  {
  }

  lemma BlendDone(h: Hops, h0: Hops, target: Hops, done: set<HopId>)
    requires Blend(h, h0, target, done)
    requires forall id | id in h0 && id !in done :: h0[id] == target[id]
    ensures h == target
  {
  }

  /** The reset loop reads only hops it does not overwrite. */
  lemma SameOutside(h: Hops, h0: Hops, target: Hops, hop: Hop, reset: set<HopId>, done: set<HopId>)
    requires Blend(h, h0, target, done) && done <= reset
    ensures OutsideSatisfied(h, hop, reset) == OutsideSatisfied(h0, hop, reset)
  {
  }

  lemma StatusesUpdate(h: Hops, id: HopId, next: HopState)
    requires id in h
    ensures Statuses(h[id := next]) == Statuses(h)[id := next.status]
    ensures next.status == h[id].status ==> Statuses(h[id := next]) == Statuses(h)
  {
  }

  function Elements(s: seq<HopId>): set<HopId> {
    set id | id in s
  }

  lemma ElementsStep(s: seq<HopId>, i: nat)
    requires i < |s|
    ensures Elements(s[..i + 1]) == Elements(s[..i]) + {s[i]}
    ensures Elements(s[..i]) <= Elements(s)
  {
    assert s[..i + 1] == s[..i] + [s[i]];
  }

  /** The i-th hop to be reset is defined, and is not among those before it. */
  lemma OrderStep(def: Definition, rejected: Hop, order: seq<HopId>, i: nat)
    requires ValidDefinition(def) && rejected in def && order == Distinct([rejected.id] + rejected.dependsOn) && i < |order|
    ensures order[i] in Ids(def) && order[i] in ResetSet(rejected) - Elements(order[..i])
    ensures Elements(order[..i + 1]) == Elements(order[..i]) + {order[i]} && Elements(order[..i]) <= ResetSet(rejected)
  {
    ElementsStep(order, i);
    assert order[i] in [rejected.id] + rejected.dependsOn;
    forall id | id in order[..i]
      ensures id in ResetSet(rejected) && id != order[i]
    {
      var j :| 0 <= j < i && order[..i][j] == id;
      assert order[j] in [rejected.id] + rejected.dependsOn;
    }
  }

  lemma OrderIsSet(rejected: Hop, order: seq<HopId>)
    requires order == Distinct([rejected.id] + rejected.dependsOn)
    ensures order[..|order|] == order && Elements(order) == ResetSet(rejected)
  {
    assert forall id :: id in order <==> id in [rejected.id] + rejected.dependsOn;
  }

  /** The log has grown by one transition to ready for each of `ready`, in order. */
  ghost predicate LogsReadying(log: seq<HopTransition>, before: seq<HopTransition>, ready: seq<HopId>)
    decreases |ready|
  {
    if ready == [] then log == before
    else
      && log != []
      && log[|log| - 1].hopId == ready[|ready| - 1] && log[|log| - 1].to == Ready && log[|log| - 1].reason == Primary
      && LogsReadying(log[..|log| - 1], before, ready[..|ready| - 1])
  }

  lemma LogOneMore(log: seq<HopTransition>, before: seq<HopTransition>, ready: seq<HopId>, i: nat, c: HopTransition)
    requires i < |ready| && LogsReadying(log, before, ready[..i])
    requires c.hopId == ready[i] && c.to == Ready && c.reason == Primary
    ensures LogsReadying(log + [c], before, ready[..i + 1])
  {
    assert (log + [c])[..|log|] == log && ready[..i + 1][..i] == ready[..i];
  }

  /** From the i-th on, the listed hops are distinct and pending. */
  ghost predicate Waiting(h: Hops, ready: seq<HopId>, i: nat) {
    && (forall j | i <= j < |ready| :: Is(h, ready[j], Pending))
    && forall j, k | i <= j < k < |ready| :: ready[j] != ready[k]
  }

  lemma WaitingStep(h: Hops, ready: seq<HopId>, i: nat, next: HopState)
    requires i < |ready| && Waiting(h, ready, i)
    ensures Is(h, ready[i], Pending) && Waiting(h[ready[i] := next], ready, i + 1)
  {
  }

  /** A "predecessors" rejection under way: the hops in `done` have been reset and logged. */
  ghost predicate Resetting(h0: Hops, target: Hops, h: Hops, done: set<HopId>, before: seq<HopTransition>, log: seq<HopTransition>, rejected: HopId) {
    && Blend(h, h0, target, done)
    && Resets(before, log, h0, target, RejectPredecessors)
    && (rejected in done ==> Mentions(before, log, rejected))
  }

  lemma OriginTold(def: Definition, h: Hops, rejected: Hop, count: nat, before: seq<HopTransition>, log: seq<HopTransition>, now: Timestamp)
    requires ValidDefinition(def) && Shaped(def, h) && rejected in def && count == CountAfter(h, rejected.id) < DEFAULT_MAX_REJECTIONS
    requires rejected.rejectionStrategy.GetOr(Origin) == Origin
    requires Resets(before, log, h, ResetOrigin(def, h, rejected.id, count), RejectOrigin) && Mentions(before, log, rejected.id)
    ensures EvaluateRejection(def, h, rejected, now) == ResetOrigin(def, h, rejected.id, count)
    ensures before == [] ==> TellsRejection(h, rejected, EvaluateRejection(def, h, rejected, now), log)
  {
  }

  lemma PredecessorsTold(def: Definition, h: Hops, rejected: Hop, count: nat, before: seq<HopTransition>, log: seq<HopTransition>, now: Timestamp)
    requires ValidDefinition(def) && Shaped(def, h) && rejected in def && count == CountAfter(h, rejected.id) < DEFAULT_MAX_REJECTIONS
    requires rejected.rejectionStrategy.GetOr(Origin) != Origin
    requires Resets(before, log, h, ResetPredecessors(def, h, rejected, count), RejectPredecessors) && Mentions(before, log, rejected.id)
    ensures EvaluateRejection(def, h, rejected, now) == ResetPredecessors(def, h, rejected, count)
    ensures before == [] ==> TellsRejection(h, rejected, EvaluateRejection(def, h, rejected, now), log)
  {
  }

  class WorkingCopy {
    const def: Definition
    var hops: Hops
    var changes: seq<HopTransition>
    ghost const before: map<HopId, Status>

    /** The log, replayed over the initial statuses, gives the current ones. */
    ghost predicate Valid()
      reads this
    {
      && ValidDefinition(def)
      && Shaped(def, hops)
      && Replay(before, changes) == Some(Statuses(hops))
    }

    constructor (def: Definition, hops: Hops)
      requires ValidDefinition(def) && Shaped(def, hops)
      ensures Valid() && this.def == def && this.hops == hops && changes == [] && before == Statuses(hops)
    {
      this.def := def;
      this.hops := hops;
      changes := [];
      before := Statuses(hops);
    }

    /** Overwrites one hop state and logs the transition. */
    method Put(id: HopId, next: HopState, reason: Reason)
      requires Valid() && id in hops
      modifies this
      ensures Valid() && hops == old(hops)[id := next]
      ensures changes == old(changes) + [HopTransition(id, old(hops)[id].status, next.status, reason)]
    {
      var c := HopTransition(id, hops[id].status, next.status, reason);
      ReplayPush(before, changes, c);
      hops := hops[id := next];
      changes := changes + [c];
      StatusesUpdate(old(hops), id, next);
    }

    /** Reverse adjacency: the downstream list of `d` names exactly the hops that depend on `d`. */
    method BuildDownstreamIndex() returns (index: map<HopId, seq<HopId>>)
      ensures forall d, y :: y in Downstream(index, d) <==> Edge(def, |def|, d, y)
    {
      index := map[];
      for i := 0 to |def|
        invariant forall d, y :: y in Downstream(index, d) <==> Edge(def, i, d, y)
      {
        var hop := def[i];
        ghost var index0 := index;
        if hop.id !in index {
          index := index[hop.id := []];
        }
        for k := 0 to |hop.dependsOn|
          invariant forall d, y :: y in Downstream(index, d) <==>
                                   y in Downstream(index0, d) || (y == hop.id && d in hop.dependsOn[..k])
        {
          var dep := hop.dependsOn[k];
          ghost var index1 := index;
          if dep !in index {
            index := index[dep := []];
          }
          index := index[dep := index[dep] + [hop.id]];
          assert forall d :: Downstream(index, d) == if d == dep then Downstream(index1, d) + [hop.id] else Downstream(index1, d);
          assert hop.dependsOn[..k + 1] == hop.dependsOn[..k] + [dep];
        }
        assert hop.dependsOn[..|hop.dependsOn|] == hop.dependsOn;
        forall d, y
          ensures Edge(def, i + 1, d, y) <==> Edge(def, i, d, y) || (y == hop.id && d in hop.dependsOn)
        {
        }
      }
    }

    method CascadeSkips(index: map<HopId, seq<HopId>>, start: HopId, now: Timestamp)
      requires Valid()
      requires forall d, y :: y in Downstream(index, d) <==> Edge(def, |def|, d, y)
      modifies this
      ensures Valid()
      ensures hops == SkipAll(old(hops), CascadeSet(def, old(hops), start), now)
      ensures Moves(old(changes), changes, old(hops), hops, Skipped, Cascade)
      decreases PendingOf(hops)
    {
      ghost var A: set<HopId> := {};
      var downstream := Downstream(index, start);
      assert hops == SkipAll(hops, {}, now);
      for i := 0 to |downstream|
        invariant Valid()
        invariant Cascading(def, old(hops), start, A, hops, downstream[..i], now)
        invariant Moves(old(changes), changes, old(hops), hops, Skipped, Cascade) && OnlyMoves(old(hops), hops, Skipped)
      {
        var hopId := downstream[i];
        assert downstream[..i + 1] == downstream[..i] + [hopId];
        var hop := Dependent(def, start, hopId);
        if hops[hopId].status == Pending && (forall d | d in hop.dependsOn :: NonSuccess(hops, d)) {
          ghost var h, log := hops, changes;
          MoveOne(changes, hops, hopId, hops[hopId].(status := Skipped, completedAt := Some(now)), Cascade);
          Put(hopId, hops[hopId].(status := Skipped, completedAt := Some(now)), Cascade);
          MovesAfterMoves(old(changes), log, changes, old(hops), h, hops, Skipped, Cascade);
          SkipOne(h, hopId, now);
          FewerPending(old(hops), A, hopId, now);
          CascadeStep(def, old(hops), start, A, h, downstream[..i], hop, hops, now);
          A := A + {hopId} + CascadeSet(def, hops, hopId);
          h, log := hops, changes;
          CascadeSetIsLeast(def, hops, hopId);
          SkipAllOnlyMoves(hops, CascadeSet(def, hops, hopId), now);
          CascadeSkips(index, hopId, now);
          MovesAfterMoves(old(changes), log, changes, old(hops), h, hops, Skipped, Cascade);
        } else {
          CascadePass(def, old(hops), start, A, hops, downstream[..i], hop, now);
        }
      }
      assert downstream[..|downstream|] == downstream;
      CascadeDone(def, old(hops), start, A, hops, downstream, now);
    }

    method EvaluateNewlyEligibleConditions(context: Value, task: TaskMeta, now: Timestamp)
      requires Valid()
      modifies this
      ensures Valid()
      ensures hops == Scan(def, old(hops), context, task, now)
      ensures EvaluationLaws.ConditionsApplied(def, old(hops), hops, context, task, now)
      ensures Moves(old(changes), changes, old(hops), hops, Skipped, ConditionFalse)
    {
      for i := 0 to |def|
        invariant Valid()
        invariant Scan(def[i..], hops, context, task, now) == Scan(def, old(hops), context, task, now)
        invariant Moves(old(changes), changes, old(hops), hops, Skipped, ConditionFalse) && OnlyMoves(old(hops), hops, Skipped)
      {
        var hop := def[i];
        assert def[i..][1..] == def[i + 1..];
        assert hop.id in hops;
        if hops[hop.id].status == Pending && hop.condition.Some? && AllTerminal(hops, hop) {
          if !EvaluateCondition(hop.condition.value, Context(context, Statuses(hops), task)) {
            ghost var h, log := hops, changes;
            MoveOne(changes, hops, hop.id, hops[hop.id].(status := Skipped, completedAt := Some(now)), ConditionFalse);
            Put(hop.id, hops[hop.id].(status := Skipped, completedAt := Some(now)), ConditionFalse);
            MovesAfterMoves(old(changes), log, changes, old(hops), h, hops, Skipped, ConditionFalse);
          }
        }
      }
      assert def[|def|..] == [];
      EvaluationLaws.ScanApplies(def, old(hops), context, task, now);
    }

    method DetermineReadyHops() returns (ready: seq<HopId>)
      requires Valid()
      ensures ready == ReadyList(def, hops)
      ensures forall id :: id in ready <==> id in ReadySet(def, hops)
      ensures forall i, j | 0 <= i < j < |ready| :: ready[i] != ready[j]
    {
      ready := [];
      for i := 0 to |def|
        invariant ready == ReadyList(def[..i], hops)
      {
        var hop := def[i];
        assert def[..i + 1][..i] == def[..i];
        if hops[hop.id].status == Pending && hop.dependsOn != [] && JoinMet(hops, hop) {
          ready := ready + [hop.id];
        }
      }
      assert def[..|def|] == def;
      ReadyListIsReadySet(def, hops);
      ReadyListIsDistinct(def, hops);
    }

    /** Marks one hop ready. */
    method MarkOne(id: HopId, ghost h0: Hops, ghost log: seq<HopTransition>)
      requires Valid() && Is(hops, id, Pending) && Moves(log, changes, h0, hops, Ready, Primary) && OnlyMoves(h0, hops, Ready)
      modifies this
      ensures Valid() && hops == old(hops)[id := old(hops)[id].(status := Ready)]
      ensures changes == old(changes) + [HopTransition(id, Pending, Ready, Primary)]
      ensures Moves(log, changes, h0, hops, Ready, Primary) && OnlyMoves(h0, hops, Ready)
    {
      MoveOne(changes, hops, id, hops[id].(status := Ready), Primary);
      Put(id, hops[id].(status := Ready), Primary);
      MovesAfterMoves(log, old(changes), changes, h0, old(hops), hops, Ready, Primary);
    }

    /** Marks the given hops ready, one logged transition each. */
    method MarkAllReady(ready: seq<HopId>)
      requires Valid()
      requires Waiting(hops, ready, 0)
      modifies this
      ensures Valid()
      ensures hops == MarkReady(old(hops), Elements(ready))
      ensures LogsReadying(changes, old(changes), ready)
      ensures Moves(old(changes), changes, old(hops), hops, Ready, Primary)
    {
      ghost var target := MarkReady(hops, Elements(ready));
      for i := 0 to |ready|
        invariant Valid()
        invariant Blend(hops, old(hops), target, Elements(ready[..i]))
        invariant LogsReadying(changes, old(changes), ready[..i])
        invariant Moves(old(changes), changes, old(hops), hops, Ready, Primary) && OnlyMoves(old(hops), hops, Ready)
        invariant Waiting(hops, ready, i)
      {
        var id := ready[i];
        ghost var logged := changes;
        WaitingStep(hops, ready, i, hops[id].(status := Ready));
        BlendStep(hops, old(hops), target, Elements(ready[..i]), id);
        MarkOne(id, old(hops), old(changes));
        ElementsStep(ready, i);
        LogOneMore(logged, old(changes), ready, i, changes[|logged|]);
      }
      assert ready[..|ready|] == ready;
      BlendDone(hops, old(hops), target, Elements(ready));
    }

    /** Step 5 of an evaluation: finds the startable hops and marks them ready. */
    method MarkStartable() returns (ready: seq<HopId>)
      requires Valid()
      modifies this
      ensures Valid()
      ensures ready == ReadyList(def, old(hops))
      ensures hops == MarkReady(old(hops), ReadySet(def, old(hops)))
      ensures LogsReadying(changes, old(changes), ready)
      ensures Moves(old(changes), changes, old(hops), hops, Ready, Primary)
    {
      ready := DetermineReadyHops();
      DagFacts.ReadySetIsPending(def, hops);
      MarkAllReady(ready);
      assert Elements(ready) == ReadySet(def, old(hops));
    }

    /** Replaces a hop state by one with the same status; nothing is logged. */
    method Refresh(id: HopId, next: HopState)
      requires Valid() && id in hops && next.status == hops[id].status
      modifies this`hops
      ensures Valid() && hops == old(hops)[id := next]
    {
      hops := hops[id := next];
      StatusesUpdate(old(hops), id, next);
    }

    /** Resets one hop; a change of status is logged, and the rejected hop always is. */
    method ResetOne(hop: Hop, rejected: HopId, count: nat, ghost h0: Hops, ghost done: set<HopId>, ghost log: seq<HopTransition>)
      requires Valid() && hop in def && Shaped(def, h0) && Blend(hops, h0, ResetOrigin(def, h0, rejected, count), done)
      requires hop.id !in done && Resets(log, changes, h0, ResetOrigin(def, h0, rejected, count), RejectOrigin)
      modifies this
      ensures Valid() && Blend(hops, h0, ResetOrigin(def, h0, rejected, count), done + {hop.id})
      ensures Resets(log, changes, h0, ResetOrigin(def, h0, rejected, count), RejectOrigin)
      ensures Mentions(log, old(changes), rejected) || hop.id == rejected ==> Mentions(log, changes, rejected)
    {
      DagFacts.OriginEffect(def, h0, rejected, count, hop);
      BlendStep(hops, h0, ResetOrigin(def, h0, rejected, count), done, hop.id);
      var next := ResetState(hop, hop.dependsOn == [], rejected, count);
      if hops[hop.id].status != next.status || hop.id == rejected {
        ResetsOneMore(log, changes, h0, ResetOrigin(def, h0, rejected, count), hop.id, RejectOrigin);
        Put(hop.id, next, RejectOrigin);
      } else {
        Refresh(hop.id, next);
      }
    }

    method ResetAllHopsForOrigin(rejected: HopId, count: nat)
      requires Valid()
      modifies this
      ensures Valid()
      ensures hops == ResetOrigin(def, old(hops), rejected, count)
      ensures Resets(old(changes), changes, old(hops), hops, RejectOrigin)
      ensures rejected in hops ==> Mentions(old(changes), changes, rejected)
    {
      ghost var h0 := hops;
      for i := 0 to |def|
        invariant Valid()
        invariant Blend(hops, h0, ResetOrigin(def, h0, rejected, count), Ids(def[..i]))
        invariant Resets(old(changes), changes, h0, ResetOrigin(def, h0, rejected, count), RejectOrigin)
        invariant rejected in Ids(def[..i]) ==> Mentions(old(changes), changes, rejected)
      {
        FreshId(def, i);
        ResetOne(def[i], rejected, count, h0, Ids(def[..i]), old(changes));
      }
      assert def[..|def|] == def;
      BlendDone(hops, h0, ResetOrigin(def, h0, rejected, count), Ids(def));
    }

    /** Resets one hop of the set and logs it. */
    method ResetNear(hop: Hop, rejected: Hop, count: nat, ghost h0: Hops, ghost done: set<HopId>, ghost log: seq<HopTransition>)
      requires Valid() && rejected in def && hop in def && Shaped(def, h0) && hop.id in ResetSet(rejected) - done && done <= ResetSet(rejected)
      requires Resetting(h0, ResetPredecessors(def, h0, rejected, count), hops, done, log, changes, rejected.id)
      modifies this
      ensures Valid() && Resetting(h0, ResetPredecessors(def, h0, rejected, count), hops, done + {hop.id}, log, changes, rejected.id)
    {
      var reset := ResetSet(rejected);
      ghost var target := ResetPredecessors(def, h0, rejected, count);
      FindHopIs(def, hop);
      SameOutside(hops, h0, target, hop, reset, done);
      BlendStep(hops, h0, target, done, hop.id);
      ResetsOneMore(log, changes, h0, target, hop.id, RejectPredecessors);
      Put(hop.id, ResetState(hop, hop.dependsOn == [] || OutsideSatisfied(hops, hop, reset), rejected.id, count), RejectPredecessors);
    }

    method ResetPredecessorHops(rejected: Hop, count: nat)
      requires Valid() && rejected in def
      modifies this
      ensures Valid()
      ensures hops == ResetPredecessors(def, old(hops), rejected, count)
      ensures Resets(old(changes), changes, old(hops), hops, RejectPredecessors) && Mentions(old(changes), changes, rejected.id)
    {
      ghost var target := ResetPredecessors(def, hops, rejected, count);
      var order := Distinct([rejected.id] + rejected.dependsOn);
      for i := 0 to |order|
        invariant Valid()
        invariant Resetting(old(hops), target, hops, Elements(order[..i]), old(changes), changes, rejected.id)
      {
        OrderStep(def, rejected, order, i);
        var hop := FindHop(def, order[i]).value;
        ResetNear(hop, rejected, count, old(hops), Elements(order[..i]), old(changes));
      }
      OrderIsSet(rejected, order);
      BlendDone(hops, old(hops), target, Elements(order));
    }

    /** Adds the hops that already are ready to a list of hop ids. */
    method IncludeReady(startable: seq<HopId>) returns (ready: seq<HopId>)
      requires Valid()
      ensures ready == WithReady(def, hops, startable)
    {
      ready := startable;
      for i := 0 to |def|
        invariant ready == WithReady(def[..i], hops, startable)
      {
        assert def[..i + 1][..i] == def[..i];
        if hops[def[i].id].status == Ready && def[i].id !in ready {
          ready := ready + [def[i].id];
        }
      }
      assert def[..|def|] == def;
    }

    /** The third rejection: the hop fails for good. */
    method TripBreaker(index: map<HopId, seq<HopId>>, rejected: Hop, now: Timestamp)
      requires Valid() && rejected in def && CountAfter(hops, rejected.id) >= DEFAULT_MAX_REJECTIONS
      requires forall d, y :: y in Downstream(index, d) <==> Edge(def, |def|, d, y)
      modifies this
      ensures Valid()
      ensures hops == EvaluateRejection(def, old(hops), rejected, now)
      ensures old(changes) == [] ==> TellsRejection(old(hops), rejected, hops, changes)
    {
      var count := CountAfter(hops, rejected.id);
      Put(rejected.id, hops[rejected.id].(status := Failed, completedAt := Some(now), rejectionCount := Some(count)), CircuitBreaker);
      CascadeSkips(index, rejected.id, now);
    }

    /** An earlier rejection: the resets of the hop's strategy. */
    method Restart(rejected: Hop, now: Timestamp)
      requires Valid() && rejected in def && CountAfter(hops, rejected.id) < DEFAULT_MAX_REJECTIONS
      modifies this
      ensures Valid()
      ensures hops == EvaluateRejection(def, old(hops), rejected, now)
      ensures old(changes) == [] ==> TellsRejection(old(hops), rejected, hops, changes)
    {
      var count := CountAfter(hops, rejected.id);
      ghost var h := hops;
      if rejected.rejectionStrategy.GetOr(Origin) == Origin {
        ResetAllHopsForOrigin(rejected.id, count);
        OriginTold(def, h, rejected, count, old(changes), changes, now);
      } else {
        ResetPredecessorHops(rejected, count);
        PredecessorsTold(def, h, rejected, count, old(changes), changes, now);
      }
    }

    /** Step 1 of an evaluation: circuit breaker or rejection strategy. */
    method Reject(index: map<HopId, seq<HopId>>, rejected: Hop, now: Timestamp)
      requires Valid() && rejected in def
      requires forall d, y :: y in Downstream(index, d) <==> Edge(def, |def|, d, y)
      modifies this
      ensures Valid()
      ensures hops == EvaluateRejection(def, old(hops), rejected, now)
      ensures old(changes) == [] ==> TellsRejection(old(hops), rejected, hops, changes)
    {
      if hops[rejected.id].rejectionCount.GetOr(0) + 1 >= DEFAULT_MAX_REJECTIONS {
        TripBreaker(index, rejected, now);
      } else {
        Restart(rejected, now);
      }
    }

    /** Steps 2 to 5 of an evaluation. */
    method Advance(index: map<HopId, seq<HopId>>, event: HopEvent, task: TaskMeta, now: Timestamp) returns (ready: seq<HopId>)
      requires Valid() && event.hopId in hops && !event.outcome.Rejected?
      requires forall d, y :: y in Downstream(index, d) <==> Edge(def, |def|, d, y)
      modifies this
      ensures Valid()
      ensures hops == EvaluateNormal(def, old(hops), event, task, now)
      ensures ready == ReadyList(def, AfterScan(def, old(hops), event, task, now))
      ensures old(changes) == [] ==> Tells(def, old(hops), event, hops, changes, now)
    {
      var next := hops[event.hopId].(status := OutcomeStatus(event.outcome), completedAt := Some(now), result := event.result);
      Put(event.hopId, next, Primary);
      ghost var l0 := changes;
      if !event.outcome.Completed? {
        CascadeSkips(index, event.hopId, now);
      }
      ghost var l1 := changes;
      var context := BuildContext(hops, task);
      EvaluateNewlyEligibleConditions(context, task, now);
      ghost var l2 := changes;
      ready := MarkStartable();
      if old(changes) == [] {
        TellsAll(def, old(hops), event, task, now, l1, l2, changes);
      }
    }
  }

  /** The list of reported hops holds exactly the reported hops, each once. */
  lemma ReportedListFacts(def: Definition, h: Hops, event: HopEvent, task: TaskMeta, now: Timestamp)
    requires ValidDefinition(def) && Shaped(def, h) && event.hopId in h && Shaped(def, Evaluate(def, h, event, task, now))
    ensures var list := ReportedList(def, h, event, task, now);
            && (forall id :: id in list <==> Reported(def, h, event, task, now, id))
            && forall i, j | 0 <= i < j < |list| :: list[i] != list[j]
  {
    if event.outcome.Rejected? {
      var h' := Evaluate(def, h, event, task, now);
      ReadyListIsReadySet(def, h');
      ReadyListIsDistinct(def, h');
      WithReadyAdds(def, h', ReadyList(def, h'));
      WithReadyIsDistinct(def, h', ReadyList(def, h'));
    } else {
      var h3 := AfterScan(def, h, event, task, now);
      ReadyListIsReadySet(def, h3);
      ReadyListIsDistinct(def, h3);
    }
  }

  lemma EvaluateLaw(def: Definition, h: Hops, event: HopEvent, task: TaskMeta, now: Timestamp)
    requires ValidDefinition(def) && Shaped(def, h) && event.hopId in h
    ensures var h' := Evaluate(def, h, event, task, now);
            if event.outcome.Rejected? then EvaluationLaws.RejectedTo(def, h, FindHop(def, event.hopId).value, h', now)
            else EvaluationLaws.EvaluatedTo(def, h, event, h', task, now)
  {
    if event.outcome.Rejected? {
      EvaluationLaws.RejectionLaw(def, h, FindHop(def, event.hopId).value, now);
    } else {
      EvaluationLaws.EvaluationLaw(def, h, event, task, now);
    }
  }

  /** `evaluateDAG`: the new state, the log of transitions and the hops reported as ready. */
  method EvaluateDAG(def: Definition, state: WorkflowState, event: HopEvent, task: TaskMeta, now: Timestamp)
    returns (r: EvaluationResult)
    requires ValidDefinition(def) && Shaped(def, state.hops) && event.hopId in state.hops
    ensures r.state.hops == Evaluate(def, state.hops, event, task, now)
    ensures if event.outcome.Rejected? then EvaluationLaws.RejectedTo(def, state.hops, FindHop(def, event.hopId).value, r.state.hops, now)
            else EvaluationLaws.EvaluatedTo(def, state.hops, event, r.state.hops, task, now)
    ensures Replay(Statuses(state.hops), r.changes) == Some(Statuses(r.state.hops))
    ensures if event.outcome.Rejected? then TellsRejection(state.hops, FindHop(def, event.hopId).value, r.state.hops, r.changes)
            else Tells(def, state.hops, event, r.state.hops, r.changes, now)
    ensures r.readyHops == ReportedList(def, state.hops, event, task, now)
    ensures EvaluationLaws.ReadyHopsAre(def, state.hops, event.outcome.Rejected?, r.state.hops, r.readyHops)
    ensures forall id :: id in r.readyHops <==> Reported(def, state.hops, event, task, now, id)
    ensures forall i, j | 0 <= i < j < |r.readyHops| :: r.readyHops[i] != r.readyHops[j]
    ensures r.dagStatus == DagStatus(r.state.hops)
    ensures r.state.status == r.dagStatus.GetOr(state.status)
    ensures r.state.completedAt == if r.dagStatus.Some? then Some(now) else state.completedAt
    ensures r.taskStatus == if r.dagStatus == Some(WfComplete) then Some("done")
                            else if r.dagStatus == Some(WfFailed) then Some("failed") else None
  {
    var copy := new WorkingCopy(def, state.hops);
    var index := copy.BuildDownstreamIndex();
    var ready: seq<HopId>;
    if event.outcome.Rejected? {
      copy.Reject(index, FindHop(def, event.hopId).value, now);
      ready := copy.DetermineReadyHops();
      ready := copy.IncludeReady(ready);
    } else {
      ready := copy.Advance(index, event, task, now);
    }
    ReportedListFacts(def, state.hops, event, task, now);
    EvaluateLaw(def, state.hops, event, task, now);
    EvaluationLaws.ReportsLaw(def, state.hops, event, task, now);
    var dagStatus := DagStatus(copy.hops);
    var taskStatus := if dagStatus == Some(WfComplete) then Some("done")
                      else if dagStatus == Some(WfFailed) then Some("failed") else None;
    var completedAt := if dagStatus.Some? then Some(now) else state.completedAt;
    r := EvaluationResult(WorkflowState(dagStatus.GetOr(state.status), copy.hops, completedAt),
                          copy.changes, ready, dagStatus, taskStatus);
  }
}
