/** How long a run can be: the circuit breaker bounds rejections, and every other step uses something up. */
module RunBounds {
  import opened Wrappers
  import opened Conditions
  import opened Workflow
  import opened DagSemantics
  import opened DagFacts
  import opened DagSteps

  // ----- Who erases whose rejection count -----

  /** A rejection by `r` drops the rejection count of `x`: "origin" drops all others, "predecessors" those it depends on. */
  predicate Erases(r: Hop, x: Hop) {
    && r.canReject && x.canReject && r.id != x.id
    && (r.rejectionStrategy.GetOr(Origin) == Origin || x.id in r.dependsOn)
  }

  /** A level for every hop, decreasing along erasure. */
  ghost predicate Levels(def: Definition, level: map<HopId, nat>, top: nat) {
    && (forall hop | hop in def :: hop.id in level && level[hop.id] <= top)
    && (forall r, x | r in def && x in def && Erases(r, x) :: level[x.id] < level[r.id])
  }

  // ----- The measure -----

  /** What is being counted: evaluated and enforced hop events, or steps of every kind. */
  datatype Count = Events | Steps

  /** The most `n` hops can weigh. */
  function Load(k: Count, n: nat): nat {
    if k.Events? then n else 4 * n
  }

  /** `k` times `n`, by repeated addition. */
  function Times(k: nat, n: nat): nat {
    if k == 0 then 0 else n + Times(k - 1, n)
  }

  lemma {:induction false} TimesIsProduct(k: nat, n: nat)
    ensures Times(k, n) == k * n
  {
    if k > 0 {
      TimesIsProduct(k - 1, n);
    }
  }

  lemma {:induction false} TimesPlus(a: nat, b: nat, n: nat)
    ensures Times(a + b, n) == Times(a, n) + Times(b, n)
  {
    if b > 0 {
      TimesPlus(a, b - 1, n);
    }
  }

  lemma {:induction false} TimesGrows(k: nat, m: nat, n: nat)
    requires m <= n
    ensures Times(k, m) <= Times(k, n)
  {
    if k > 0 {
      TimesGrows(k - 1, m, n);
    }
  }

  /** What one rejection at a level is worth: `load * base^level`. */
  function Price(base: nat, load: nat, level: nat): nat {
    if level == 0 then load else Times(base, Price(base, load, level - 1))
  }

  function Power(base: nat, n: nat): nat {
    if n == 0 then 1 else base * Power(base, n - 1)
  }

  lemma {:induction false} PriceIsPower(base: nat, load: nat, level: nat)
    ensures Price(base, load, level) == Power(base, level) * load
  {
    if level > 0 {
      PriceIsPower(base, load, level - 1);
      TimesIsProduct(base, Price(base, load, level - 1));
      Reassociate(base, Power(base, level - 1), load);
    }
  }

  lemma Reassociate(a: nat, b: nat, c: nat)
    ensures a * (b * c) == a * b * c
  {
  }

  lemma {:induction false} PriceGrows(base: nat, load: nat, a: nat, b: nat)
    requires base > 0 && a <= b
    ensures load <= Price(base, load, a) <= Price(base, load, b)
  {
    if a < b {
      PriceGrows(base, load, a, b - 1);
      TimesPlus(1, base - 1, Price(base, load, b - 1));
      assert Times(1, Price(base, load, b - 1)) == Price(base, load, b - 1) + Times(0, Price(base, load, b - 1));
    } else if a > 0 {
      PriceGrows(base, load, a - 1, b);
      PriceGrows(base, load, a - 1, a - 1);
      TimesPlus(1, base - 1, Price(base, load, a - 1));
      assert Times(1, Price(base, load, a - 1)) == Price(base, load, a - 1) + Times(0, Price(base, load, a - 1));
    }
  }

  /** An upper bound on the steps a hop can take before it is terminal, as long as nothing is reset. */
  function WeightOf(k: Count, s: HopState): nat {
    if s.status.Complete? || s.status.Failed? || s.status.Skipped? then 0
    else if k.Events? then 1
    else if s.escalated then if s.status.Dispatched? then 1 else 2
    else if s.status.Dispatched? then 3 else 4
  }

  /** Rejections a hop has left before the circuit breaker. */
  function BudgetOf(hop: Hop, s: HopState): nat {
    var count := s.rejectionCount.GetOr(0);
    if hop.canReject && count < DEFAULT_MAX_REJECTIONS - 1 then DEFAULT_MAX_REJECTIONS - 1 - count else 0
  }

  /** How many hops may reject. */
  function Rejectors(hops: seq<Hop>): nat {
    if hops == [] then 0 else (if hops[0].canReject then 1 else 0) + Rejectors(hops[1..])
  }

  ghost predicate Covers(h: Hops, hops: seq<Hop>) {
    forall hop | hop in hops :: hop.id in h
  }

  ghost function Weight(k: Count, hops: seq<Hop>, h: Hops): nat
    requires Covers(h, hops)
  {
    if hops == [] then 0 else WeightOf(k, h[hops[0].id]) + Weight(k, hops[1..], h)
  }

  /** The rejections left, each at the price of its hop's level. */
  ghost function Worth(base: nat, load: nat, level: map<HopId, nat>, hops: seq<Hop>, h: Hops): nat
    requires Covers(h, hops) && forall hop | hop in hops :: hop.id in level
  {
    if hops == [] then 0
    else
      Times(BudgetOf(hops[0], h[hops[0].id]), Price(base, load, level[hops[0].id])) + Worth(base, load, level, hops[1..], h)
  }

  function Base(def: Definition): nat {
    2 * Rejectors(def) + 1
  }

  ghost function Measure(k: Count, def: Definition, level: map<HopId, nat>, h: Hops): nat
    requires Covers(h, def) && forall hop | hop in def :: hop.id in level
  {
    Worth(Base(def), Load(k, |def|), level, def, h) + Weight(k, def, h)
  }

  function Cost(k: Count, step: Step): nat {
    if k.Steps? || step.Report? || step.Enforce? then 1 else 0
  }

  function TotalCost(k: Count, steps: seq<Step>): nat {
    if steps == [] then 0 else Cost(k, steps[0]) + TotalCost(k, steps[1..])
  }

  /** What a dispatch on a stale listing can cost: it may start a finished hop again. */
  function Charge(k: Count, staleDispatches: nat): nat {
    if k.Events? then staleDispatches else 4 * staleDispatches
  }

  // ----- Sums -----

  /** No hop's weight grows. */
  ghost predicate Lighter(k: Count, hops: seq<Hop>, h: Hops, h': Hops) {
    forall hop | hop in hops :: hop.id in h && hop.id in h' && WeightOf(k, h'[hop.id]) <= WeightOf(k, h[hop.id])
  }

  /** No hop's budget grows. */
  ghost predicate Spends(hops: seq<Hop>, h: Hops, h': Hops) {
    forall hop | hop in hops :: hop.id in h && hop.id in h' && BudgetOf(hop, h'[hop.id]) <= BudgetOf(hop, h[hop.id])
  }

  lemma {:induction false} LighterWeight(k: Count, hops: seq<Hop>, h: Hops, h': Hops)
    requires Lighter(k, hops, h, h')
    ensures Weight(k, hops, h') <= Weight(k, hops, h)
  {
    if hops != [] {
      LighterWeight(k, hops[1..], h, h');
    }
  }

  lemma {:induction false} StrictlyLighter(k: Count, hops: seq<Hop>, h: Hops, h': Hops, x: Hop)
    requires Lighter(k, hops, h, h') && x in hops && WeightOf(k, h'[x.id]) < WeightOf(k, h[x.id])
    ensures Weight(k, hops, h') < Weight(k, hops, h)
  {
    LighterWeight(k, hops[1..], h, h');
    if x != hops[0] {
      StrictlyLighter(k, hops[1..], h, h', x);
    }
  }

  lemma {:induction false} WeightBound(k: Count, hops: seq<Hop>, h: Hops)
    requires Covers(h, hops)
    ensures Weight(k, hops, h) <= Load(k, |hops|)
    ensures forall x | x in hops :: WeightOf(k, h[x.id]) <= Weight(k, hops, h)
  {
    if hops != [] {
      WeightBound(k, hops[1..], h);
    }
  }

  /** Replacing one hop state moves the total weight by the difference. */
  lemma {:induction false} WeightUpdate(k: Count, hops: seq<Hop>, h: Hops, x: Hop, next: HopState)
    requires UniqueIds(hops) && Covers(h, hops) && x.id in h && (x in hops || forall y | y in hops :: y.id != x.id)
    ensures Weight(k, hops, h[x.id := next]) + (if x in hops then WeightOf(k, h[x.id]) else 0)
         == Weight(k, hops, h) + (if x in hops then WeightOf(k, next) else 0)
  {
    if hops != [] {
      assert x == hops[0] ==> forall y | y in hops[1..] :: y.id != x.id;
      WeightUpdate(k, hops[1..], h, x, next);
    }
  }

  lemma {:induction false} SpentWorth(base: nat, load: nat, level: map<HopId, nat>, hops: seq<Hop>, h: Hops, h': Hops)
    requires Spends(hops, h, h') && forall hop | hop in hops :: hop.id in level
    ensures Worth(base, load, level, hops, h') <= Worth(base, load, level, hops, h)
  {
    if hops != [] {
      var x := hops[0];
      TimesPlus(BudgetOf(x, h'[x.id]), BudgetOf(x, h[x.id]) - BudgetOf(x, h'[x.id]), Price(base, load, level[x.id]));
      SpentWorth(base, load, level, hops[1..], h, h');
    }
  }

  /** Everything the rejecting hops have left, at the price of the top level. */
  lemma {:induction false} WorthBound(base: nat, load: nat, level: map<HopId, nat>, top: nat, hops: seq<Hop>, h: Hops)
    requires base > 0 && Covers(h, hops) && forall hop | hop in hops :: hop.id in level && level[hop.id] <= top
    ensures Worth(base, load, level, hops, h) <= Times(2 * Rejectors(hops), Price(base, load, top))
  {
    if hops != [] {
      var x := hops[0];
      WorthBound(base, load, level, top, hops[1..], h);
      PriceGrows(base, load, level[x.id], top);
      var b := BudgetOf(x, h[x.id]);
      TimesGrows(b, Price(base, load, level[x.id]), Price(base, load, top));
      if x.canReject {
        TimesPlus(b, 2 - b, Price(base, load, top));
        TimesPlus(2, 2 * Rejectors(hops[1..]), Price(base, load, top));
      }
    }
  }

  // ----- A rejection -----

  /** What a rejection of `r` does to the budgets: `r` spends one, and only hops whose count it erases can gain. */
  ghost predicate Pays(hops: seq<Hop>, r: Hop, h: Hops, h': Hops) {
    && Covers(h, hops) && Covers(h', hops)
    && (forall x | x in hops && x != r && !Erases(r, x) :: BudgetOf(x, h'[x.id]) <= BudgetOf(x, h[x.id]))
    && (r in hops ==> BudgetOf(r, h'[r.id]) < BudgetOf(r, h[r.id]))
  }

  /** The price of the level below; nothing below the lowest. */
  function Below(base: nat, load: nat, l: nat): nat {
    if l == 0 then 0 else Price(base, load, l - 1)
  }

  /** One hop's part in a rejection: it gains at most two rejections at a lower price, or nothing. */
  lemma HopAfterRejection(base: nat, load: nat, level: map<HopId, nat>, r: Hop, x: Hop, h: Hops, h': Hops)
    requires base > 0 && x.id in level && r.id in level && x != r && (Erases(r, x) ==> level[x.id] < level[r.id])
    requires x.id in h && x.id in h' && (!Erases(r, x) ==> BudgetOf(x, h'[x.id]) <= BudgetOf(x, h[x.id]))
    ensures Times(BudgetOf(x, h'[x.id]), Price(base, load, level[x.id]))
            <= Times(BudgetOf(x, h[x.id]), Price(base, load, level[x.id]))
               + Times(if x.canReject then 2 else 0, Below(base, load, level[r.id]))
  {
    var b, b', p := BudgetOf(x, h[x.id]), BudgetOf(x, h'[x.id]), Price(base, load, level[x.id]);
    if Erases(r, x) {
      PriceGrows(base, load, level[x.id], level[r.id] - 1);
      TimesGrows(b', p, Below(base, load, level[r.id]));
      TimesPlus(b', 2 - b', Below(base, load, level[r.id]));
    } else {
      TimesPlus(b', b - b', p);
    }
  }

  lemma SelfAfterRejection(price: nat, b: nat, b': nat)
    requires b' < b
    ensures Times(b', price) + price <= Times(b, price)
  {
    TimesPlus(b', b - b', price);
    TimesPlus(1, b - b' - 1, price);
    assert Times(1, price) == price + Times(0, price);
  }

  /** What the others gain is covered by the price of the spent rejection, except for the lower price of each. */
  lemma {:induction false} WorthAfterRejection(base: nat, load: nat, level: map<HopId, nat>, hops: seq<Hop>, r: Hop, h: Hops, h': Hops)
    requires base > 0 && UniqueIds(hops) && Pays(hops, r, h, h') && r.canReject
    requires r.id in level && forall x | x in hops :: x.id in level && (Erases(r, x) ==> level[x.id] < level[r.id])
    ensures r in hops ==> Rejectors(hops) > 0
    ensures Worth(base, load, level, hops, h') + (if r in hops then Price(base, load, level[r.id]) else 0)
            <= Worth(base, load, level, hops, h)
               + Times(2 * (Rejectors(hops) - if r in hops then 1 else 0), Below(base, load, level[r.id]))
    decreases |hops|
  {
    if hops != [] {
      var x, rest := hops[0], hops[1..];
      WorthAfterRejection(base, load, level, rest, r, h, h');
      if x == r {
        assert r !in rest;
        SelfAfterRejection(Price(base, load, level[r.id]), BudgetOf(r, h[r.id]), BudgetOf(r, h'[r.id]));
      } else {
        HopAfterRejection(base, load, level, r, x, h, h');
        TimesPlus(if x.canReject then 2 else 0, 2 * (Rejectors(rest) - if r in rest then 1 else 0), Below(base, load, level[r.id]));
      }
    }
  }

  /** Spending one rejection pays for what it restores and for a complete restart of every hop. */
  lemma RejectionPaysRestart(k: Count, def: Definition, level: map<HopId, nat>, top: nat, r: Hop, h: Hops, h': Hops)
    requires UniqueIds(def) && Levels(def, level, top) && r in def && r.canReject && Pays(def, r, h, h')
    ensures Worth(Base(def), Load(k, |def|), level, def, h') + Load(k, |def|) <= Worth(Base(def), Load(k, |def|), level, def, h)
  {
    var base, load, l := Base(def), Load(k, |def|), level[r.id];
    WorthAfterRejection(base, load, level, def, r, h, h');
    var below := Below(base, load, l);
    if l == 0 {
      TimesIsProduct(2 * (Rejectors(def) - 1), 0);
    } else {
      PriceGrows(base, load, 0, l - 1);
      TimesPlus(2 * (Rejectors(def) - 1), 3, below);
      TimesPlus(1, 2, below);
      assert Times(1, below) == below + Times(0, below);
    }
  }

  // ----- Steps -----

  lemma ShrinkingMeasure(k: Count, def: Definition, level: map<HopId, nat>, h: Hops, h': Hops, x: Hop)
    requires Lighter(k, def, h, h') && Spends(def, h, h') && forall hop | hop in def :: hop.id in level
    requires x in def && WeightOf(k, h'[x.id]) < WeightOf(k, h[x.id])
    ensures Measure(k, def, level, h') < Measure(k, def, level, h)
  {
    StrictlyLighter(k, def, h, h', x);
    SpentWorth(Base(def), Load(k, |def|), level, def, h, h');
  }

  lemma NormalShrinks(k: Count, def: Definition, h: Hops, event: HopEvent, task: TaskMeta, now: Timestamp)
    requires ValidDefinition(def) && Shaped(def, h) && Is(h, event.hopId, Dispatched) && !event.outcome.Rejected?
    ensures Lighter(k, def, h, EvaluateNormal(def, h, event, task, now))
    ensures Spends(def, h, EvaluateNormal(def, h, event, task, now))
    ensures var h' := EvaluateNormal(def, h, event, task, now);
            event.hopId in h' && WeightOf(k, h'[event.hopId]) < WeightOf(k, h[event.hopId])
  {
    NormalEffect(def, h, event, task, now);
    NormalSettles(def, h, event, task, now);
    forall hop | hop in def
      ensures var h' := EvaluateNormal(def, h, event, task, now);
              && hop.id in h && hop.id in h'
              && WeightOf(k, h'[hop.id]) <= WeightOf(k, h[hop.id])
              && BudgetOf(hop, h'[hop.id]) <= BudgetOf(hop, h[hop.id])
    {
      if hop.id != event.hopId {
        if Is(h, hop.id, Pending) {
          NormalMovesPending(def, h, event, task, now, hop);
        } else {
          NormalKeepsStarted(def, h, event, task, now, hop.id);
        }
      }
    }
  }

  lemma BreakerShrinks(k: Count, def: Definition, h: Hops, r: Hop, now: Timestamp)
    requires ValidDefinition(def) && Shaped(def, h) && r in def && Is(h, r.id, Dispatched)
    requires CountAfter(h, r.id) >= DEFAULT_MAX_REJECTIONS
    ensures Lighter(k, def, h, EvaluateRejection(def, h, r, now)) && Spends(def, h, EvaluateRejection(def, h, r, now))
    ensures WeightOf(k, EvaluateRejection(def, h, r, now)[r.id]) < WeightOf(k, h[r.id])
  {
    var h' := EvaluateRejection(def, h, r, now);
    BreakerEffect(def, h, r, now);
    forall hop | hop in def
      ensures WeightOf(k, h'[hop.id]) <= WeightOf(k, h[hop.id]) && BudgetOf(hop, h'[hop.id]) <= BudgetOf(hop, h[hop.id])
    {
      if hop.id == r.id {
        SameId(def, hop, r);
      }
    }
  }

  lemma ResetStateBudget(hop: Hop, ready: bool, r: Hop, prev: HopState, count: nat)
    requires prev.rejectionCount.GetOr(0) + 1 == count < DEFAULT_MAX_REJECTIONS
    ensures hop == r && r.canReject ==> BudgetOf(hop, ResetState(hop, ready, r.id, count)) < BudgetOf(hop, prev)
    ensures !hop.canReject ==> BudgetOf(hop, ResetState(hop, ready, r.id, count)) == 0
  {
  }

  lemma ResetPaysHop(def: Definition, h: Hops, r: Hop, now: Timestamp, hop: Hop)
    requires ValidDefinition(def) && Shaped(def, h) && hop in def
    requires r in def && r.canReject && CountAfter(h, r.id) < DEFAULT_MAX_REJECTIONS
    ensures var h' := EvaluateRejection(def, h, r, now);
            && hop.id in h'
            && (hop != r && !Erases(r, hop) ==> BudgetOf(hop, h'[hop.id]) <= BudgetOf(hop, h[hop.id]))
            && (hop == r ==> BudgetOf(hop, h'[hop.id]) < BudgetOf(hop, h[hop.id]))
  {
    var count := CountAfter(h, r.id);
    if hop.id == r.id {
      SameId(def, hop, r);
    }
    if r.rejectionStrategy.GetOr(Origin) == Origin {
      OriginEffect(def, h, r.id, count, hop);
      ResetStateBudget(hop, Root(hop), r, h[r.id], count);
    } else {
      PredecessorsEffect(def, h, r, count, hop);
      ResetStateBudget(hop, OutsideSatisfied(h, hop, ResetSet(r)), r, h[r.id], count);
    }
  }

  lemma ResetMeasure(k: Count, def: Definition, level: map<HopId, nat>, top: nat, h: Hops, r: Hop, now: Timestamp)
    requires ValidDefinition(def) && Levels(def, level, top) && Shaped(def, h)
    requires r in def && r.canReject && Is(h, r.id, Dispatched) && CountAfter(h, r.id) < DEFAULT_MAX_REJECTIONS
    ensures var h' := EvaluateRejection(def, h, r, now);
            Covers(h', def) && Measure(k, def, level, h') < Measure(k, def, level, h)
  {
    var h' := EvaluateRejection(def, h, r, now);
    forall hop | hop in def
      ensures hop.id in h'
      ensures hop != r && !Erases(r, hop) ==> BudgetOf(hop, h'[hop.id]) <= BudgetOf(hop, h[hop.id])
      ensures hop == r ==> BudgetOf(hop, h'[hop.id]) < BudgetOf(hop, h[hop.id])
    {
      ResetPaysHop(def, h, r, now, hop);
    }
    RejectionPaysRestart(k, def, level, top, r, h, h');
    WeightBound(k, def, h');
    WeightBound(k, def, h);
    assert WeightOf(k, h[r.id]) > 0;
  }

  lemma ReportMeasure(k: Count, def: Definition, level: map<HopId, nat>, top: nat, h: Hops, step: Step)
    requires ValidDefinition(def) && Levels(def, level, top) && Shaped(def, h) && step.Report? && Enabled(def, h, step)
    ensures Covers(AfterReport(def, h, step), def)
    ensures Measure(k, def, level, AfterReport(def, h, step)) < Measure(k, def, level, h)
  {
    var id := FindDispatched(def, h).value;
    var hop := FindHop(def, id).value;
    var event := ReportEvent(def, id, step.run, step.result);
    if event.outcome.Rejected? {
      if CountAfter(h, id) >= DEFAULT_MAX_REJECTIONS {
        BreakerShrinks(k, def, h, hop, step.now);
        ShrinkingMeasure(k, def, level, h, AfterReport(def, h, step), hop);
      } else {
        ResetMeasure(k, def, level, top, h, hop, step.now);
      }
    } else {
      NormalShrinks(k, def, h, event, step.task, step.now);
      ShrinkingMeasure(k, def, level, h, AfterReport(def, h, step), hop);
    }
  }

  /** Replacing one hop state, with its rejection count kept, moves the measure by the difference in weight. */
  lemma UpdateMeasure(k: Count, def: Definition, level: map<HopId, nat>, h: Hops, hop: Hop, next: HopState)
    requires UniqueIds(def) && Shaped(def, h) && hop in def && next.rejectionCount == h[hop.id].rejectionCount
    requires forall x | x in def :: x.id in level
    ensures Measure(k, def, level, h[hop.id := next]) + WeightOf(k, h[hop.id])
            <= Measure(k, def, level, h) + WeightOf(k, next)
  {
    WeightUpdate(k, def, h, hop, next);
    SpentWorth(Base(def), Load(k, |def|), level, def, h, h[hop.id := next]);
  }

  /** A follow-up dispatch adds no weight. */
  lemma FollowMeasure(k: Count, def: Definition, level: map<HopId, nat>, h: Hops, step: Step)
    requires ValidDefinition(def) && Shaped(def, h) && step.Report? && step.follow.Some? && Enabled(def, h, step)
    requires forall x | x in def :: x.id in level
    ensures Covers(AfterReport(def, h, step), def) && Covers(Take(def, h, step), def)
    ensures Measure(k, def, level, Take(def, h, step)) <= Measure(k, def, level, AfterReport(def, h, step))
  {
    FollowIsStartable(def, h, step);
    TakeKeepsShape(def, h, step);
    var h' := AfterReport(def, h, step);
    var hop := FindHop(def, step.follow.value.hopId).value;
    UpdateMeasure(k, def, level, h', hop, DispatchedState(h'[hop.id], hop, step.follow.value.session, step.now));
  }

  lemma StepMeasure(k: Count, def: Definition, level: map<HopId, nat>, top: nat, h: Hops, step: Step)
    requires ValidDefinition(def) && Levels(def, level, top) && Shaped(def, h) && Enabled(def, h, step)
    ensures Covers(Take(def, h, step), def)
    ensures Cost(k, step) + Measure(k, def, level, Take(def, h, step))
            <= Measure(k, def, level, h) + Charge(k, if Stale(h, step) then 1 else 0)
  {
    TakeKeepsShape(def, h, step);
    if step.Report? {
      ReportMeasure(k, def, level, top, h, step);
      if step.follow.Some? {
        FollowMeasure(k, def, level, h, step);
      }
    } else {
      UpdateMeasure(k, def, level, h, FindHop(def, step.id).value, Take(def, h, step)[step.id]);
    }
  }

  lemma {:induction false} RunMeasure(k: Count, def: Definition, level: map<HopId, nat>, top: nat, h: Hops, steps: seq<Step>)
    requires ValidDefinition(def) && Levels(def, level, top) && Shaped(def, h) && Legal(def, h, steps)
    ensures Covers(h, def)
    ensures TotalCost(k, steps) <= Measure(k, def, level, h) + Charge(k, StaleDispatches(def, h, steps))
    decreases |steps|
  {
    if steps != [] {
      TakeKeepsShape(def, h, steps[0]);
      StepMeasure(k, def, level, top, h, steps[0]);
      RunMeasure(k, def, level, top, Take(def, h, steps[0]), steps[1..]);
    }
  }

  // ----- The bounds -----

  lemma MeasureBound(k: Count, def: Definition, level: map<HopId, nat>, top: nat, h: Hops)
    requires Levels(def, level, top) && Covers(h, def)
    ensures Measure(k, def, level, h) <= Price(Base(def), Load(k, |def|), top + 1)
  {
    var base, load := Base(def), Load(k, |def|);
    WorthBound(base, load, level, top, def, h);
    WeightBound(k, def, h);
    PriceGrows(base, load, 0, top);
    TimesPlus(2 * Rejectors(def), 1, Price(base, load, top));
    assert Times(1, Price(base, load, top)) == Price(base, load, top) + Times(0, Price(base, load, top));
  }

  /** (2r + 1)^(top + 1) times `load`, for r rejecting hops; see PriceIsPower. */
  function Rounds(def: Definition, top: nat, load: nat): nat {
    Price(2 * Rejectors(def) + 1, load, top + 1)
  }

  lemma CostBound(k: Count, def: Definition, level: map<HopId, nat>, top: nat, steps: seq<Step>)
    requires ValidDefinition(def) && Levels(def, level, top) && Legal(def, InitialState(def), steps)
    ensures TotalCost(k, steps) <= Rounds(def, top, Load(k, |def|)) + Charge(k, StaleDispatches(def, InitialState(def), steps))
  {
    RunMeasure(k, def, level, top, InitialState(def), steps);
    MeasureBound(k, def, level, top, InitialState(def));
  }

  /**
   * In a workflow of n hops of which r may reject, with levels up to `top` decreasing along erasure, a run handles at most
   * (2r + 1)^(top + 1) * n hop events and takes at most four times as many steps, plus one event and four steps for every
   * dispatch on a stale listing.
   */
  lemma {:induction false} RunLengthBound(def: Definition, level: map<HopId, nat>, top: nat, steps: seq<Step>)
    requires ValidDefinition(def) && Levels(def, level, top) && Legal(def, InitialState(def), steps)
    ensures var stale := StaleDispatches(def, InitialState(def), steps);
            && TotalCost(Events, steps) <= Rounds(def, top, |def|) + stale
            && |steps| <= Rounds(def, top, 4 * |def|) + 4 * stale
  {
    CostBound(Events, def, level, top, steps);
    CostBound(Steps, def, level, top, steps);
    StepsCostOneEach(steps);
  }

  lemma {:induction false} StepsCostOneEach(steps: seq<Step>)
    ensures TotalCost(Steps, steps) == |steps|
  {
    if steps != [] {
      StepsCostOneEach(steps[1..]);
    }
  }

  ghost predicate SingleRejector(def: Definition, r: Hop) {
    r in def && forall hop | hop in def && hop.canReject :: hop == r
  }

  lemma {:induction false} OneRejectorCounts(hops: seq<Hop>, r: Hop)
    requires UniqueIds(hops) && forall hop | hop in hops && hop.canReject :: hop == r
    ensures Rejectors(hops) <= if r in hops then 1 else 0
  {
    if hops != [] {
      OneRejectorCounts(hops[1..], r);
      assert hops[0] !in hops[1..];
    }
  }

  /** With a single hop that may reject, under either strategy: at most 3n hop events and 12n steps, stale dispatches charged as above. */
  lemma {:induction false} SingleRejectorBound(def: Definition, r: Hop, steps: seq<Step>)
    requires ValidDefinition(def) && SingleRejector(def, r) && Legal(def, InitialState(def), steps)
    ensures var stale := StaleDispatches(def, InitialState(def), steps);
            TotalCost(Events, steps) <= 3 * |def| + stale && |steps| <= 12 * |def| + 4 * stale
  {
    var level: map<HopId, nat> := map id | id in Ids(def) :: 0;
    RunLengthBound(def, level, 0, steps);
    OneRejectorCounts(def, r);
    ThreeRounds(def, |def|);
    ThreeRounds(def, 4 * |def|);
  }

  lemma ThreeRounds(def: Definition, load: nat)
    requires Rejectors(def) <= 1
    ensures Rounds(def, 0, load) <= 3 * load
  {
    var base := 2 * Rejectors(def) + 1;
    assert Rounds(def, 0, load) == Times(base, Price(base, load, 0)) == Times(base, load);
    TimesIsProduct(base, load);
    TimesPlus(base, 3 - base, load);
    TimesIsProduct(3, load);
  }
}
