/** A condition can only see the hops that schema validation finds in it. */
module ConditionFrames {
  import opened Wrappers
  import opened Conditions
  import opened Workflow
  import opened DagSemantics

  /** The hop named by a field path of the form `hops.<id>...`. */
  function FieldReference(field: string): set<HopId> {
    var parts := Segments(field);
    if |parts| >= 2 && parts[0] == "hops" && parts[1] != "" then {parts[1]} else {}
  }

  /** `collectHopReferences`, as a set. */
  function References(e: Expr): set<HopId> {
    match e
    case Eq(f, _) => FieldReference(f)
    case Neq(f, _) => FieldReference(f)
    case Gt(f, _) => FieldReference(f)
    case Gte(f, _) => FieldReference(f)
    case Lt(f, _) => FieldReference(f)
    case Lte(f, _) => FieldReference(f)
    case In(f, _) => FieldReference(f)
    case HasTag(_) => {}
    case HopStatus(id, _) => {id}
    case And(cs) => set i, id | 0 <= i < |cs| && id in References(cs[i]) :: id
    case Or(cs) => set i, id | 0 <= i < |cs| && id in References(cs[i]) :: id
    case Not(c) => References(c)
    case True => {}
    case False => {}
  }

  /** The two states show the same status and result for `id`. */
  ghost predicate SameHop(h: Hops, h': Hops, id: HopId) {
    && (id in h <==> id in h')
    && (id in h ==> h[id].status == h'[id].status && h[id].result.GetOr(map[]) == h'[id].result.GetOr(map[]))
  }

  /** Indistinguishable for every operator: equal, or both plain objects. */
  predicate Alike(v: Value, v': Value) {
    v == v' || (v.Object? && v'.Object?)
  }

  lemma FieldFrame(field: string, h: Hops, h': Hops, task: TaskMeta)
    requires "" !in h && "" !in h'
    requires forall id | id in FieldReference(field) :: SameHop(h, h', id)
    ensures Alike(GetField(BuildContext(h, task), field), GetField(BuildContext(h', task), field))
  {
    var parts := Segments(field);
    var c, c' := BuildContext(h, task), BuildContext(h', task);
    if parts[0] == "hops" && |parts| >= 2 {
      var hops, hops' := Field(c, "hops"), Field(c', "hops");
      assert Walk(c, parts) == Walk(hops, parts[1..]);
      assert Walk(c', parts) == Walk(hops', parts[1..]);
      assert Field(hops, parts[1]) == Field(hops', parts[1]) by {
        assert parts[1] != "" ==> SameHop(h, h', parts[1]);
      }
    } else if parts[0] == "hops" {
      assert parts[1..] == [];
      assert Walk(c, parts) == Field(c, "hops") && Walk(c', parts) == Field(c', "hops");
    } else {
      assert Field(c, parts[0]) == Field(c', parts[0]);
    }
  }

  /** No test of the condition language tells alike values apart. */
  lemma AlikeTests(v: Value, v': Value, task: TaskMeta)
    requires Alike(v, v')
    ensures forall x :: StrictEquals(v, x) == StrictEquals(v', x)
    ensures AsNumber(v, task) == AsNumber(v', task)
    ensures v == Undefined <==> v' == Undefined
  {
  }

  /** A test of a field has one outcome for alike values. */
  lemma TestFrame(e: Expr, ctx: Context, ctx': Context)
    requires !e.And? && !e.Or? && !e.Not? && !e.True? && !e.False? && !e.HasTag? && !e.HopStatus? && ctx.task == ctx'.task
    requires Alike(GetField(ctx.context, e.field), GetField(ctx'.context, e.field))
    ensures EvaluateCondition(e, ctx) == EvaluateCondition(e, ctx')
  {
    AlikeTests(GetField(ctx.context, e.field), GetField(ctx'.context, e.field), ctx.task);
  }

  lemma LeafFrame(e: Expr, h: Hops, h': Hops, task: TaskMeta)
    requires !e.And? && !e.Or? && !e.Not?
    requires "" !in h && "" !in h'
    requires forall id | id in References(e) :: SameHop(h, h', id)
    ensures EvaluateCondition(e, Context(BuildContext(h, task), Statuses(h), task))
            == EvaluateCondition(e, Context(BuildContext(h', task), Statuses(h'), task))
  {
    if e.HopStatus? {
      assert SameHop(h, h', e.hop);
    } else if !e.HasTag? && !e.True? && !e.False? {
      FieldFrame(e.field, h, h', task);
      TestFrame(e, Context(BuildContext(h, task), Statuses(h), task), Context(BuildContext(h', task), Statuses(h'), task));
    }
  }

  /** Two states that agree on the hops referenced by a condition give it the same truth value. */
  lemma {:induction false} ConditionFrame(e: Expr, h: Hops, h': Hops, task: TaskMeta)
    requires "" !in h && "" !in h'
    requires forall id | id in References(e) :: SameHop(h, h', id)
    ensures EvaluateCondition(e, Context(BuildContext(h, task), Statuses(h), task))
            == EvaluateCondition(e, Context(BuildContext(h', task), Statuses(h'), task))
  {
    var ctx := Context(BuildContext(h, task), Statuses(h), task);
    var ctx' := Context(BuildContext(h', task), Statuses(h'), task);
    if e.And? || e.Or? {
      forall i | 0 <= i < |e.conditions|
        ensures EvaluateCondition(e.conditions[i], ctx) == EvaluateCondition(e.conditions[i], ctx')
      {
        ConditionFrame(e.conditions[i], h, h', task);
      }
    } else if e.Not? {
      ConditionFrame(e.condition, h, h', task);
    } else {
      LeafFrame(e, h, h', task);
    }
  }
}
