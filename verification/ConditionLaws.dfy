/** What the condition language means: laws between expressions, and what field paths read. */
module ConditionLaws {
  import opened Wrappers
  import opened Conditions
  import opened Workflow
  import opened DagSemantics
  import opened Numerals

  // ----- Connectives -----

  lemma ConjunctionLaws(c: Expr, cs: seq<Expr>, ctx: Context)
    ensures EvaluateCondition(And([]), ctx)
    ensures EvaluateCondition(And([c] + cs), ctx) <==> EvaluateCondition(c, ctx) && EvaluateCondition(And(cs), ctx)
  {
    var all := [c] + cs;
    assert all[0] == c && forall i | 0 <= i < |cs| :: all[i + 1] == cs[i];
    if EvaluateCondition(c, ctx) && EvaluateCondition(And(cs), ctx) {
      forall i | 0 <= i < |all|
        ensures EvaluateCondition(all[i], ctx)
      {
        assert i > 0 ==> all[i] == cs[i - 1];
      }
    }
  }

  lemma DisjunctionLaws(c: Expr, cs: seq<Expr>, ctx: Context)
    ensures !EvaluateCondition(Or([]), ctx)
    ensures EvaluateCondition(Or([c] + cs), ctx) <==> EvaluateCondition(c, ctx) || EvaluateCondition(Or(cs), ctx)
  {
    var all := [c] + cs;
    assert all[0] == c && forall i | 0 <= i < |cs| :: all[i + 1] == cs[i];
    if i :| 0 <= i < |all| && EvaluateCondition(all[i], ctx) {
      assert i > 0 ==> all[i] == cs[i - 1];
    }
  }

  lemma NegationLaws(c: Expr, ctx: Context)
    ensures EvaluateCondition(True, ctx) && !EvaluateCondition(False, ctx)
    ensures EvaluateCondition(Not(c), ctx) <==> !EvaluateCondition(c, ctx)
  {
  }

  // ----- Tests of a field -----

  /** `eq` compares with a primitive value; two objects or arrays are never the same. */
  lemma EqualityLaws(f: string, v: Value, ctx: Context)
    ensures EvaluateCondition(Eq(f, v), ctx) <==> GetField(ctx.context, f) == v && !v.Object? && !v.Array?
    ensures EvaluateCondition(Neq(f, v), ctx) <==> !EvaluateCondition(Eq(f, v), ctx)
  {
  }

  /** A number is below the bound, above it, or equal to it. */
  lemma NumberLaws(f: string, b: real, ctx: Context)
    requires GetField(ctx.context, f).Num?
    ensures EvaluateCondition(Gt(f, b), ctx) <==> GetField(ctx.context, f).n > b
    ensures EvaluateCondition(Lt(f, b), ctx) <==> !EvaluateCondition(Gt(f, b), ctx) && !EvaluateCondition(Eq(f, Num(b)), ctx)
    ensures EvaluateCondition(Gte(f, b), ctx) <==> EvaluateCondition(Gt(f, b), ctx) || EvaluateCondition(Eq(f, Num(b)), ctx)
    ensures EvaluateCondition(Lte(f, b), ctx) <==> EvaluateCondition(Lt(f, b), ctx) || EvaluateCondition(Eq(f, Num(b)), ctx)
  {
  }

  /** How the four comparisons come out for a field that coerces to `n`, or to no number. */
  ghost predicate ComparesAs(f: string, b: real, ctx: Context, n: Option<real>) {
    && (EvaluateCondition(Gt(f, b), ctx) <==> n.Some? && n.value > b)
    && (EvaluateCondition(Gte(f, b), ctx) <==> n.Some? && n.value >= b)
    && (EvaluateCondition(Lt(f, b), ctx) <==> n.Some? && n.value < b)
    && (EvaluateCondition(Lte(f, b), ctx) <==> n.Some? && n.value <= b)
  }

  /** An absent field and an object compare with nothing, null is 0 and booleans are 0 and 1; strings and arrays are parsed. */
  lemma CoercionLaws(f: string, b: real, ctx: Context)
    ensures var v := GetField(ctx.context, f);
            && (v.Undefined? || v.Object? ==> ComparesAs(f, b, ctx, None))
            && (v.Null? || v == Bool(false) ==> ComparesAs(f, b, ctx, Some(0.0)))
            && (v == Bool(true) ==> ComparesAs(f, b, ctx, Some(1.0)))
            && (v.Num? ==> ComparesAs(f, b, ctx, Some(v.n)))
            && (v.Str? || v.Array? ==> ComparesAs(f, b, ctx, ctx.task.numeric(v)))
  {
  }

  /** `in` is a disjunction of equalities, and false of an absent field. */
  lemma MembershipLaws(f: string, v: Value, vs: seq<Value>, ctx: Context)
    ensures !EvaluateCondition(In(f, []), ctx)
    ensures v != Undefined ==>
              (EvaluateCondition(In(f, [v] + vs), ctx) <==> EvaluateCondition(Eq(f, v), ctx) || EvaluateCondition(In(f, vs), ctx))
    ensures GetField(ctx.context, f) == Undefined ==> !EvaluateCondition(In(f, vs), ctx)
  {
    var all := [v] + vs;
    var x := GetField(ctx.context, f);
    assert all[0] == v && forall i | 0 <= i < |vs| :: all[i + 1] == vs[i];
    if i :| 0 <= i < |all| && StrictEquals(x, all[i]) {
      assert i > 0 ==> all[i] == vs[i - 1];
    }
  }

  /** `hop_status` holds for exactly the name of the hop's status, and for no name of an unknown hop. */
  lemma StatusLaws(id: HopId, s: string, ctx: Context)
    ensures EvaluateCondition(HopStatus(id, s), ctx)
       <==> (&& id in ctx.hopStatus
             && match ctx.hopStatus[id]
                case Pending => s == "pending"
                case Ready => s == "ready"
                case Dispatched => s == "dispatched"
                case Complete => s == "complete"
                case Failed => s == "failed"
                case Skipped => s == "skipped")
  {
  }

  // ----- Paths -----

  lemma {:induction false} OneSegment(a: string)
    requires '.' !in a
    ensures Segments(a) == [a]
  {
    if a != "" {
      OneSegment(a[1..]);
      assert a == [a[0]] + a[1..];
    }
  }

  lemma {:induction false} FirstSegment(a: string, rest: string)
    requires '.' !in a
    ensures Segments(a + "." + rest) == [a] + Segments(rest)
  {
    var path := a + "." + rest;
    if a == "" {
      assert path[1..] == rest;
    } else {
      FirstSegment(a[1..], rest);
      assert path[1..] == a[1..] + "." + rest;
      assert a == [a[0]] + a[1..];
    }
  }

  lemma PathOfTwo(v: Value, a: string, b: string)
    requires '.' !in a && '.' !in b
    ensures GetField(v, a + "." + b) == Field(Field(v, a), b)
  {
    FirstSegment(a, b);
    OneSegment(b);
    assert ([a] + [b])[1..] == [b] && [b][1..] == [];
    assert Walk(Field(v, a), [b]) == Walk(Field(Field(v, a), b), []);
  }

  lemma PathStep(v: Value, a: string, rest: string)
    requires '.' !in a
    ensures GetField(v, a + "." + rest) == GetField(Field(v, a), rest)
  {
    FirstSegment(a, rest);
    assert ([a] + Segments(rest))[1..] == Segments(rest);
  }

  /** What the context holds for a hop. */
  lemma HopEntry(h: Hops, task: TaskMeta, id: HopId)
    ensures Field(Field(BuildContext(h, task), "hops"), id)
         == if id in h then Object(map["result" := Object(h[id].result.GetOr(map[]))]) else Undefined
  {
  }

  lemma SplitResultPath(id: HopId, key: string)
    ensures "hops." + id + ".result." + key == "hops" + "." + (id + "." + ("result" + "." + key))
  {
  }

  /** The path of a hop's result field reads that field of that hop; `id` and `key` have no dots. */
  lemma ResultPath(h: Hops, task: TaskMeta, id: HopId, key: string)
    requires '.' !in id && '.' !in key
    ensures GetField(BuildContext(h, task), "hops." + id + ".result." + key)
         == if id in h && h[id].result.Some? && key in h[id].result.value then h[id].result.value[key] else Undefined
  {
    SplitResultPath(id, key);
    PathStep(BuildContext(h, task), "hops", id + "." + ("result" + "." + key));
    PathStep(Field(BuildContext(h, task), "hops"), id, "result" + "." + key);
    HopEntry(h, task, id);
    PathOfTwo(Field(Field(BuildContext(h, task), "hops"), id), "result", key);
  }

  lemma TaskEntry(h: Hops, task: TaskMeta)
    ensures var t := Field(BuildContext(h, task), "task");
            && Field(t, "status") == Str(task.status) && Field(t, "priority") == Str(task.priority)
            && Field(t, "routing") == Object(task.routing)
            && Field(t, "tags").Array? && |Field(t, "tags").items| == |task.tags|
            && forall i | 0 <= i < |task.tags| :: Field(t, "tags").items[i] == Str(task.tags[i])
  {
  }

  /** The path of a task's field, and of a field below it, in any context. */
  lemma TaskPath(c: Value, path: string, key: string)
    requires '.' !in key && path == "task." + key
    ensures GetField(c, path) == Field(Field(c, "task"), key)
  {
    assert path == "task" + "." + key;
    PathOfTwo(c, "task", key);
  }

  lemma TaskSubpath(c: Value, path: string, key: string, sub: string)
    requires '.' !in key && '.' !in sub && path == "task." + key + "." + sub
    ensures GetField(c, path) == Field(Field(Field(c, "task"), key), sub)
  {
    assert path == "task" + "." + (key + "." + sub);
    PathStep(c, "task", key + "." + sub);
    PathOfTwo(Field(c, "task"), key, sub);
  }

  lemma StatusPath(h: Hops, task: TaskMeta)
    ensures GetField(BuildContext(h, task), "task.status") == Str(task.status)
  {
    TaskPath(BuildContext(h, task), "task.status", "status");
    TaskEntry(h, task);
  }

  lemma PriorityPath(h: Hops, task: TaskMeta)
    ensures GetField(BuildContext(h, task), "task.priority") == Str(task.priority)
  {
    TaskPath(BuildContext(h, task), "task.priority", "priority");
    TaskEntry(h, task);
  }

  lemma RoutingPath(h: Hops, task: TaskMeta, key: string)
    requires '.' !in key
    ensures GetField(BuildContext(h, task), "task.routing." + key)
         == if key in task.routing then task.routing[key] else Undefined
  {
    TaskSubpath(BuildContext(h, task), "task.routing." + key, "routing", key);
    TaskEntry(h, task);
  }

  lemma IndexIsNotLength(i: nat)
    ensures Decimal(i) != "length" && '.' !in Decimal(i)
  {
    assert Decimal(i)[0] in Decimal(i);
    assert !IsDigit("length"[0]);
  }

  lemma ItemAt(v: Value, i: nat)
    requires v.Array?
    ensures Field(v, Decimal(i)) == if i < |v.items| then v.items[i] else Undefined
  {
    IndexIsNotLength(i);
    ParseDecimal(i);
  }

  /** Nothing else but `length` names a field of an array: no numeral with leading zeros, no number out of range. */
  lemma NoItemAt(v: Value, key: string)
    requires v.Array? && key != "length" && forall i: nat | i < |v.items| :: Decimal(i) != key
    ensures Field(v, key) == Undefined
  {
  }

  /** The paths of the tag list's elements, and of its length. */
  lemma TagPath(h: Hops, task: TaskMeta, i: nat)
    ensures GetField(BuildContext(h, task), "task.tags." + Decimal(i)) == if i < |task.tags| then Str(task.tags[i]) else Undefined
  {
    IndexIsNotLength(i);
    TaskSubpath(BuildContext(h, task), "task.tags." + Decimal(i), "tags", Decimal(i));
    TaskEntry(h, task);
    ItemAt(Field(Field(BuildContext(h, task), "task"), "tags"), i);
  }

  lemma TagCountPath(h: Hops, task: TaskMeta)
    ensures GetField(BuildContext(h, task), "task.tags.length") == Num(|task.tags| as real)
  {
    TaskSubpath(BuildContext(h, task), "task.tags.length", "tags", "length");
    TaskEntry(h, task);
  }

  /** The `eq` test on the path of the i-th tag. */
  predicate TagIs(ctx: Context, i: nat, tag: string) {
    EvaluateCondition(Eq("task.tags." + Decimal(i), Str(tag)), ctx)
  }

  /** `has_tag` holds exactly when some element of the task's tag list, read by its path, equals the tag. */
  lemma {:induction false} TagLaws(h: Hops, task: TaskMeta, tag: string, status: map<HopId, Status>)
    ensures var ctx := Context(BuildContext(h, task), status, task);
            EvaluateCondition(HasTag(tag), ctx) <==> exists i: nat :: TagIs(ctx, i, tag)
  {
    var ctx := Context(BuildContext(h, task), status, task);
    forall i: nat
      ensures TagIs(ctx, i, tag) <==> i < |task.tags| && task.tags[i] == tag
    {
      TagPath(h, task, i);
    }
    if tag in task.tags {
      var i :| 0 <= i < |task.tags| && task.tags[i] == tag;
      assert TagIs(ctx, i, tag);
    }
  }
}
