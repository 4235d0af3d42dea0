/** The condition language of hops: values, dot paths and expression evaluation. */
module Conditions {
  import opened Numerals
  import opened Wrappers

  type HopId = string

  datatype Status = Pending | Ready | Dispatched | Complete | Failed | Skipped

  /** JSON-like data. Objects are read by key, arrays by index or for their length. */
  datatype Value =
    | Undefined
    | Null
    | Bool(b: bool)
    | Num(n: real)
    | Str(s: string)
    | Object(fields: map<string, Value>)
    | Array(items: seq<Value>)

  type Record = map<string, Value>

  datatype Expr =
    | Eq(field: string, value: Value)
    | Neq(field: string, value: Value)
    | Gt(field: string, bound: real)
    | Gte(field: string, bound: real)
    | Lt(field: string, bound: real)
    | Lte(field: string, bound: real)
    | In(field: string, values: seq<Value>)
    | HasTag(tag: string)
    | HopStatus(hop: HopId, status: string)
    | And(conditions: seq<Expr>)
    | Or(conditions: seq<Expr>)
    | Not(condition: Expr)
    | True
    | False

  /** Task metadata; `numeric` is JavaScript's number coercion of strings and arrays (None is NaN). */
  datatype TaskMeta = TaskMeta(
    status: string,
    tags: seq<string>,
    priority: string,
    routing: Record,
    numeric: Value -> Option<real>
  )

  datatype Context = Context(context: Value, hopStatus: map<HopId, Status>, task: TaskMeta)

  function StatusName(s: Status): string {
    match s
    case Pending => "pending"
    case Ready => "ready"
    case Dispatched => "dispatched"
    case Complete => "complete"
    case Failed => "failed"
    case Skipped => "skipped"
  }

  /** The key names an array index: a decimal numeral without leading zeros. */
  predicate IsIndex(key: string, length: nat) {
    key != "" && (forall c | c in key :: IsDigit(c)) && ParseInt(key) < length && Decimal(ParseInt(key)) == key
  }

  function Field(v: Value, key: string): Value {
    match v
    case Object(fields) => if key in fields then fields[key] else Undefined
    case Array(items) =>
      if key == "length" then Num(|items| as real)
      else if IsIndex(key, |items|) then items[ParseInt(key)]
      else Undefined
    case _ => Undefined
  }

  /** `path.split(".")`. */
  function Segments(path: string): (parts: seq<string>)
    ensures |parts| >= 1
  {
    if path == "" then [""]
    else
      var rest := Segments(path[1..]);
      if path[0] == '.' then [""] + rest else [[path[0]] + rest[0]] + rest[1..]
  }

  function Walk(v: Value, parts: seq<string>): Value
    decreases |parts|
  {
    if parts == [] then v else Walk(Field(v, parts[0]), parts[1..])
  }

  function GetField(v: Value, path: string): Value {
    Walk(v, Segments(path))
  }

  /** `===`, where two objects are never the same reference. */
  predicate StrictEquals(a: Value, b: Value) {
    a == b && !a.Object? && !a.Array?
  }

  /** Number coercion; a plain object gives NaN. */
  function AsNumber(v: Value, task: TaskMeta): Option<real> {
    match v
    case Undefined => None
    case Null => Some(0.0)
    case Bool(b) => Some(if b then 1.0 else 0.0)
    case Num(n) => Some(n)
    case Object(_) => None
    case Str(_) => task.numeric(v)
    case Array(_) => task.numeric(v)
  }

  function EvaluateCondition(e: Expr, ctx: Context): bool {
    match e
    case Eq(f, v) => StrictEquals(GetField(ctx.context, f), v)
    case Neq(f, v) => !StrictEquals(GetField(ctx.context, f), v)
    case Gt(f, b) => var n := AsNumber(GetField(ctx.context, f), ctx.task); n.Some? && n.value > b
    case Gte(f, b) => var n := AsNumber(GetField(ctx.context, f), ctx.task); n.Some? && n.value >= b
    case Lt(f, b) => var n := AsNumber(GetField(ctx.context, f), ctx.task); n.Some? && n.value < b
    case Lte(f, b) => var n := AsNumber(GetField(ctx.context, f), ctx.task); n.Some? && n.value <= b
    case In(f, vs) =>
      var v := GetField(ctx.context, f);
      v != Undefined && exists i | 0 <= i < |vs| :: StrictEquals(v, vs[i])
    case HasTag(t) => t in ctx.task.tags
    case HopStatus(id, s) => id in ctx.hopStatus && StatusName(ctx.hopStatus[id]) == s
    case And(cs) => forall i | 0 <= i < |cs| :: EvaluateCondition(cs[i], ctx)
    case Or(cs) => exists i | 0 <= i < |cs| :: EvaluateCondition(cs[i], ctx)
    case Not(c) => !EvaluateCondition(c, ctx)
    case True => true
    case False => false
  }
}
