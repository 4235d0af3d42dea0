/** What schema validation finds in a condition: its depth, its size and the hops it refers to. */
module ConditionTrees {
  import opened Wrappers
  import opened Conditions
  import opened ConditionFrames
  import ConditionLaws

  // ----- Measures -----

  /** `measureConditionComplexity(...).maxDepth`. */
  function MaxDepth(e: Expr, depth: nat): nat
    decreases e, 0
  {
    match e
    case And(cs) => Deepest(cs, depth + 1, depth)
    case Or(cs) => Deepest(cs, depth + 1, depth)
    case Not(c) => MaxDepth(c, depth + 1)
    case _ => depth
  }

  function Deepest(cs: seq<Expr>, depth: nat, least: nat): nat
    decreases cs, 1
  {
    if cs == [] then least
    else
      var first, rest := MaxDepth(cs[0], depth), Deepest(cs[1..], depth, least);
      if first > rest then first else rest
  }

  /** `measureConditionComplexity(...).totalNodes`. */
  function Nodes(e: Expr): nat
    decreases e, 0
  {
    match e
    case And(cs) => 1 + NodesOf(cs)
    case Or(cs) => 1 + NodesOf(cs)
    case Not(c) => 1 + Nodes(c)
    case _ => 1
  }

  function NodesOf(cs: seq<Expr>): nat
    decreases cs, 1
  {
    if cs == [] then 0 else Nodes(cs[0]) + NodesOf(cs[1..])
  }

  // ----- Positions in the expression tree -----

  /** The operands of a connective. */
  function Children(e: Expr): seq<Expr> {
    match e
    case And(cs) => cs
    case Or(cs) => cs
    case Not(c) => [c]
    case _ => []
  }

  /** `p` leads from the root to a subexpression: which operand to take, level by level. */
  ghost predicate Position(e: Expr, p: seq<nat>)
    decreases |p|
  {
    p == [] || (p[0] < |Children(e)| && Position(Children(e)[p[0]], p[1..]))
  }

  ghost function At(e: Expr, p: seq<nat>): Expr
    requires Position(e, p)
    decreases |p|
  {
    if p == [] then e else At(Children(e)[p[0]], p[1..])
  }

  // ----- Depth -----

  lemma {:induction false} DeepestBounds(cs: seq<Expr>, depth: nat, least: nat, i: nat)
    requires i < |cs|
    ensures MaxDepth(cs[i], depth) <= Deepest(cs, depth, least)
    decreases |cs|
  {
    if i > 0 {
      DeepestBounds(cs[1..], depth, least, i - 1);
    }
  }

  /** No position is longer than the measured depth. */
  lemma {:induction false} DepthBounds(e: Expr, depth: nat, p: seq<nat>)
    requires Position(e, p)
    ensures depth + |p| <= MaxDepth(e, depth)
    decreases |p|
  {
    if p == [] {
      DepthGrows(e, depth);
    } else {
      DepthBounds(Children(e)[p[0]], depth + 1, p[1..]);
      if e.And? || e.Or? {
        DeepestBounds(e.conditions, depth + 1, depth, p[0]);
      }
    }
  }

  lemma {:induction false} DepthGrows(e: Expr, depth: nat)
    ensures MaxDepth(e, depth) >= depth
    decreases e, 0
  {
    if e.And? || e.Or? {
      DeepestGrows(e.conditions, depth + 1, depth);
    } else if e.Not? {
      DepthGrows(e.condition, depth + 1);
    }
  }

  lemma {:induction false} DeepestGrows(cs: seq<Expr>, depth: nat, least: nat)
    ensures Deepest(cs, depth, least) >= least
    decreases cs, 1
  {
    if cs != [] {
      DeepestGrows(cs[1..], depth, least);
    }
  }

  /** Some position is as long. */
  lemma {:induction false} DepthReached(e: Expr, depth: nat) returns (p: seq<nat>)
    ensures Position(e, p) && depth + |p| == MaxDepth(e, depth)
    decreases e, 0
  {
    p := [];
    if e.And? || e.Or? {
      var found, k, below := DeepestReached(e.conditions, depth + 1, depth);
      if found {
        p := Below(e, k, below);
      }
    } else if e.Not? {
      var below := DepthReached(e.condition, depth + 1);
      p := Below(e, 0, below);
    }
  }

  lemma Below(e: Expr, k: nat, below: seq<nat>) returns (p: seq<nat>)
    requires k < |Children(e)| && Position(Children(e)[k], below)
    ensures Position(e, p) && |p| == 1 + |below|
  {
    p := [k] + below;
    assert p[1..] == below;
  }

  lemma {:induction false} DeepestReached(cs: seq<Expr>, depth: nat, least: nat) returns (found: bool, k: nat, below: seq<nat>)
    ensures if found then k < |cs| && Position(cs[k], below) && depth + |below| == Deepest(cs, depth, least)
            else Deepest(cs, depth, least) == least
    decreases cs, 1
  {
    found, k, below := false, 0, [];
    if cs != [] {
      var first := DepthReached(cs[0], depth);
      var f, j, rest := DeepestReached(cs[1..], depth, least);
      if MaxDepth(cs[0], depth) > Deepest(cs[1..], depth, least) {
        found, below := true, first;
      } else if f {
        found, k, below := true, j + 1, rest;
      }
    }
  }

  /** The measured depth is the length of the longest position. */
  lemma {:induction false} DepthIs(e: Expr)
    ensures forall p | Position(e, p) :: |p| <= MaxDepth(e, 0)
    ensures exists p :: Position(e, p) && |p| == MaxDepth(e, 0)
  {
    forall p | Position(e, p)
      ensures |p| <= MaxDepth(e, 0)
    {
      DepthBounds(e, 0, p);
    }
    var p := DepthReached(e, 0);
  }

  // ----- Size -----

  /** All positions of an expression. */
  ghost function Positions(e: Expr): set<seq<nat>>
    decreases e, 0
  {
    match e
    case And(cs) => {[]} + PositionsFrom(cs, 0)
    case Or(cs) => {[]} + PositionsFrom(cs, 0)
    case Not(c) => {[]} + Under(0, Positions(c))
    case _ => {[]}
  }

  /** The positions that lead into the operands `cs`, the first of which is the k-th. */
  ghost function PositionsFrom(cs: seq<Expr>, k: nat): set<seq<nat>>
    decreases cs, 1
  {
    if cs == [] then {} else Under(k, Positions(cs[0])) + PositionsFrom(cs[1..], k + 1)
  }

  ghost function Under(k: nat, ps: set<seq<nat>>): set<seq<nat>> {
    set p | p in ps :: [k] + p
  }

  lemma UnderIs(k: nat, ps: set<seq<nat>>)
    ensures forall q :: q in Under(k, ps) <==> q != [] && q[0] == k && q[1..] in ps
  {
    forall q | q != [] && q[0] == k && q[1..] in ps
      ensures q in Under(k, ps)
    {
      assert q == [k] + q[1..];
    }
  }

  lemma {:induction false} UnderCount(k: nat, ps: set<seq<nat>>)
    ensures |Under(k, ps)| == |ps|
    decreases |ps|
  {
    if ps != {} {
      var p :| p in ps;
      UnderCount(k, ps - {p});
      UnderIs(k, ps);
      UnderIs(k, ps - {p});
      assert ([k] + p)[1..] == p;
      assert Under(k, ps) == Under(k, ps - {p}) + {[k] + p};
    }
  }

  lemma {:induction false} PositionIs(e: Expr, p: seq<nat>)
    ensures p in Positions(e) <==> Position(e, p)
    decreases e, 0
  {
    if p != [] {
      if e.And? || e.Or? {
        PositionFromIs(e.conditions, 0, p);
      } else if e.Not? {
        PositionIs(e.condition, p[1..]);
        UnderIs(0, Positions(e.condition));
      }
    }
  }

  lemma {:induction false} PositionFromIs(cs: seq<Expr>, k: nat, q: seq<nat>)
    requires q != []
    ensures q in PositionsFrom(cs, k) <==> k <= q[0] < k + |cs| && Position(cs[q[0] - k], q[1..])
    decreases cs, 1
  {
    if cs != [] {
      UnderIs(k, Positions(cs[0]));
      PositionFromIs(cs[1..], k + 1, q);
      if q[0] == k {
        PositionIs(cs[0], q[1..]);
      }
    }
  }

  /** Positions among operands start with the operand's number. */
  lemma {:induction false} PositionsFromStart(cs: seq<Expr>, k: nat)
    ensures forall q | q in PositionsFrom(cs, k) :: q != [] && q[0] >= k
    decreases |cs|
  {
    if cs != [] {
      UnderIs(k, Positions(cs[0]));
      PositionsFromStart(cs[1..], k + 1);
    }
  }

  lemma PositionsAre(e: Expr)
    ensures forall p :: p in Positions(e) <==> Position(e, p)
  {
    forall p
      ensures p in Positions(e) <==> Position(e, p)
    {
      PositionIs(e, p);
    }
  }

  /** The measured size is the number of positions. */
  lemma {:induction false} SizeIs(e: Expr)
    ensures Nodes(e) == |Positions(e)|
    decreases e, 0
  {
    if e.And? || e.Or? {
      SizesAre(e.conditions, 0);
      PositionsFromStart(e.conditions, 0);
    } else if e.Not? {
      SizeIs(e.condition);
      UnderCount(0, Positions(e.condition));
      UnderIs(0, Positions(e.condition));
    }
  }

  lemma {:induction false} SizesAre(cs: seq<Expr>, k: nat)
    ensures NodesOf(cs) == |PositionsFrom(cs, k)|
    decreases cs, 1
  {
    if cs != [] {
      SizeIs(cs[0]);
      SizesAre(cs[1..], k + 1);
      UnderCount(k, Positions(cs[0]));
      UnderIs(k, Positions(cs[0]));
      PositionsFromStart(cs[1..], k + 1);
      assert Under(k, Positions(cs[0])) !! PositionsFrom(cs[1..], k + 1);
    }
  }

  // ----- References -----

  predicate TestsField(e: Expr) {
    e.Eq? || e.Neq? || e.Gt? || e.Gte? || e.Lt? || e.Lte? || e.In?
  }

  /** The path is `hops.<id>`, or goes on after it with a dot. */
  predicate PathNames(path: string, id: HopId) {
    id != "" && '.' !in id && (path == "hops." + id || "hops." + id + "." <= path)
  }

  /** An operator that reads the hop `id`: a status test, or a test of a path into its results. */
  predicate Names(e: Expr, id: HopId) {
    (e.HopStatus? && e.hop == id) || (TestsField(e) && PathNames(e.field, id))
  }

  lemma {:induction false} FirstSegmentIs(path: string)
    ensures var parts := Segments(path);
            && '.' !in parts[0] && parts[0] <= path
            && (|parts| == 1 ==> path == parts[0])
            && (|parts| > 1 ==> |path| > |parts[0]| && path[|parts[0]|] == '.' && Segments(path[|parts[0]| + 1..]) == parts[1..])
  {
    if path != "" {
      FirstSegmentIs(path[1..]);
      var rest := Segments(path[1..]);
      if path[0] == '.' {
        assert ([""] + rest)[1..] == rest;
      } else {
        var parts := [[path[0]] + rest[0]] + rest[1..];
        assert parts[0] == [path[0]] + rest[0] && parts[1..] == rest[1..];
        assert path == [path[0]] + path[1..];
        if |parts| > 1 {
          assert path[|parts[0]| + 1..] == path[1..][|rest[0]| + 1..];
        }
      }
    }
  }

  lemma NamedIsReferenced(path: string, id: HopId)
    requires PathNames(path, id)
    ensures FieldReference(path) == {id}
  {
    var rest := path[|"hops."|..];
    assert path == "hops" + "." + rest;
    ConditionLaws.FirstSegment("hops", rest);
    if path == "hops." + id {
      assert rest == id;
      ConditionLaws.OneSegment(id);
    } else {
      var more := rest[|id| + 1..];
      assert rest == id + "." + more;
      ConditionLaws.FirstSegment(id, more);
    }
  }

  lemma ReferencedIsNamed(path: string, id: HopId)
    requires id in FieldReference(path)
    ensures PathNames(path, id)
  {
    FirstSegmentIs(path);
    assert Segments(path)[0] == "hops";
    var rest := path[|"hops"| + 1..];
    FirstSegmentIs(rest);
    assert Segments(rest)[0] == id;
    RejoinPath(path, rest, id);
  }

  lemma RejoinPath(path: string, rest: string, id: HopId)
    requires "hops" <= path && |path| > 4 && path[4] == '.' && rest == path[5..] && id <= rest && id != "" && '.' !in id
    requires rest == id || (|rest| > |id| && rest[|id|] == '.')
    ensures PathNames(path, id)
  {
    assert path == "hops." + rest;
    if rest != id {
      assert rest == id + "." + rest[|id| + 1..];
      assert path == ("hops." + id + ".") + rest[|id| + 1..];
    }
  }

  /** The operator at position `p` reads the hop `id`. */
  ghost predicate Reads(e: Expr, p: seq<nat>, id: HopId) {
    Position(e, p) && Names(At(e, p), id)
  }

  /** The hops collected from a condition are exactly those that some operator in it reads. */
  lemma {:induction false} ReferencesAre(e: Expr)
    ensures forall id :: id in References(e) <==> exists p :: Reads(e, p, id)
  {
    forall id
      ensures id in References(e) <==> exists p :: Reads(e, p, id)
    {
      if p :| Reads(e, p, id) {
        ReferenceAbove(e, p, id);
      }
      if id in References(e) {
        var p := ReferenceBelow(e, id);
      }
    }
  }

  lemma {:induction false} ReferenceAbove(e: Expr, p: seq<nat>, id: HopId)
    requires Reads(e, p, id)
    ensures id in References(e)
    decreases |p|
  {
    if p == [] {
      if TestsField(e) && PathNames(e.field, id) {
        NamedIsReferenced(e.field, id);
      }
    } else {
      assert Reads(Children(e)[p[0]], p[1..], id);
      ReferenceAbove(Children(e)[p[0]], p[1..], id);
    }
  }

  lemma {:induction false} ReferenceBelow(e: Expr, id: HopId) returns (p: seq<nat>)
    requires id in References(e)
    ensures Reads(e, p, id)
  {
    if e.And? || e.Or? {
      var i :| 0 <= i < |e.conditions| && id in References(e.conditions[i]);
      var below := ReferenceBelow(e.conditions[i], id);
      p := [i] + below;
      assert p[1..] == below;
    } else if e.Not? {
      var below := ReferenceBelow(e.condition, id);
      p := [0] + below;
      assert p[1..] == below;
    } else {
      p := [];
      if TestsField(e) {
        ReferencedIsNamed(e.field, id);
      }
    }
  }
}
