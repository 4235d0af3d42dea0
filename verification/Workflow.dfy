/** The workflow schema: hop definitions, hop states and the initial state. */
module Workflow {
  import opened Wrappers
  import opened Conditions

  type Timestamp = nat

  datatype JoinType = All | Any

  datatype RejectionStrategy = Origin | Predecessors

  datatype Hop = Hop(
    id: HopId,
    role: string,
    dependsOn: seq<HopId>,
    joinType: JoinType,
    autoAdvance: bool,
    condition: Option<Expr>,
    canReject: bool,
    rejectionStrategy: Option<RejectionStrategy>,
    timeout: Option<string>,
    escalateTo: Option<string>
  )

  type Definition = seq<Hop>

  datatype HopState = HopState(
    status: Status,
    startedAt: Option<Timestamp>,
    completedAt: Option<Timestamp>,
    agent: Option<string>,
    correlationId: Option<string>,
    result: Option<Record>,
    rejectionCount: Option<nat>,
    escalated: bool
  )

  type Hops = map<HopId, HopState>

  /** A hop state that carries a status and no other field. */
  function Fresh(status: Status): HopState {
    HopState(status, None, None, None, None, None, None, false)
  }

  function Ids(def: Definition): (ids: set<HopId>)
    ensures forall hop | hop in def :: hop.id in ids
  {
    if def == [] then {}
    else
      assert def == [def[0]] + def[1..];
      {def[0].id} + Ids(def[1..])
  }

  lemma {:induction false} SmallerSet(a: set<HopId>, b: set<HopId>)
    requires a <= b
    ensures |a| <= |b|
    ensures a < b ==> |a| < |b|
  {
    assert b == a + (b - a);
    assert a < b ==> b - a != {};
  }

  ghost predicate UniqueIds(def: Definition) {
    forall i, j | 0 <= i < j < |def| :: def[i].id != def[j].id
  }

  /** What schema validation establishes when a task is created, acyclicity aside. */
  ghost predicate ValidDefinition(def: Definition) {
    && UniqueIds(def)
    && forall hop, d | hop in def && d in hop.dependsOn :: d in Ids(def)
  }

  /** No hop has a condition. */
  ghost predicate Plain(def: Definition) {
    forall hop | hop in def :: hop.condition.None?
  }

  /** `rank` strictly decreases along every dependency: a certificate of acyclicity. */
  ghost predicate Ranked(def: Definition, rank: map<HopId, nat>) {
    && rank.Keys == Ids(def)
    && forall hop, d | hop in def && d in hop.dependsOn :: d in rank && rank[d] < rank[hop.id]
  }

  /** The state has exactly one entry per defined hop. */
  ghost predicate Shaped(def: Definition, h: Hops) {
    h.Keys == Ids(def)
  }

  lemma SameId(def: Definition, a: Hop, b: Hop)
    requires UniqueIds(def) && a in def && b in def && a.id == b.id
    ensures a == b
  {
    var i :| 0 <= i < |def| && def[i] == a;
    var j :| 0 <= j < |def| && def[j] == b;
    assert i == j;
  }

  /** `definition.hops.find(h => h.id === id)`. */
  function FindHop(def: Definition, id: HopId): (r: Option<Hop>)
    ensures r.Some? <==> id in Ids(def)
    ensures r.Some? ==> r.value in def && r.value.id == id
  {
    if def == [] then None
    else if def[0].id == id then Some(def[0])
    else FindHop(def[1..], id)
  }

  lemma {:induction false} IdsStep(def: Definition, i: nat)
    requires i < |def|
    ensures Ids(def[..i + 1]) == Ids(def[..i]) + {def[i].id}
  {
    if i == 0 {
      assert def[..1] == [def[0]];
    } else {
      IdsStep(def[1..], i - 1);
      assert def[..i + 1][1..] == def[1..][..i];
      assert def[..i][1..] == def[1..][..i - 1];
    }
  }

  lemma FreshId(def: Definition, i: nat)
    requires UniqueIds(def) && i < |def|
    ensures def[i].id !in Ids(def[..i]) && def[i].id in Ids(def)
    ensures Ids(def[..i + 1]) == Ids(def[..i]) + {def[i].id}
    ensures Ids(def[..i]) <= Ids(def)
  {
    IdsStep(def, i);
    forall id | id in Ids(def[..i])
      ensures id in Ids(def) && id != def[i].id
    {
      var hop := FindHop(def[..i], id).value;
      var j :| 0 <= j < i && def[..i][j] == hop;
      assert def[j] in def;
    }
  }

  lemma FindHopIs(def: Definition, hop: Hop)
    requires UniqueIds(def) && hop in def
    ensures FindHop(def, hop.id) == Some(hop)
  {
    SameId(def, hop, FindHop(def, hop.id).value);
  }

  // Status tests written as the source writes them: an absent hop has no status.

  predicate Is(h: Hops, id: HopId, s: Status) {
    id in h && h[id].status == s
  }

  predicate Terminal(h: Hops, id: HopId) {
    id in h && (h[id].status.Complete? || h[id].status.Skipped? || h[id].status.Failed?)
  }

  predicate NonSuccess(h: Hops, id: HopId) {
    id in h && (h[id].status.Skipped? || h[id].status.Failed?)
  }

  predicate Satisfied(h: Hops, id: HopId) {
    id in h && (h[id].status.Complete? || h[id].status.Skipped?)
  }

  /** The hop has been ready or dispatched since it was last reset. */
  predicate Started(h: Hops, id: HopId) {
    id in h && h[id].status != Pending && h[id].status != Skipped
  }

  function Statuses(h: Hops): map<HopId, Status> {
    map id | id in h :: h[id].status
  }

  predicate Root(hop: Hop) {
    hop.dependsOn == []
  }

  /** Roots start ready, every other hop pending. */
  ghost function InitialState(def: Definition): (h: Hops)
    requires UniqueIds(def)
    ensures Shaped(def, h)
  {
    map id | id in Ids(def) :: Fresh(if Root(FindHop(def, id).value) then Ready else Pending)
  }

  lemma {:induction false} InitialStatus(def: Definition, hop: Hop)
    requires UniqueIds(def) && hop in def
    ensures hop.id in InitialState(def)
    ensures InitialState(def)[hop.id] == Fresh(if Root(hop) then Ready else Pending)
  {
    FindHopIs(def, hop);
  }
}
