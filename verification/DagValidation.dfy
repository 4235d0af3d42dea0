/** Validation of a workflow definition: what it accepts is exactly what the engine's theorems assume. */
module DagValidation {
  import opened Wrappers
  import opened Conditions
  import opened Workflow
  import opened Numerals
  import ConditionFrames
  import ConditionTrees
  import Text

  // ----- The dependency entries of an id -----

  /** The entries that name a known id; the others are dangling. */
  function Known(deps: seq<HopId>, ids: set<HopId>): (r: seq<HopId>)
    ensures forall d :: d in r <==> d in deps && d in ids
  {
    if deps == [] then []
    else
      var last := deps[|deps| - 1];
      Known(deps[..|deps| - 1], ids) + if last in ids then [last] else []
  }

  lemma KnownNext(deps: seq<HopId>, ids: set<HopId>, j: nat)
    requires j < |deps|
    ensures Known(deps[..j + 1], ids) == if deps[j] in ids then Known(deps[..j], ids) + [deps[j]] else Known(deps[..j], ids)
  {
    assert deps[..j + 1][..j] == deps[..j];
    assert Known(deps[..j], ids) + [] == Known(deps[..j], ids);
  }

  /** The known dependency entries of all hops with an id; ids may repeat. */
  function Entries(hops: seq<Hop>, ids: set<HopId>, id: HopId): seq<HopId> {
    if hops == [] then []
    else
      var last := hops[|hops| - 1];
      Entries(hops[..|hops| - 1], ids, id) + if last.id == id then Known(last.dependsOn, ids) else []
  }

  /** Ids and their dependencies; every dependency is an id. */
  type Graph = map<HopId, seq<HopId>>

  ghost predicate ClosedGraph(g: Graph) {
    forall id, d | id in g && d in g[id] :: d in g
  }

  ghost function Dependencies(def: Definition): Graph {
    map id | id in Ids(def) :: Entries(def, Ids(def), id)
  }

  lemma {:induction false} EntriesAre(hops: seq<Hop>, ids: set<HopId>, id: HopId)
    ensures forall d :: d in Entries(hops, ids, id) <==> d in ids && exists hop :: hop in hops && hop.id == id && d in hop.dependsOn
  {
    if hops != [] {
      var before, last := hops[..|hops| - 1], hops[|hops| - 1];
      EntriesAre(before, ids, id);
      assert forall hop :: hop in hops <==> hop in before || hop == last;
    }
  }

  lemma DependenciesAreClosed(def: Definition)
    ensures ClosedGraph(Dependencies(def))
  {
    forall id, d | id in Dependencies(def) && d in Dependencies(def)[id]
      ensures d in Dependencies(def)
    {
      EntriesAre(def, Ids(def), id);
    }
  }

  /** `rank` decreases along every dependency. */
  ghost predicate RankedGraph(g: Graph, rank: map<HopId, nat>) {
    && rank.Keys == g.Keys
    && forall id, d | id in g && d in g[id] :: d in rank && rank[d] < rank[id]
  }

  ghost predicate Acyclic(g: Graph) {
    exists rank :: RankedGraph(g, rank)
  }

  lemma UniqueEntries(def: Definition, hop: Hop)
    requires UniqueIds(def) && hop in def
    ensures forall d :: d in Dependencies(def)[hop.id] <==> d in Ids(def) && d in hop.dependsOn
  {
    EntriesAre(def, Ids(def), hop.id);
    forall x | x in def && x.id == hop.id
      ensures x == hop
    {
      SameId(def, x, hop);
    }
  }

  ghost predicate RanksBelow(g: Graph, rank: map<HopId, nat>, id: HopId) {
    id in g && id in rank && forall d | d in g[id] :: d in rank && rank[d] < rank[id]
  }

  lemma HopRanked(def: Definition, rank: map<HopId, nat>, id: HopId)
    requires ValidDefinition(def) && Ranked(def, rank) && id in Dependencies(def)
    ensures RanksBelow(Dependencies(def), rank, id)
  {
    UniqueEntries(def, FindHop(def, id).value);
  }

  lemma AllRanked(g: Graph, rank: map<HopId, nat>)
    requires rank.Keys == g.Keys && forall id | id in g :: RanksBelow(g, rank, id)
    ensures RankedGraph(g, rank)
  {
  }

  lemma HopsRanked(def: Definition, rank: map<HopId, nat>)
    requires ValidDefinition(def) && Ranked(def, rank)
    ensures RankedGraph(Dependencies(def), rank)
  {
    forall id | id in Dependencies(def)
      ensures RanksBelow(Dependencies(def), rank, id)
    {
      HopRanked(def, rank, id);
    }
    AllRanked(Dependencies(def), rank);
  }

  lemma GraphRanked(def: Definition, rank: map<HopId, nat>)
    requires ValidDefinition(def) && RankedGraph(Dependencies(def), rank)
    ensures Ranked(def, rank)
  {
    forall hop, d | hop in def && d in hop.dependsOn
      ensures d in rank && rank[d] < rank[hop.id]
    {
      UniqueEntries(def, hop);
    }
  }

  /** When ids are unique and dependencies exist, this is the acyclicity the engine's theorems assume. */
  lemma RankedGraphIff(def: Definition, rank: map<HopId, nat>)
    requires ValidDefinition(def)
    ensures RankedGraph(Dependencies(def), rank) <==> Ranked(def, rank)
  {
    if Ranked(def, rank) {
      HopsRanked(def, rank);
    } else if RankedGraph(Dependencies(def), rank) {
      GraphRanked(def, rank);
    }
  }

  // ----- Counting -----

  /** How often `x` occurs in `s`. */
  function Count(s: seq<HopId>, x: HopId): nat {
    if s == [] then 0 else (if s[0] == x then 1 else 0) + Count(s[1..], x)
  }

  lemma {:induction false} CountConcat(a: seq<HopId>, b: seq<HopId>, x: HopId)
    ensures Count(a + b, x) == Count(a, x) + Count(b, x)
  {
    if a == [] {
      assert a + b == b;
    } else {
      assert (a + b)[1..] == a[1..] + b;
      CountConcat(a[1..], b, x);
    }
  }

  lemma CountPush(s: seq<HopId>, y: HopId, x: HopId)
    ensures Count(s + [y], x) == Count(s, x) + if x == y then 1 else 0
  {
    CountConcat(s, [y], x);
    assert Count([y], x) == (if y == x then 1 else 0) + Count([], x) by {
      assert [y][1..] == [];
    }
  }

  lemma {:induction false} CountPositive(s: seq<HopId>, x: HopId)
    ensures Count(s, x) > 0 <==> x in s
  {
    if s != [] {
      CountPositive(s[1..], x);
    }
  }

  /** How many dependency entries lie outside `processed`. */
  function Outside(deps: seq<HopId>, processed: set<HopId>): nat {
    if deps == [] then 0 else (if deps[0] in processed then 0 else 1) + Outside(deps[1..], processed)
  }

  lemma {:induction false} OutsideZero(deps: seq<HopId>, processed: set<HopId>)
    ensures Outside(deps, processed) == 0 <==> forall d | d in deps :: d in processed
  {
    if deps != [] {
      OutsideZero(deps[1..], processed);
    }
  }

  lemma {:induction false} OutsideNone(deps: seq<HopId>)
    ensures Outside(deps, {}) == |deps|
  {
    if deps != [] {
      OutsideNone(deps[1..]);
    }
  }

  lemma {:induction false} OutsideDrops(deps: seq<HopId>, processed: set<HopId>, id: HopId)
    requires id !in processed
    ensures Outside(deps, processed) == Outside(deps, processed + {id}) + Count(deps, id)
  {
    if deps != [] {
      OutsideDrops(deps[1..], processed, id);
    }
  }

  // ----- The adjacency lists -----

  /** The list of `d` names an id once for each entry of that id that names `d`. */
  ghost predicate Adjacency(g: Graph, adjacency: map<HopId, seq<HopId>>) {
    && adjacency.Keys == g.Keys
    && (forall d, n | d in adjacency && n in adjacency[d] :: n in g)
    && forall d, n | d in g && n in g :: Count(adjacency[d], n) == Count(g[n], d)
  }

  ghost predicate InDegrees(g: Graph, inDegree: map<HopId, int>, processed: set<HopId>) {
    inDegree.Keys == g.Keys && forall id | id in g :: inDegree[id] == Outside(g[id], processed)
  }

  /** The entries `deps` of an id have been added to the lists. */
  ghost predicate Added(id: HopId, deps: seq<HopId>, before: map<HopId, seq<HopId>>, after: map<HopId, seq<HopId>>) {
    && after.Keys == before.Keys
    && forall d, n | d in before ::
         Count(after[d], n) == Count(before[d], n) + if n == id then Count(deps, d) else 0
  }

  lemma AddedNothing(id: HopId, before: map<HopId, seq<HopId>>)
    ensures Added(id, [], before, before)
  {
    assert forall d :: Count([], d) == 0;
    forall d, n | d in before
      ensures Count(before[d], n) == Count(before[d], n) + if n == id then Count([], d) else 0
    {
    }
  }

  lemma AddedOne(id: HopId, deps: seq<HopId>, dep: HopId, before: map<HopId, seq<HopId>>, after: map<HopId, seq<HopId>>)
    requires Added(id, deps, before, after) && dep in after
    ensures Added(id, deps + [dep], before, after[dep := after[dep] + [id]])
  {
    forall d, n | d in before
      ensures Count(after[dep := after[dep] + [id]][d], n) == Count(before[d], n) + if n == id then Count(deps + [dep], d) else 0
    {
      CountPush(after[dep], id, n);
      CountPush(deps, dep, d);
    }
  }

  /** The in-degree of an id has grown by `count`. */
  ghost predicate Raised(id: HopId, count: nat, before: map<HopId, int>, after: map<HopId, int>) {
    after.Keys == before.Keys && forall n | n in before :: after[n] == before[n] + if n == id then count else 0
  }

  lemma RaisedOne(id: HopId, count: nat, before: map<HopId, int>, after: map<HopId, int>)
    requires Raised(id, count, before, after) && id in after
    ensures Raised(id, count + 1, before, after[id := after[id] + 1])
  {
  }

  lemma KnownAll(deps: seq<HopId>, ids: set<HopId>)
    ensures Known(deps[..|deps|], ids) == Known(deps, ids) && Known(deps[..0], ids) == []
  {
    assert deps[..|deps|] == deps;
  }

  /** Records a hop's dependency entries, leaving out those that name no hop. */
  method AddEntries(id: HopId, deps: seq<HopId>, ids: set<HopId>, inDegree: map<HopId, int>, adjacency: map<HopId, seq<HopId>>)
    returns (inDegree': map<HopId, int>, adjacency': map<HopId, seq<HopId>>)
    requires id in inDegree && adjacency.Keys == ids
    ensures Raised(id, |Known(deps, ids)|, inDegree, inDegree')
    ensures Added(id, Known(deps, ids), adjacency, adjacency')
  {
    inDegree', adjacency' := inDegree, adjacency;
    AddedNothing(id, adjacency);
    KnownAll(deps, ids);
    for j := 0 to |deps|
      invariant Raised(id, |Known(deps[..j], ids)|, inDegree, inDegree')
      invariant Added(id, Known(deps[..j], ids), adjacency, adjacency')
    {
      KnownNext(deps, ids, j);
      if deps[j] in adjacency' {
        AddedOne(id, Known(deps[..j], ids), deps[j], adjacency, adjacency');
        RaisedOne(id, |Known(deps[..j], ids)|, inDegree, inDegree');
        adjacency' := adjacency'[deps[j] := adjacency'[deps[j]] + [id]];
        inDegree' := inDegree'[id := inDegree'[id] + 1];
      }
    }
  }

  /** What the lists hold after the entries of `hops`. */
  ghost predicate Entered(hops: seq<Hop>, ids: set<HopId>, inDegree: map<HopId, int>, adjacency: map<HopId, seq<HopId>>) {
    && adjacency.Keys == ids && inDegree.Keys == ids
    && (forall d, n | d in ids :: Count(adjacency[d], n) == Count(Entries(hops, ids, n), d))
    && (forall n | n in ids :: inDegree[n] == |Entries(hops, ids, n)|)
  }

  lemma OneMoreHop(hops: seq<Hop>, last: Hop, ids: set<HopId>, n: HopId)
    ensures Entries(hops + [last], ids, n)
         == if n == last.id then Entries(hops, ids, n) + Known(last.dependsOn, ids) else Entries(hops, ids, n)
  {
    assert (hops + [last])[..|hops|] == hops;
    assert Entries(hops, ids, n) + [] == Entries(hops, ids, n);
  }

  lemma OneMoreHopCounts(hops: seq<Hop>, last: Hop, ids: set<HopId>, n: HopId, d: HopId)
    ensures Count(Entries(hops + [last], ids, n), d)
         == Count(Entries(hops, ids, n), d) + if n == last.id then Count(Known(last.dependsOn, ids), d) else 0
    ensures |Entries(hops + [last], ids, n)|
         == |Entries(hops, ids, n)| + if n == last.id then |Known(last.dependsOn, ids)| else 0
  {
    OneMoreHop(hops, last, ids, n);
    CountConcat(Entries(hops, ids, n), Known(last.dependsOn, ids), d);
  }

  lemma EnteredNext(hops: seq<Hop>, last: Hop, ids: set<HopId>, inDegree: map<HopId, int>, adjacency: map<HopId, seq<HopId>>,
                    inDegree': map<HopId, int>, adjacency': map<HopId, seq<HopId>>)
    requires Entered(hops, ids, inDegree, adjacency)
    requires Raised(last.id, |Known(last.dependsOn, ids)|, inDegree, inDegree')
    requires Added(last.id, Known(last.dependsOn, ids), adjacency, adjacency')
    ensures Entered(hops + [last], ids, inDegree', adjacency')
  {
    forall d, n | d in ids
      ensures Count(adjacency'[d], n) == Count(Entries(hops + [last], ids, n), d)
    {
      assert d in adjacency;
      OneMoreHopCounts(hops, last, ids, n, d);
    }
    forall n | n in ids
      ensures inDegree'[n] == |Entries(hops + [last], ids, n)|
    {
      assert n in inDegree;
      OneMoreHopCounts(hops, last, ids, n, n);
    }
  }

  lemma PrefixNext<T>(s: seq<T>, i: nat)
    requires i < |s|
    ensures s[..i + 1] == s[..i] + [s[i]] && s[i] in s
  {
  }

  method EnterHop(def: Definition, i: nat, inDegree: map<HopId, int>, adjacency: map<HopId, seq<HopId>>)
    returns (inDegree': map<HopId, int>, adjacency': map<HopId, seq<HopId>>)
    requires i < |def| && Entered(def[..i], Ids(def), inDegree, adjacency)
    ensures Entered(def[..i + 1], Ids(def), inDegree', adjacency')
  {
    PrefixNext(def, i);
    inDegree', adjacency' := AddEntries(def[i].id, def[i].dependsOn, Ids(def), inDegree, adjacency);
    EnteredNext(def[..i], def[i], Ids(def), inDegree, adjacency, inDegree', adjacency');
  }

  method EmptyGraph(ids: set<HopId>) returns (inDegree: map<HopId, int>, adjacency: map<HopId, seq<HopId>>)
    ensures Entered([], ids, inDegree, adjacency)
  {
    inDegree := map id | id in ids :: 0;
    adjacency := map id | id in ids :: [];
  }

  method BuildGraph(def: Definition) returns (inDegree: map<HopId, int>, adjacency: map<HopId, seq<HopId>>)
    ensures Adjacency(Dependencies(def), adjacency) && InDegrees(Dependencies(def), inDegree, {})
  {
    inDegree, adjacency := EmptyGraph(Ids(def));
    assert def[..0] == [];
    for i := 0 to |def|
      invariant Entered(def[..i], Ids(def), inDegree, adjacency)
    {
      inDegree, adjacency := EnterHop(def, i, inDegree, adjacency);
    }
    assert def[..|def|] == def;
    AllEntered(def, inDegree, adjacency);
  }

  lemma AllEntered(def: Definition, inDegree: map<HopId, int>, adjacency: map<HopId, seq<HopId>>)
    requires Entered(def, Ids(def), inDegree, adjacency)
    ensures Adjacency(Dependencies(def), adjacency) && InDegrees(Dependencies(def), inDegree, {})
  {
    var g := Dependencies(def);
    forall d, n | d in adjacency && n in adjacency[d]
      ensures n in g
    {
      CountPositive(adjacency[d], n);
      CountPositive(Entries(def, Ids(def), n), d);
      EntriesAre(def, Ids(def), n);
    }
    forall id | id in g
      ensures inDegree[id] == Outside(g[id], {})
    {
      OutsideNone(g[id]);
    }
  }

  // ----- Kahn's algorithm -----

  /** The queue holds, once each, the unprocessed ids whose dependencies are all processed. */
  ghost predicate Frontier(inDegree: map<HopId, int>, queue: seq<HopId>, processed: set<HopId>) {
    && (forall i, j | 0 <= i < j < |queue| :: queue[i] != queue[j])
    && (forall id | id in queue :: id in inDegree && id !in processed)
    && (forall id | id in inDegree :: (id in processed || id in queue) <==> inDegree[id] == 0)
  }

  /** `rank` orders the processed ids: each comes after its dependencies. */
  ghost predicate RanksProcessed(g: Graph, rank: map<HopId, nat>) {
    forall id, d | id in rank && id in g && d in g[id] :: d in rank && rank[d] < rank[id]
  }

  /** An id has just been processed, and the in-degrees still count its entries, which `neighbors` lists. */
  ghost predicate JustProcessed(g: Graph, neighbors: seq<HopId>, inDegree: map<HopId, int>, processed: set<HopId>) {
    && inDegree.Keys == g.Keys
    && (forall n | n in neighbors :: n in g)
    && forall id | id in g :: inDegree[id] == Outside(g[id], processed) + Count(neighbors, id)
  }

  lemma Decremented(g: Graph, neighbors: seq<HopId>, inDegree: map<HopId, int>, processed: set<HopId>)
    requires neighbors != [] && JustProcessed(g, neighbors, inDegree, processed)
    ensures neighbors[0] in g && inDegree[neighbors[0]] > 0
    ensures JustProcessed(g, neighbors[1..], inDegree[neighbors[0] := inDegree[neighbors[0]] - 1], processed)
  {
  }

  /** Decrements the neighbours of a processed id, and queues those whose last dependency it was. */
  method Process(ghost g: Graph, neighbors: seq<HopId>, inDegree: map<HopId, int>, queue: seq<HopId>, ghost processed: set<HopId>)
    returns (inDegree': map<HopId, int>, queue': seq<HopId>)
    requires JustProcessed(g, neighbors, inDegree, processed) && Frontier(inDegree, queue, processed)
    ensures InDegrees(g, inDegree', processed) && Frontier(inDegree', queue', processed)
  {
    inDegree', queue' := inDegree, queue;
    assert neighbors[0..] == neighbors;
    for i := 0 to |neighbors|
      invariant JustProcessed(g, neighbors[i..], inDegree', processed)
      invariant Frontier(inDegree', queue', processed)
    {
      var neighbor := neighbors[i];
      assert neighbors[i..][0] == neighbor && neighbors[i..][1..] == neighbors[i + 1..];
      Decremented(g, neighbors[i..], inDegree', processed);
      var newDegree := inDegree'[neighbor] - 1;
      inDegree' := inDegree'[neighbor := newDegree];
      if newDegree == 0 {
        queue' := queue' + [neighbor];
      }
    }
    assert neighbors[|neighbors|..] == [];
  }

  ghost predicate Progressing(g: Graph, inDegree: map<HopId, int>, queue: seq<HopId>, rank: map<HopId, nat>, processed: nat) {
    && InDegrees(g, inDegree, rank.Keys) && Frontier(inDegree, queue, rank.Keys)
    && rank.Keys <= g.Keys && processed == |rank.Keys|
    && (forall id | id in rank :: rank[id] < processed)
    && RanksProcessed(g, rank)
  }

  lemma OneMore(rank: map<HopId, nat>, id: HopId, position: nat)
    requires id !in rank
    ensures rank[id := position].Keys == rank.Keys + {id} && |rank[id := position].Keys| == |rank.Keys| + 1
  {
  }

  /** Takes the head of the queue. */
  method ProcessHead(ghost g: Graph, adjacency: map<HopId, seq<HopId>>, inDegree: map<HopId, int>, queue: seq<HopId>,
                     ghost rank: map<HopId, nat>, processed: nat)
    returns (inDegree': map<HopId, int>, queue': seq<HopId>, ghost rank': map<HopId, nat>)
    requires Adjacency(g, adjacency) && queue != []
    requires Progressing(g, inDegree, queue, rank, processed)
    ensures Progressing(g, inDegree', queue', rank', processed + 1)
    ensures processed < |g.Keys|
  {
    HeadIsReady(g, adjacency, inDegree, queue, rank.Keys);
    HeadIsRanked(g, inDegree, queue, rank, processed);
    rank' := rank[queue[0] := processed];
    inDegree', queue' := Process(g, adjacency[queue[0]], inDegree, queue[1..], rank.Keys + {queue[0]});
  }

  lemma HeadIsReady(g: Graph, adjacency: map<HopId, seq<HopId>>, inDegree: map<HopId, int>, queue: seq<HopId>, done: set<HopId>)
    requires Adjacency(g, adjacency) && queue != [] && InDegrees(g, inDegree, done) && Frontier(inDegree, queue, done)
    ensures queue[0] in adjacency && JustProcessed(g, adjacency[queue[0]], inDegree, done + {queue[0]})
    ensures Frontier(inDegree, queue[1..], done + {queue[0]})
  {
    assert queue[0] in queue;
    CountsAfter(g, adjacency, inDegree, done, queue[0]);
    PopKeepsFrontier(inDegree, queue, done);
  }

  lemma HeadIsRanked(g: Graph, inDegree: map<HopId, int>, queue: seq<HopId>, rank: map<HopId, nat>, processed: nat)
    requires queue != [] && Progressing(g, inDegree, queue, rank, processed)
    ensures var rank' := rank[queue[0] := processed];
            && rank'.Keys == rank.Keys + {queue[0]} && rank'.Keys <= g.Keys
            && processed + 1 == |rank'.Keys| <= |g.Keys|
            && (forall id | id in rank' :: rank'[id] < processed + 1)
            && RanksProcessed(g, rank')
  {
    assert queue[0] in queue;
    NextRank(g, inDegree, queue, rank, processed);
    OneMore(rank, queue[0], processed);
    SmallerSet(rank.Keys + {queue[0]}, g.Keys);
  }

  /** The cycle check: every hop is counted as processed exactly when ids are unique and the known entries are acyclic. */
  method Kahn(def: Definition) returns (allProcessed: bool, adjacency: map<HopId, seq<HopId>>, ghost rank: map<HopId, nat>)
    ensures Adjacency(Dependencies(def), adjacency)
    ensures allProcessed <==> UniqueIds(def) && Acyclic(Dependencies(def))
    ensures allProcessed ==> RankedGraph(Dependencies(def), rank)
  {
    ghost var g := Dependencies(def);
    var inDegree;
    inDegree, adjacency := BuildGraph(def);
    var queue := InitialQueue(def, inDegree);
    var processed := 0;
    rank := map[];
    assert rank.Keys == {};
    while queue != []
      invariant Progressing(g, inDegree, queue, rank, processed)
      decreases |g.Keys| - processed
    {
      inDegree, queue, rank := ProcessHead(g, adjacency, inDegree, queue, rank, processed);
      processed := processed + 1;
    }
    allProcessed := processed == |def|;
    CountIds(def);
    DependenciesAreClosed(def);
    Verdict(g, inDegree, rank);
  }

  lemma PopKeepsFrontier(inDegree: map<HopId, int>, queue: seq<HopId>, done: set<HopId>)
    requires queue != [] && Frontier(inDegree, queue, done)
    ensures Frontier(inDegree, queue[1..], done + {queue[0]})
  {
  }

  lemma NextRank(g: Graph, inDegree: map<HopId, int>, queue: seq<HopId>, rank: map<HopId, nat>, processed: nat)
    requires queue != [] && InDegrees(g, inDegree, rank.Keys) && Frontier(inDegree, queue, rank.Keys)
    requires RanksProcessed(g, rank) && forall id | id in rank :: rank[id] < processed
    ensures RanksProcessed(g, rank[queue[0] := processed])
  {
    assert queue[0] in queue;
    OutsideZero(g[queue[0]], rank.Keys);
  }

  lemma CountsAfter(g: Graph, adjacency: map<HopId, seq<HopId>>, inDegree: map<HopId, int>, done: set<HopId>, current: HopId)
    requires Adjacency(g, adjacency) && InDegrees(g, inDegree, done) && current in g && current !in done
    ensures JustProcessed(g, adjacency[current], inDegree, done + {current})
  {
    forall id | id in g
      ensures inDegree[id] == Outside(g[id], done + {current}) + Count(adjacency[current], id)
    {
      OutsideDrops(g[id], done, current);
    }
  }

  /** The queue has run dry: every id is ranked, or nothing ranks them all. */
  lemma Verdict(g: Graph, inDegree: map<HopId, int>, rank: map<HopId, nat>)
    requires ClosedGraph(g) && InDegrees(g, inDegree, rank.Keys) && Frontier(inDegree, [], rank.Keys)
    requires RanksProcessed(g, rank) && rank.Keys <= g.Keys
    ensures |rank.Keys| == |g.Keys| <==> Acyclic(g)
    ensures |rank.Keys| == |g.Keys| ==> RankedGraph(g, rank)
    ensures |rank.Keys| <= |g.Keys|
  {
    SmallerSet(rank.Keys, g.Keys);
    if rank.Keys == g.Keys {
      assert RankedGraph(g, rank);
    } else {
      NothingRanks(g, inDegree, rank.Keys);
    }
  }

  /** When the queue runs dry before every id is processed, nothing ranks them all. */
  lemma NothingRanks(g: Graph, inDegree: map<HopId, int>, done: set<HopId>)
    requires ClosedGraph(g) && InDegrees(g, inDegree, done) && Frontier(inDegree, [], done) && done <= g.Keys && done != g.Keys
    ensures !Acyclic(g)
  {
    if rank :| RankedGraph(g, rank) {
      var id :| id in g && id !in done;
      RankedIsProcessed(g, rank, inDegree, done, id);
    }
  }

  lemma {:induction false} RankedIsProcessed(g: Graph, rank: map<HopId, nat>, inDegree: map<HopId, int>, done: set<HopId>, id: HopId)
    requires ClosedGraph(g) && RankedGraph(g, rank) && InDegrees(g, inDegree, done) && Frontier(inDegree, [], done) && id in g
    ensures id in done
    decreases rank[id]
  {
    forall d | d in g[id]
      ensures d in done
    {
      RankedIsProcessed(g, rank, inDegree, done, d);
    }
    OutsideZero(g[id], done);
  }

  /** The ids without unprocessed dependencies, each once: the entries of the in-degree map. */
  method InitialQueue(def: Definition, inDegree: map<HopId, int>) returns (queue: seq<HopId>)
    requires inDegree.Keys == Ids(def)
    ensures Frontier(inDegree, queue, {})
  {
    queue := [];
    var listed: set<HopId> := {};
    for i := 0 to |def|
      invariant listed == Ids(def[..i])
      invariant forall a, b | 0 <= a < b < |queue| :: queue[a] != queue[b]
      invariant forall id | id in queue :: id in listed
      invariant listed <= Ids(def)
      invariant forall id | id in listed :: id in queue <==> inDegree[id] == 0
    {
      IdsStep(def, i);
      assert def[i] in def;
      if def[i].id !in listed && inDegree[def[i].id] == 0 {
        queue := queue + [def[i].id];
      }
      listed := listed + {def[i].id};
    }
    assert def[..|def|] == def;
  }

  /** Ids are unique exactly when there are as many as hops. */
  lemma {:induction false} CountIds(def: Definition)
    ensures |Ids(def)| <= |def|
    ensures |Ids(def)| == |def| <==> UniqueIds(def)
  {
    if def != [] {
      CountIds(def[1..]);
      var twin := FindHop(def[1..], def[0].id);
      if twin.Some? {
        var k :| 0 <= k < |def| - 1 && def[1..][k] == twin.value;
        assert def[0].id == def[k + 1].id;
        assert Ids(def) == Ids(def[1..]);
      } else {
        HeadIsNew(def);
      }
    }
  }

  lemma HeadIsNew(def: Definition)
    requires def != [] && def[0].id !in Ids(def[1..])
    ensures UniqueIds(def) <==> UniqueIds(def[1..])
  {
    forall k | 0 < k < |def|
      ensures def[k].id != def[0].id
    {
      assert def[1..][k - 1] in def[1..];
    }
    if UniqueIds(def[1..]) {
      forall i, j | 0 <= i < j < |def|
        ensures def[i].id != def[j].id
      {
        assert i > 0 ==> def[1..][i - 1].id != def[1..][j - 1].id;
      }
    }
  }

  // ----- Reachability -----

  /** A chain of dependencies from a root to a hop. */
  ghost predicate Chain(def: Definition, chain: seq<Hop>, hop: Hop) {
    && chain != [] && chain[|chain| - 1] == hop
    && (forall c | c in chain :: c in def)
    && Root(chain[0])
    && forall i, j | 0 <= i < |chain| && j == i + 1 < |chain| :: chain[i].id in chain[j].dependsOn
  }

  /** In an acyclic definition every hop is reachable from a root, so the search below cannot fail on its own. */
  lemma {:induction false} ReachableFromRoot(def: Definition, rank: map<HopId, nat>, hop: Hop) returns (chain: seq<Hop>)
    requires ValidDefinition(def) && Ranked(def, rank) && hop in def
    ensures Chain(def, chain, hop)
    decreases rank[hop.id]
  {
    if Root(hop) {
      chain := [hop];
    } else {
      var d := hop.dependsOn[0];
      var before := FindHop(def, d).value;
      assert d in hop.dependsOn;
      var earlier := ReachableFromRoot(def, rank, before);
      chain := earlier + [hop];
    }
  }

  // The breadth-first search.

  /** Every root belongs to `ids`. */
  ghost predicate HasRoots(def: Definition, ids: set<HopId>) {
    forall hop | hop in def && Root(hop) :: hop.id in ids
  }

  /** Everything that depends on a member of `ids` is in `ids` or in `queue`. */
  ghost predicate ClosedBut(adjacency: map<HopId, seq<HopId>>, ids: set<HopId>, queue: seq<HopId>) {
    forall id, n | id in ids && id in adjacency && n in adjacency[id] :: n in ids || n in queue
  }

  /** Visited and queued ids belong to every set that holds the roots and is closed. */
  ghost predicate OnlyReachable(def: Definition, adjacency: map<HopId, seq<HopId>>, visited: set<HopId>, queue: seq<HopId>) {
    forall ids, id | HasRoots(def, ids) && ClosedBut(adjacency, ids, []) && (id in visited || id in queue) :: id in ids
  }

  /** The lists name ids that have lists. */
  ghost predicate ListsIds(adjacency: map<HopId, seq<HopId>>) {
    forall id, n | id in adjacency && n in adjacency[id] :: n in adjacency
  }

  ghost predicate Searching(def: Definition, adjacency: map<HopId, seq<HopId>>, visited: set<HopId>, queue: seq<HopId>) {
    && visited <= adjacency.Keys && (forall id | id in queue :: id in adjacency)
    && (forall hop | hop in def && Root(hop) :: hop.id in visited || hop.id in queue)
    && ClosedBut(adjacency, visited, queue)
    && OnlyReachable(def, adjacency, visited, queue)
  }

  method RootIds(def: Definition) returns (queue: seq<HopId>)
    ensures forall id :: id in queue <==> exists hop :: hop in def && Root(hop) && hop.id == id
  {
    queue := [];
    for i := 0 to |def|
      invariant forall id :: id in queue <==> exists k :: 0 <= k < i && Root(def[k]) && def[k].id == id
    {
      if def[i].dependsOn == [] {
        queue := queue + [def[i].id];
      }
    }
  }

  lemma RevisitKeepsSearching(def: Definition, adjacency: map<HopId, seq<HopId>>, visited: set<HopId>, queue: seq<HopId>)
    requires Searching(def, adjacency, visited, queue) && queue != [] && queue[0] in visited
    ensures Searching(def, adjacency, visited, queue[1..])
  {
    assert forall id | id in queue :: id == queue[0] || id in queue[1..];
  }

  lemma VisitKeepsSearching(def: Definition, adjacency: map<HopId, seq<HopId>>, visited: set<HopId>, queue: seq<HopId>, queue': seq<HopId>)
    requires Searching(def, adjacency, visited, queue) && queue != []
    requires ListsIds(adjacency)
    requires forall id :: id in queue' <==> id in queue[1..] || (id in adjacency[queue[0]] && id !in visited + {queue[0]})
    ensures Searching(def, adjacency, visited + {queue[0]}, queue')
  {
    assert forall id | id in queue :: id == queue[0] || id in queue[1..];
    assert forall id | id in queue[1..] :: id in queue;
    forall ids, id | HasRoots(def, ids) && ClosedBut(adjacency, ids, []) && (id in visited + {queue[0]} || id in queue')
      ensures id in ids
    {
      assert queue[0] in queue && queue[0] in ids;
    }
  }

  /** Queues the neighbours not visited yet. */
  method PushUnvisited(neighbors: seq<HopId>, visited: set<HopId>, queue: seq<HopId>) returns (queue': seq<HopId>)
    ensures forall id :: id in queue' <==> id in queue || (id in neighbors && id !in visited)
  {
    queue' := queue;
    for i := 0 to |neighbors|
      invariant forall id :: id in queue' <==> id in queue || (id in neighbors[..i] && id !in visited)
    {
      assert neighbors[..i + 1] == neighbors[..i] + [neighbors[i]];
      if neighbors[i] !in visited {
        queue' := queue' + [neighbors[i]];
      }
    }
    assert neighbors[..|neighbors|] == neighbors;
  }

  /** One turn of the loop: the queue gets shorter, or another id is visited. */
  method Visit(ghost def: Definition, adjacency: map<HopId, seq<HopId>>, visited: set<HopId>, queue: seq<HopId>)
    returns (visited': set<HopId>, queue': seq<HopId>)
    requires Searching(def, adjacency, visited, queue) && queue != []
    requires ListsIds(adjacency)
    ensures Searching(def, adjacency, visited', queue')
    ensures if queue[0] in visited then visited' == visited && queue' == queue[1..]
            else |adjacency.Keys - visited'| < |adjacency.Keys - visited|
  {
    var current := queue[0];
    if current in visited {
      RevisitKeepsSearching(def, adjacency, visited, queue);
      return visited, queue[1..];
    }
    visited' := visited + {current};
    queue' := PushUnvisited(adjacency[current], visited', queue[1..]);
    VisitKeepsSearching(def, adjacency, visited, queue, queue');
    assert current in queue;
    SmallerSet(adjacency.Keys - visited', adjacency.Keys - visited);
  }

  lemma SearchStarts(def: Definition, adjacency: map<HopId, seq<HopId>>, queue: seq<HopId>)
    requires adjacency.Keys == Ids(def) && forall id :: id in queue <==> exists hop :: hop in def && Root(hop) && hop.id == id
    ensures Searching(def, adjacency, {}, queue)
  {
  }

  lemma SearchEnds(def: Definition, adjacency: map<HopId, seq<HopId>>, visited: set<HopId>)
    requires Searching(def, adjacency, visited, []) && adjacency.Keys == Ids(def)
    ensures visited <= Ids(def) && HasRoots(def, visited) && ClosedBut(adjacency, visited, [])
    ensures forall ids | HasRoots(def, ids) && ClosedBut(adjacency, ids, []) :: visited <= ids
  {
  }

  /** Visits the least set that holds the roots and, with an id, the ids listed under it. */
  method BreadthFirst(def: Definition, adjacency: map<HopId, seq<HopId>>) returns (visited: set<HopId>)
    requires adjacency.Keys == Ids(def) && ListsIds(adjacency)
    ensures visited <= Ids(def) && HasRoots(def, visited) && ClosedBut(adjacency, visited, [])
    ensures forall ids | HasRoots(def, ids) && ClosedBut(adjacency, ids, []) :: visited <= ids
  {
    visited := {};
    var queue := RootIds(def);
    SearchStarts(def, adjacency, queue);
    while queue != []
      invariant Searching(def, adjacency, visited, queue)
      decreases |adjacency.Keys - visited|, |queue|
    {
      visited, queue := Visit(def, adjacency, visited, queue);
    }
    SearchEnds(def, adjacency, visited);
  }

  /** A hop is listed under each of its dependencies. */
  ghost predicate EdgesListed(def: Definition, adjacency: map<HopId, seq<HopId>>) {
    forall hop, d | hop in def && d in hop.dependsOn :: d in adjacency && hop.id in adjacency[d]
  }

  lemma AdjacencyListsEdges(def: Definition, adjacency: map<HopId, seq<HopId>>)
    requires ValidDefinition(def) && Adjacency(Dependencies(def), adjacency)
    ensures EdgesListed(def, adjacency)
  {
    forall hop, d | hop in def && d in hop.dependsOn
      ensures d in adjacency && hop.id in adjacency[d]
    {
      UniqueEntries(def, hop);
      CountPositive(Dependencies(def)[hop.id], d);
      CountPositive(adjacency[d], hop.id);
    }
  }

  /** A search over the adjacency lists follows every chain. */
  lemma {:induction false} ChainIsVisited(def: Definition, adjacency: map<HopId, seq<HopId>>, visited: set<HopId>, chain: seq<Hop>, k: nat)
    requires EdgesListed(def, adjacency) && HasRoots(def, visited) && ClosedBut(adjacency, visited, [])
    requires k < |chain| && Chain(def, chain, chain[|chain| - 1])
    ensures chain[k].id in visited
  {
    assert chain[k] in chain && chain[0] in chain;
    if k > 0 {
      ChainIsVisited(def, adjacency, visited, chain, k - 1);
    }
  }

  /** In an acyclic definition the search reaches every hop. */
  lemma {:induction false} AllAreVisited(def: Definition, rank: map<HopId, nat>, adjacency: map<HopId, seq<HopId>>, visited: set<HopId>)
    requires ValidDefinition(def) && Ranked(def, rank) && Adjacency(Dependencies(def), adjacency)
    requires HasRoots(def, visited) && ClosedBut(adjacency, visited, [])
    ensures Ids(def) <= visited
  {
    AdjacencyListsEdges(def, adjacency);
    forall id | id in Ids(def)
      ensures id in visited
    {
      var hop := FindHop(def, id).value;
      var chain := ReachableFromRoot(def, rank, hop);
      ChainIsVisited(def, adjacency, visited, chain, |chain| - 1);
    }
  }

  // ----- The other checks -----

  method HasDuplicate(def: Definition) returns (duplicate: bool)
    ensures duplicate <==> !UniqueIds(def)
  {
    duplicate := false;
    var hopIds: set<HopId> := {};
    for i := 0 to |def|
      invariant hopIds == Ids(def[..i])
      invariant duplicate <==> |hopIds| < i
      invariant |hopIds| <= i
    {
      IdsStep(def, i);
      if def[i].id in hopIds {
        duplicate := true;
      }
      hopIds := hopIds + {def[i].id};
    }
    assert def[..|def|] == def;
    CountIds(def);
  }

  method HasDangling(def: Definition) returns (dangling: bool)
    ensures dangling <==> !forall hop, d | hop in def && d in hop.dependsOn :: d in Ids(def)
  {
    dangling := false;
    for i := 0 to |def|
      invariant dangling <==> exists k, d :: 0 <= k < i && d in def[k].dependsOn && d !in Ids(def)
    {
      for j := 0 to |def[i].dependsOn|
        invariant dangling <==> ((exists k, d :: 0 <= k < i && d in def[k].dependsOn && d !in Ids(def))
                                 || exists d :: d in def[i].dependsOn[..j] && d !in Ids(def))
      {
        var dep := def[i].dependsOn[j];
        assert def[i].dependsOn[..j + 1] == def[i].dependsOn[..j] + [dep];
        if dep !in Ids(def) {
          dangling := true;
        }
      }
      assert def[i].dependsOn[..|def[i].dependsOn|] == def[i].dependsOn;
    }
  }

  const MAX_CONDITION_DEPTH: nat := 5
  const MAX_CONDITION_NODES: nat := 50

  /** `/^\d+[mhd]$/`. */
  predicate ValidTimeout(s: string) {
    && |s| >= 2
    && (s[|s| - 1] == 'm' || s[|s| - 1] == 'h' || s[|s| - 1] == 'd')
    && forall c | c in s[..|s| - 1] :: IsDigit(c)
  }

  /** The checks of a hop's timeout, escalation role and condition. */
  predicate HopPasses(def: Definition, hop: Hop) {
    && (hop.timeout.Some? ==> ValidTimeout(hop.timeout.value))
    && (hop.escalateTo.Some? ==> Text.Trim(hop.escalateTo.value) != "")
    && (hop.condition.Some? ==>
          && ConditionTrees.MaxDepth(hop.condition.value, 0) <= MAX_CONDITION_DEPTH
          && ConditionTrees.Nodes(hop.condition.value) <= MAX_CONDITION_NODES
          && ConditionFrames.References(hop.condition.value) <= Ids(def))
  }

  /** Minutes, hours or days: digits and a unit. */
  ghost predicate IsTimeout(s: string) {
    exists digits: string, unit: char :: TimeoutParts(s, digits, unit)
  }

  predicate TimeoutParts(s: string, digits: string, unit: char) {
    s == digits + [unit] && digits != "" && (forall c | c in digits :: '0' <= c <= '9') && (unit == 'm' || unit == 'h' || unit == 'd')
  }

  /** No deeper than five levels, no more than fifty operators, and every hop that some operator reads is defined. */
  ghost predicate ConditionIsSound(def: Definition, e: Expr) {
    && (forall p | ConditionTrees.Position(e, p) :: |p| <= 5)
    && |ConditionTrees.Positions(e)| <= 50
    && (forall p, id | ConditionTrees.Reads(e, p, id) :: id in Ids(def))
  }

  ghost predicate HopIsSound(def: Definition, hop: Hop) {
    && (hop.timeout.Some? ==> IsTimeout(hop.timeout.value))
    && (hop.escalateTo.Some? ==> exists c | c in hop.escalateTo.value :: !Text.IsSpace(c))
    && (hop.condition.Some? ==> ConditionIsSound(def, hop.condition.value))
  }

  lemma TimeoutIs(s: string)
    ensures ValidTimeout(s) <==> IsTimeout(s)
  {
    if ValidTimeout(s) {
      var digits, unit := s[..|s| - 1], s[|s| - 1];
      assert s == digits + [unit] && |digits| >= 1;
      assert forall c | c in digits :: IsDigit(c);
      assert TimeoutParts(s, digits, unit);
    }
    if digits: string, unit: char :| TimeoutParts(s, digits, unit) {
      assert s[..|s| - 1] == digits;
    }
  }

  lemma {:induction false} TrimEmpties(s: string)
    ensures Text.Trim(s) != "" <==> exists c | c in s :: !Text.IsSpace(c)
  {
    Text.TrimKeeps(s);
    if Text.Trim(s) != "" {
      assert Text.Trim(s)[0] in Text.Trim(s);
    }
  }

  lemma ConditionPasses(def: Definition, e: Expr)
    ensures ConditionTrees.MaxDepth(e, 0) <= 5 <==> forall p | ConditionTrees.Position(e, p) :: |p| <= 5
    ensures ConditionTrees.Nodes(e) == |ConditionTrees.Positions(e)|
    ensures ConditionFrames.References(e) <= Ids(def) <==> forall p, id | ConditionTrees.Reads(e, p, id) :: id in Ids(def)
  {
    ConditionTrees.DepthIs(e);
    ConditionTrees.SizeIs(e);
    ConditionTrees.ReferencesAre(e);
    forall p, id | ConditionTrees.Reads(e, p, id)
      ensures id in ConditionFrames.References(e)
    {
    }
  }

  /** The checks say what they should. */
  lemma PassesIffSound(def: Definition, hop: Hop)
    ensures HopPasses(def, hop) <==> HopIsSound(def, hop)
  {
    if hop.timeout.Some? {
      TimeoutIs(hop.timeout.value);
    }
    if hop.escalateTo.Some? {
      TrimEmpties(hop.escalateTo.value);
    }
    if hop.condition.Some? {
      ConditionPasses(def, hop.condition.value);
    }
  }

  method HasRootHop(def: Definition) returns (rootHops: bool)
    ensures rootHops <==> exists hop | hop in def :: Root(hop)
  {
    var queue := RootIds(def);
    rootHops := queue != [];
    assert rootHops ==> queue[0] in queue;
    if hop :| hop in def && Root(hop) {
      assert hop.id in queue;
    }
  }

  method AllSound(def: Definition) returns (sound: bool)
    ensures sound <==> forall hop | hop in def :: HopIsSound(def, hop)
  {
    sound := true;
    for i := 0 to |def|
      invariant sound <==> forall k | 0 <= k < i :: HopIsSound(def, def[k])
    {
      PassesIffSound(def, def[i]);
      if !HopPasses(def, def[i]) {
        sound := false;
      }
    }
    assert sound <==> forall hop | hop in def :: HopIsSound(def, hop);
  }

  /**
   * `validateDAG(...).length === 0`: accepts a definition exactly when ids are unique, dependencies exist, some hop is a
   * root, there is no cycle, and every hop's timeout, escalation role and condition are sound.
   */
  method ValidateDAG(def: Definition) returns (valid: bool, ghost rank: map<HopId, nat>)
    ensures valid <==> ValidDefinition(def) && (exists hop | hop in def :: Root(hop)) && (exists r :: Ranked(def, r))
                       && forall hop | hop in def :: HopIsSound(def, hop)
    ensures valid ==> Ranked(def, rank)
  {
    var duplicate := HasDuplicate(def);
    var dangling := HasDangling(def);
    var rootHops := HasRootHop(def);
    var allProcessed, adjacency;
    allProcessed, adjacency, rank := Kahn(def);
    var reachable := true;
    if rootHops {
      ListedAreIds(def, adjacency);
      var visited := BreadthFirst(def, adjacency);
      reachable := Ids(def) <= visited;
      ReachableUnlessRejected(def, rank, adjacency, visited);
    }
    var sound := AllSound(def);
    valid := !duplicate && !dangling && rootHops && allProcessed && reachable && sound;
    AcyclicAgrees(def, rank);
    assert !duplicate && !dangling ==> ValidDefinition(def);
    assert ValidDefinition(def) ==> !duplicate && !dangling;
  }

  lemma ListedAreIds(def: Definition, adjacency: map<HopId, seq<HopId>>)
    requires Adjacency(Dependencies(def), adjacency)
    ensures adjacency.Keys == Ids(def) && ListsIds(adjacency)
  {
  }

  lemma ReachableUnlessRejected(def: Definition, rank: map<HopId, nat>, adjacency: map<HopId, seq<HopId>>, visited: set<HopId>)
    requires Adjacency(Dependencies(def), adjacency) && HasRoots(def, visited) && ClosedBut(adjacency, visited, [])
    ensures ValidDefinition(def) && RankedGraph(Dependencies(def), rank) ==> Ids(def) <= visited
  {
    if ValidDefinition(def) && RankedGraph(Dependencies(def), rank) {
      RankedGraphIff(def, rank);
      AllAreVisited(def, rank, adjacency, visited);
    }
  }

  lemma AcyclicAgrees(def: Definition, rank: map<HopId, nat>)
    ensures ValidDefinition(def) ==> (Acyclic(Dependencies(def)) <==> exists r :: Ranked(def, r))
    ensures ValidDefinition(def) ==> (RankedGraph(Dependencies(def), rank) <==> Ranked(def, rank))
  {
    if ValidDefinition(def) {
      forall r
        ensures RankedGraph(Dependencies(def), r) <==> Ranked(def, r)
      {
        RankedGraphIff(def, r);
      }
    }
  }
}
