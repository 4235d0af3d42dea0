/** The scheduler's single-pass search for circular task dependencies. */
module CircularDeps {
  /** Task ids are only ever compared. */
  type TaskId = int

  datatype TaskEntry = TaskEntry(id: TaskId, dependsOn: seq<TaskId>)

  type Graph = map<TaskId, seq<TaskId>>

  /** `new Map(tasks.map(...))`: the last entry with an id wins. */
  function TaskMap(tasks: seq<TaskEntry>): Graph {
    if tasks == [] then map[]
    else TaskMap(tasks[..|tasks| - 1])[tasks[|tasks| - 1].id := tasks[|tasks| - 1].dependsOn]
  }

  function Deps(g: Graph, u: TaskId): seq<TaskId> {
    if u in g then g[u] else []
  }

  predicate Edge(g: Graph, u: TaskId, v: TaskId) {
    v in Deps(g, u)
  }

  ghost predicate Path(g: Graph, p: seq<TaskId>) {
    forall i, j | 0 <= i < j < |p| && j == i + 1 :: Edge(g, p[i], p[j])
  }

  /** A closed walk along dependencies. */
  ghost predicate IsCycle(g: Graph, p: seq<TaskId>) {
    p != [] && Path(g, p) && Edge(g, p[|p| - 1], p[0])
  }

  ghost predicate AllCycles(g: Graph, cycles: set<seq<TaskId>>) {
    forall c | c in cycles :: IsCycle(g, c)
  }

  ghost predicate Covers(cycles: set<seq<TaskId>>, S: set<TaskId>) {
    forall x :: x in S <==> exists c :: c in cycles && x in c
  }

  /** `S` is a union of cycles. */
  ghost predicate UnionOfCycles(g: Graph, S: set<TaskId>) {
    exists cycles: set<seq<TaskId>> :: AllCycles(g, cycles) && Covers(cycles, S)
  }

  /** One of the cycles ends with the edge from `u` back to its first member `v`. */
  ghost predicate Closes(cycles: set<seq<TaskId>>, u: TaskId, v: TaskId) {
    exists c :: c in cycles && c != [] && c[|c| - 1] == u && c[0] == v
  }

  /** Every dependency of a finished task finished before it, or closes a recorded cycle. */
  ghost predicate FinishOrder(g: Graph, finish: map<TaskId, nat>, cycles: set<seq<TaskId>>) {
    forall u, v | u in finish && Edge(g, u, v) :: (v in finish && finish[v] < finish[u]) || Closes(cycles, u, v)
  }

  ghost predicate Distinct(s: seq<TaskId>) {
    forall i, j | 0 <= i < j < |s| :: s[i] != s[j]
  }

  function Elements(s: seq<TaskId>): set<TaskId> {
    set x | x in s
  }

  lemma ElementsPush(s: seq<TaskId>, x: TaskId)
    ensures Elements(s + [x]) == Elements(s) + {x}
    ensures Distinct(s + [x]) <==> Distinct(s) && x !in Elements(s)
  {
    if Distinct(s + [x]) {
      forall i, j | 0 <= i < j < |s|
        ensures s[i] != s[j]
      {
        assert (s + [x])[i] != (s + [x])[j];
      }
      forall i | 0 <= i < |s|
        ensures s[i] != x
      {
        assert (s + [x])[i] != (s + [x])[|s|];
      }
    }
  }

  /** All tasks and everything they depend on. */
  function Nodes(g: Graph): set<TaskId> {
    g.Keys + set u, v | u in g && v in g[u] :: v
  }

  lemma DependencyIsNode(g: Graph, u: TaskId, v: TaskId)
    requires Edge(g, u, v)
    ensures v in Nodes(g)
  {
  }

  // ----- Counting dependency entries -----

  function EntryCount(tasks: seq<TaskEntry>): nat {
    if tasks == [] then 0 else EntryCount(tasks[..|tasks| - 1]) + |tasks[|tasks| - 1].dependsOn|
  }

  /** Dependency entries of the tasks whose ids are in `S`. */
  function EntriesOf(tasks: seq<TaskEntry>, S: set<TaskId>): nat {
    if tasks == [] then 0
    else
      var t := tasks[|tasks| - 1];
      EntriesOf(tasks[..|tasks| - 1], S) + if t.id in S then |t.dependsOn| else 0
  }

  lemma {:induction false} EntriesAreCounted(tasks: seq<TaskEntry>, S: set<TaskId>)
    ensures EntriesOf(tasks, S) <= EntryCount(tasks)
  {
    if tasks != [] {
      EntriesAreCounted(tasks[..|tasks| - 1], S);
    }
  }

  lemma {:induction false} EntriesGrow(tasks: seq<TaskEntry>, S: set<TaskId>, u: TaskId)
    requires u !in S
    ensures EntriesOf(tasks, S) + |Deps(TaskMap(tasks), u)| <= EntriesOf(tasks, S + {u})
  {
    if tasks != [] {
      EntriesGrow(tasks[..|tasks| - 1], S, u);
    }
  }

  lemma {:induction false} TaskMapKeys(tasks: seq<TaskEntry>)
    ensures TaskMap(tasks).Keys == set t | t in tasks :: t.id
  {
    if tasks != [] {
      TaskMapKeys(tasks[..|tasks| - 1]);
      assert tasks == tasks[..|tasks| - 1] + [tasks[|tasks| - 1]];
    }
  }

  // ----- The search -----

  /** The i-th entry is the last with its id, which is the one that counts. */
  ghost predicate LastEntry(tasks: seq<TaskEntry>, i: int) {
    0 <= i < |tasks| && forall j | i < j < |tasks| :: tasks[j].id != tasks[i].id
  }

  /** The last entry of task `u` lists `v`. */
  ghost predicate Lists(tasks: seq<TaskEntry>, u: TaskId, v: TaskId) {
    exists i :: LastEntry(tasks, i) && tasks[i].id == u && v in tasks[i].dependsOn
  }

  lemma LastEntryBefore(tasks: seq<TaskEntry>, i: int)
    requires tasks != []
    ensures LastEntry(tasks, i) <==>
            i == |tasks| - 1 || (LastEntry(tasks[..|tasks| - 1], i) && tasks[i].id != tasks[|tasks| - 1].id)
  {
  }

  /** The edges are what the tasks' last entries list. */
  ghost predicate GraphOf(tasks: seq<TaskEntry>, g: Graph) {
    forall u, v :: Edge(g, u, v) <==> Lists(tasks, u, v)
  }

  lemma {:induction false} TaskMapIs(tasks: seq<TaskEntry>)
    ensures GraphOf(tasks, TaskMap(tasks))
  {
    forall u, v
      ensures Edge(TaskMap(tasks), u, v) <==> Lists(tasks, u, v)
    {
      EdgeIs(tasks, u, v);
    }
  }

  lemma {:induction false} EdgeIs(tasks: seq<TaskEntry>, u: TaskId, v: TaskId)
    ensures Edge(TaskMap(tasks), u, v) <==> Lists(tasks, u, v)
  {
    if tasks != [] {
      var n := |tasks| - 1;
      EdgeIs(tasks[..n], u, v);
      LastEntryBefore(tasks, n);
      if tasks[n].id != u {
        if i :| LastEntry(tasks, i) && tasks[i].id == u && v in tasks[i].dependsOn {
          LastEntryBefore(tasks, i);
          assert LastEntry(tasks[..n], i);
        }
        if i :| LastEntry(tasks[..n], i) && tasks[..n][i].id == u && v in tasks[..n][i].dependsOn {
          LastEntryBefore(tasks, i);
          assert LastEntry(tasks, i);
        }
      }
    }
  }

  lemma SuffixIsCycle(g: Graph, stack: seq<TaskId>, start: nat)
    requires start < |stack| && Path(g, stack) && Edge(g, stack[|stack| - 1], stack[start])
    ensures IsCycle(g, stack[start..])
  {
  }

  lemma MoreCycles(g: Graph, finish: map<TaskId, nat>, cycles: set<seq<TaskId>>, cycles': set<seq<TaskId>>)
    requires cycles <= cycles'
    ensures FinishOrder(g, finish, cycles) ==> FinishOrder(g, finish, cycles')
    ensures forall u, v :: Closes(cycles, u, v) ==> Closes(cycles', u, v)
  {
  }

  /** Recording the cycle that ends a stack, and marking its members, keeps the record right. */
  lemma RecordCycle(g: Graph, finish: map<TaskId, nat>, stack: seq<TaskId>, start: nat, cycles: set<seq<TaskId>>, marked: set<TaskId>)
    requires start < |stack| && Path(g, stack) && Edge(g, stack[|stack| - 1], stack[start])
    requires AllCycles(g, cycles) && Covers(cycles, marked) && FinishOrder(g, finish, cycles)
    ensures var cycles' := cycles + {stack[start..]};
            && AllCycles(g, cycles') && Covers(cycles', marked + Elements(stack[start..])) && FinishOrder(g, finish, cycles')
            && Closes(cycles', stack[|stack| - 1], stack[start])
  {
    SuffixIsCycle(g, stack, start);
    MoreCycles(g, finish, cycles, cycles + {stack[start..]});
    assert stack[start..] in cycles + {stack[start..]};
  }

  /** Each of these dependencies of `u` has finished or closes a recorded cycle. */
  ghost predicate Explored(finished: set<TaskId>, cycles: set<seq<TaskId>>, u: TaskId, deps: seq<TaskId>) {
    forall v | v in deps :: v in finished || Closes(cycles, u, v)
  }

  lemma ExploredOne(finished: set<TaskId>, cycles: set<seq<TaskId>>, finished': set<TaskId>, cycles': set<seq<TaskId>>,
                    u: TaskId, deps: seq<TaskId>, i: nat)
    requires i < |deps| && Explored(finished, cycles, u, deps[..i]) && finished <= finished' && cycles <= cycles'
    requires deps[i] in finished' || Closes(cycles', u, deps[i])
    ensures Explored(finished', cycles', u, deps[..i + 1])
  {
    assert deps[..i + 1] == deps[..i] + [deps[i]];
  }

  lemma FinishOne(g: Graph, finish: map<TaskId, nat>, cycles: set<seq<TaskId>>, u: TaskId, t: nat)
    requires FinishOrder(g, finish, cycles) && u !in finish && forall x | x in finish :: finish[x] < t
    requires forall v | v in Deps(g, u) :: v in finish || Closes(cycles, u, v)
    ensures FinishOrder(g, finish[u := t], cycles)
  {
  }

  class CycleSearch {
    const tasks: seq<TaskEntry>
    const g: Graph
    var globalVisited: set<TaskId>
    var stack: seq<TaskId>
    var circularDeps: set<TaskId>
    ghost var cycles: set<seq<TaskId>>
    ghost var finish: map<TaskId, nat>
    ghost var clock: nat
    ghost var calls: nat

    ghost predicate Valid()
      reads this
    {
      && g == TaskMap(tasks)
      && Distinct(stack) && Path(g, stack)
      && Elements(stack) == globalVisited - finish.Keys && finish.Keys <= globalVisited
      && AllCycles(g, cycles) && Covers(cycles, circularDeps)
      && (forall u | u in finish :: finish[u] < clock)
      && FinishOrder(g, finish, cycles)
    }

    /** Calls made are paid for by the dependency entries of finished tasks, plus `extra`. */
    ghost predicate Paid(extra: nat)
      reads this
    {
      calls <= EntriesOf(tasks, finish.Keys) + extra
    }

    constructor (tasks: seq<TaskEntry>)
      ensures Valid() && this.tasks == tasks && stack == [] && Paid(0)
    {
      this.tasks := tasks;
      g := TaskMap(tasks);
      globalVisited, stack, circularDeps := {}, [], {};
      cycles, finish, clock, calls := {}, map[], 0, 0;
    }

    /** Pushes a newly visited task. */
    method Enter(taskId: TaskId)
      requires Valid() && taskId !in globalVisited && (stack != [] ==> Edge(g, stack[|stack| - 1], taskId))
      modifies this`globalVisited, this`stack
      ensures Valid() && stack == old(stack) + [taskId] && globalVisited == old(globalVisited) + {taskId}
    {
      ElementsPush(stack, taskId);
      globalVisited := globalVisited + {taskId};
      stack := stack + [taskId];
    }

    /** Pops the finished task. */
    method Leave(taskId: TaskId, ghost extra: nat)
      requires Valid() && stack != [] && stack[|stack| - 1] == taskId
      requires Paid(|Deps(g, taskId)| + extra)
      requires Explored(finish.Keys, cycles, taskId, Deps(g, taskId))
      modifies this`stack, this`finish, this`clock
      ensures Valid() && stack == old(stack)[..|old(stack)| - 1] && Paid(extra)
      ensures finish == old(finish)[taskId := old(clock)]
    {
      assert stack == stack[..|stack| - 1] + [taskId];
      ElementsPush(stack[..|stack| - 1], taskId);
      EntriesGrow(tasks, finish.Keys, taskId);
      FinishOne(g, finish, cycles, taskId, clock);
      stack := stack[..|stack| - 1];
      finish := finish[taskId := clock];
      clock := clock + 1;
      assert finish.Keys == old(finish).Keys + {taskId};
    }

    /** Marks every member of the cycle that `taskId`, found again on the stack, closes. */
    method MarkFrom(taskId: TaskId)
      requires Valid() && taskId in stack && Edge(g, stack[|stack| - 1], taskId)
      modifies this`circularDeps, this`cycles
      ensures Valid() && old(cycles) <= cycles && Closes(cycles, stack[|stack| - 1], taskId)
    {
      var cycleStart :| 0 <= cycleStart < |stack| && stack[cycleStart] == taskId;
      var cycle := stack[cycleStart..];
      RecordCycle(g, finish, stack, cycleStart, cycles, circularDeps);
      circularDeps := circularDeps + Elements(cycle);
      cycles := cycles + {cycle};
    }

    /** `detectCircularDeps`. */
    method Detect(taskId: TaskId, ghost extra: nat)
      requires Valid() && taskId in Nodes(g) && (stack != [] ==> Edge(g, stack[|stack| - 1], taskId))
      requires Paid(extra)
      modifies this
      ensures Valid() && stack == old(stack) && old(globalVisited) <= globalVisited && taskId in globalVisited
      ensures old(finish).Keys <= finish.Keys && old(cycles) <= cycles
      ensures taskId in finish || (stack != [] && Closes(cycles, stack[|stack| - 1], taskId))
      ensures Paid(extra + 1)
      decreases Nodes(g) - globalVisited, 1
    {
      calls := calls + 1;
      assert taskId in stack <==> taskId in Elements(stack);
      if taskId in stack {
        MarkFrom(taskId);
      } else if taskId !in globalVisited {
        Enter(taskId);
        Explore(taskId, extra + 1);
        Leave(taskId, extra + 1);
      }
    }

    /** The loop over the dependencies of the task just pushed. */
    method Explore(taskId: TaskId, ghost extra: nat)
      requires Valid() && stack != [] && stack[|stack| - 1] == taskId && Paid(extra)
      modifies this
      ensures Valid() && stack == old(stack) && old(globalVisited) <= globalVisited
      ensures old(finish).Keys <= finish.Keys && old(cycles) <= cycles
      ensures Explored(finish.Keys, cycles, taskId, Deps(g, taskId))
      ensures Paid(|Deps(g, taskId)| + extra)
      decreases Nodes(g) - globalVisited, 2
    {
      var deps := Deps(g, taskId);
      for i := 0 to |deps|
        invariant Valid() && stack == old(stack)
        invariant old(globalVisited) <= globalVisited
        invariant old(finish).Keys <= finish.Keys && old(cycles) <= cycles
        invariant Explored(finish.Keys, cycles, taskId, deps[..i])
        invariant Paid(i + extra)
      {
        ghost var finished, known := finish.Keys, cycles;
        DependencyIsNode(g, taskId, deps[i]);
        Detect(deps[i], i + extra);
        ExploredOne(finished, known, finish.Keys, cycles, taskId, deps, i);
      }
      assert deps[..|deps|] == deps;
    }
  }

  /** Following dependencies of a cycle moves down the finish order until one of them closes a recorded cycle. */
  lemma {:induction false} FindMarked(g: Graph, finish: map<TaskId, nat>, cycles: set<seq<TaskId>>, p: seq<TaskId>, k: nat)
    returns (x: TaskId, c: seq<TaskId>)
    requires FinishOrder(g, finish, cycles) && IsCycle(g, p) && k < |p| && p[k] in finish
    ensures x in p && x in c && c in cycles
    decreases finish[p[k]]
  {
    var next := if k + 1 < |p| then k + 1 else 0;
    assert Edge(g, p[k], p[next]);
    if p[next] in finish && finish[p[next]] < finish[p[k]] {
      x, c := FindMarked(g, finish, cycles, p, next);
    } else {
      c :| c in cycles && c != [] && c[|c| - 1] == p[k] && c[0] == p[next];
      x := p[k];
    }
  }

  /** When everything has finished, every cycle contains a marked task. */
  lemma EveryCycleIsHit(g: Graph, finish: map<TaskId, nat>, cycles: set<seq<TaskId>>, marked: set<TaskId>)
    requires FinishOrder(g, finish, cycles) && g.Keys <= finish.Keys && Covers(cycles, marked)
    ensures forall p | IsCycle(g, p) :: exists x :: x in p && x in marked
  {
    forall p | IsCycle(g, p)
      ensures exists x :: x in p && x in marked
    {
      assert p[|p| - 1] in g.Keys;
      var x, c := FindMarked(g, finish, cycles, p, |p| - 1);
    }
  }

  /** The driver loop: the marked tasks are a union of dependency cycles, and no dependency cycle avoids them. */
  method FindCircularDeps(tasks: seq<TaskEntry>) returns (circular: set<TaskId>, ghost calls: nat)
    ensures UnionOfCycles(TaskMap(tasks), circular)
    ensures forall p | IsCycle(TaskMap(tasks), p) :: exists x :: x in p && x in circular
    ensures calls <= |tasks| + EntryCount(tasks)
    ensures GraphOf(tasks, TaskMap(tasks))
  {
    TaskMapKeys(tasks);
    var search := new CycleSearch(tasks);
    for i := 0 to |tasks|
      invariant search.tasks == tasks && search.Valid() && search.stack == [] && search.Paid(i)
      invariant forall j | 0 <= j < i :: tasks[j].id in search.globalVisited
    {
      if tasks[i].id !in search.globalVisited {
        search.Detect(tasks[i].id, i);
      }
    }
    circular, calls := search.circularDeps, search.calls;
    EntriesAreCounted(tasks, search.finish.Keys);
    forall u | u in search.g
      ensures u in search.finish
    {
      var t :| t in tasks && t.id == u;
      assert u in search.globalVisited && u !in Elements([]);
    }
    EveryCycleIsHit(search.g, search.finish, search.cycles, circular);
    TaskMapIs(tasks);
  }

  /** Without the marked tasks the dependency graph has no cycle. */
  lemma RemovalIsAcyclic(g: Graph, marked: set<TaskId>, p: seq<TaskId>)
    requires forall q | IsCycle(g, q) :: exists x :: x in q && x in marked
    ensures !IsCycle(map u | u in g && u !in marked :: g[u], p)
  {
    var g' := map u | u in g && u !in marked :: g[u];
    if IsCycle(g', p) {
      forall i | 0 <= i < |p|
        ensures p[i] !in marked && Edge(g, p[i], p[if i + 1 < |p| then i + 1 else 0])
      {
        assert Edge(g', p[i], p[if i + 1 < |p| then i + 1 else 0]);
      }
      assert IsCycle(g, p);
    }
  }
}
