/** Throttling and the greedy planner that turns ready tasks into dispatch actions. */
module TaskDispatcher {
  import opened Wrappers

  // ----- Throttle -----

  datatype Denial = GlobalConcurrency | TeamConcurrency | GlobalInterval | TeamInterval | PollLimit

  datatype ThrottleParams = ThrottleParams(
    team: Option<string>,
    currentInProgress: nat,
    pendingDispatches: nat,
    maxDispatches: int,
    teamInProgress: Option<nat>,
    teamMaxConcurrent: Option<int>,
    minDispatchIntervalMs: Option<int>,
    teamMinIntervalMs: Option<int>,
    dispatchesThisPoll: nat,
    maxDispatchesPerPoll: int
  )

  /** When the last dispatches happened; 0 stands for never. */
  datatype ThrottleState = ThrottleState(lastDispatchAt: nat, lastDispatchByTeam: map<string, nat>)

  /** JavaScript truthiness of an optional string. */
  predicate Truthy(s: Option<string>) {
    s.Some? && s.value != ""
  }

  function Lookup(m: map<string, nat>, key: string): nat {
    if key in m then m[key] else 0
  }

  predicate TooSoon(last: nat, interval: Option<int>, now: nat) {
    interval.Some? && interval.value > 0 && last > 0 && (now as int) - last < interval.value
  }

  /** `checkThrottle`: the first rule that forbids a dispatch, if any. */
  function CheckThrottle(p: ThrottleParams, st: ThrottleState, now: nat): Option<Denial> {
    if p.currentInProgress + p.pendingDispatches >= p.maxDispatches then Some(GlobalConcurrency)
    else if Truthy(p.team) && p.teamInProgress.Some? && p.teamMaxConcurrent.Some?
            && p.teamInProgress.value >= p.teamMaxConcurrent.value then Some(TeamConcurrency)
    else if TooSoon(st.lastDispatchAt, p.minDispatchIntervalMs, now) then Some(GlobalInterval)
    else if Truthy(p.team) && TooSoon(Lookup(st.lastDispatchByTeam, p.team.value), p.teamMinIntervalMs, now) then Some(TeamInterval)
    else if p.dispatchesThisPoll >= p.maxDispatchesPerPoll then Some(PollLimit)
    else None
  }

  /** `updateThrottleState` and `resetThrottleState`. */
  class Throttle {
    var state: ThrottleState

    constructor ()
      ensures state == ThrottleState(0, map[])
    {
      state := ThrottleState(0, map[]);
    }

    method Update(team: Option<string>, now: nat)
      modifies this
      ensures state.lastDispatchAt == now
      ensures state.lastDispatchByTeam == if Truthy(team) then old(state).lastDispatchByTeam[team.value := now]
                                          else old(state).lastDispatchByTeam
    {
      state := state.(lastDispatchAt := now);
      if Truthy(team) {
        state := state.(lastDispatchByTeam := state.lastDispatchByTeam[team.value := now]);
      }
    }

    method Reset()
      modifies this
      ensures state == ThrottleState(0, map[])
    {
      state := ThrottleState(0, map[]);
    }
  }

  // ----- Planner -----

  datatype Task = Task(
    id: string,
    status: string,
    dependsOn: seq<string>,
    leaseActive: bool,
    resource: Option<string>,
    agent: Option<string>,
    role: Option<string>,
    team: Option<string>
  )

  datatype Team = Team(
    id: string,
    orchestrator: Option<string>,
    lead: Option<string>,
    throttled: bool,
    maxConcurrent: Option<int>,
    minIntervalMs: Option<int>
  )

  datatype Config = Config(
    maxConcurrentDispatches: Option<int>,
    minDispatchIntervalMs: Option<int>,
    maxDispatchesPerPoll: Option<int>,
    dryRun: bool
  )

  datatype Action = Assign(task: Task, agent: string) | Block(task: Task) | Alert(task: Task)

  /** Everything a poll reads and does not change. */
  datatype Poll = Poll(
    config: Config,
    teams: seq<Team>,
    allTasks: seq<Task>,
    currentInProgress: nat,
    inProgressTasks: seq<Task>,
    blockedBySubtasks: set<string>,
    circularDeps: set<string>,
    occupiedResources: set<string>,
    throttle: ThrottleState,
    now: nat
  )

  datatype Plan = Plan(actions: seq<Action>, pendingDispatches: nat, dispatchesThisPoll: nat, inProgressByTeam: map<string, nat>, stopped: bool)

  /** `teamConfigMap.get(id)`: the last team with that id and a dispatch section. */
  function TeamConfig(teams: seq<Team>, id: string): Option<Team> {
    if teams == [] then None
    else
      var t := teams[|teams| - 1];
      if t.throttled && t.id == id then Some(t) else TeamConfig(teams[..|teams| - 1], id)
  }

  function TeamMax(poll: Poll, team: string): Option<int> {
    var t := TeamConfig(poll.teams, team);
    if t.Some? then t.value.maxConcurrent else None
  }

  /** `a ?? b`. */
  function Coalesce(a: Option<string>, b: Option<string>): Option<string> {
    if a.Some? then a else b
  }

  /** `teams.find(t => t.id === id)`. */
  function FindTeam(teams: seq<Team>, id: string): Option<Team> {
    if teams == [] then None else if teams[0].id == id then Some(teams[0]) else FindTeam(teams[1..], id)
  }

  /** The agent a task is routed to; a team stands for its orchestrator or lead. */
  function TargetAgent(poll: Poll, task: Task): Option<string> {
    var target := Coalesce(Coalesce(task.agent, task.role), task.team);
    if !Truthy(target) then target
    else
      var matched := FindTeam(poll.teams, target.value);
      var resolved := if matched.Some? then Coalesce(matched.value.orchestrator, matched.value.lead) else None;
      if Truthy(resolved) then resolved else target
  }

  predicate DependenciesDone(poll: Poll, task: Task) {
    forall d | d in task.dependsOn :: exists t :: t in poll.allTasks && t.id == d && FirstWithId(poll.allTasks, d) == Some(t) && t.status == "done"
  }

  function FirstWithId(tasks: seq<Task>, id: string): Option<Task> {
    if tasks == [] then None else if tasks[0].id == id then Some(tasks[0]) else FirstWithId(tasks[1..], id)
  }

  /** The gates before the throttle: subtasks, circular dependencies, open dependencies, lease, resource. */
  predicate Gated(poll: Poll, task: Task) {
    && task.id !in poll.blockedBySubtasks
    && task.id !in poll.circularDeps
    && DependenciesDone(poll, task)
    && !task.leaseActive
    && !(Truthy(task.resource) && task.resource.value in poll.occupiedResources)
  }

  function ParamsFor(poll: Poll, task: Task, p: Plan): ThrottleParams {
    var team := if task.team.Some? && task.team.value != "" then TeamConfig(poll.teams, task.team.value) else None;
    var interval := poll.config.minDispatchIntervalMs.GetOr(0);
    ThrottleParams(
      task.team,
      poll.currentInProgress,
      p.pendingDispatches,
      poll.config.maxConcurrentDispatches.GetOr(3),
      if Truthy(task.team) then Some(Lookup(p.inProgressByTeam, task.team.value)) else None,
      if team.Some? then team.value.maxConcurrent else None,
      if interval > 0 then Some(interval) else None,
      if team.Some? then team.value.minIntervalMs else None,
      p.dispatchesThisPoll,
      poll.config.maxDispatchesPerPoll.GetOr(10)
    )
  }

  function Check(poll: Poll, task: Task, p: Plan): Option<Denial> {
    CheckThrottle(ParamsFor(poll, task, p), poll.throttle, poll.now)
  }

  /** Assigning `task`: the counters move, and in active mode its team slot is reserved. */
  function Reserve(poll: Poll, task: Task, agent: string, p: Plan): Plan {
    Plan(
      p.actions + [Assign(task, agent)],
      p.pendingDispatches + 1,
      p.dispatchesThisPoll + 1,
      if Truthy(task.team) && !poll.config.dryRun then p.inProgressByTeam[task.team.value := Lookup(p.inProgressByTeam, task.team.value) + 1]
      else p.inProgressByTeam,
      p.stopped
    )
  }

  function PlanOne(poll: Poll, task: Task, p: Plan): Plan {
    if task.id in poll.blockedBySubtasks then p
    else if task.id in poll.circularDeps then p.(actions := p.actions + [Block(task)])
    else if !Gated(poll, task) then p
    else
      var denial := Check(poll, task, p);
      if denial == Some(GlobalInterval) then p.(stopped := true)
      else if denial.Some? then p
      else
        var agent := TargetAgent(poll, task);
        if Truthy(agent) then Reserve(poll, task, agent.value, p)
        else p.(actions := p.actions + [Alert(task)])
  }

  /** The plan for a list of ready tasks; the global interval ends it early. */
  function PlanAll(poll: Poll, tasks: seq<Task>, p: Plan): Plan
    decreases |tasks|
  {
    if tasks == [] || p.stopped then p else PlanAll(poll, tasks[1..], PlanOne(poll, tasks[0], p))
  }

  /** Tasks in progress for a team, counted from a list. */
  function TeamCount(tasks: seq<Task>, team: string): nat {
    if tasks == [] then 0 else TeamCount(tasks[..|tasks| - 1], team) + if tasks[|tasks| - 1].team == Some(team) && team != "" then 1 else 0
  }

  /** Assign actions in a list. */
  function Assigns(actions: seq<Action>): nat {
    if actions == [] then 0 else Assigns(actions[..|actions| - 1]) + if actions[|actions| - 1].Assign? then 1 else 0
  }

  /** Assign actions in a list for tasks of one team. */
  function TeamAssigns(actions: seq<Action>, team: string): nat {
    if actions == [] then 0
    else
      var a := actions[|actions| - 1];
      TeamAssigns(actions[..|actions| - 1], team) + if a.Assign? && a.task.team == Some(team) && team != "" then 1 else 0
  }

  lemma Pushed(actions: seq<Action>, a: Action)
    ensures Assigns(actions + [a]) == Assigns(actions) + if a.Assign? then 1 else 0
    ensures forall team :: TeamAssigns(actions + [a], team)
                           == TeamAssigns(actions, team) + if a.Assign? && a.task.team == Some(team) && team != "" then 1 else 0
  {
    assert (actions + [a])[..|actions + [a]| - 1] == actions;
  }

  // The counts are numbers of positions in the lists.

  ghost function OfTeam(tasks: seq<Task>, team: string): set<int> {
    set i | 0 <= i < |tasks| && tasks[i].team == Some(team) && team != "" :: i
  }

  ghost function Assigning(actions: seq<Action>): set<int> {
    set i | 0 <= i < |actions| && actions[i].Assign? :: i
  }

  ghost function AssigningTeam(actions: seq<Action>, team: string): set<int> {
    set i | 0 <= i < |actions| && actions[i].Assign? && actions[i].task.team == Some(team) && team != "" :: i
  }

  lemma {:induction false} TeamCountIs(tasks: seq<Task>, team: string)
    ensures TeamCount(tasks, team) == |OfTeam(tasks, team)|
  {
    if tasks != [] {
      var n := |tasks| - 1;
      TeamCountIs(tasks[..n], team);
      assert OfTeam(tasks, team) == OfTeam(tasks[..n], team) + if tasks[n].team == Some(team) && team != "" then {n} else {};
    }
  }

  lemma {:induction false} AssignsAre(actions: seq<Action>)
    ensures Assigns(actions) == |Assigning(actions)|
  {
    if actions != [] {
      var n := |actions| - 1;
      AssignsAre(actions[..n]);
      assert Assigning(actions) == Assigning(actions[..n]) + if actions[n].Assign? then {n} else {};
    }
  }

  lemma {:induction false} TeamAssignsAre(actions: seq<Action>, team: string)
    ensures TeamAssigns(actions, team) == |AssigningTeam(actions, team)|
  {
    if actions != [] {
      var n := |actions| - 1;
      TeamAssignsAre(actions[..n], team);
      assert AssigningTeam(actions, team)
          == AssigningTeam(actions[..n], team)
             + if actions[n].Assign? && actions[n].task.team == Some(team) && team != "" then {n} else {};
    }
  }

  // ----- Safety -----

  function Max(a: int, b: int): int {
    if a < b then b else a
  }

  /** No limit has been passed, and the counters count the planned assignments. */
  ghost predicate Safe(poll: Poll, p: Plan) {
    && p.pendingDispatches == p.dispatchesThisPoll == Assigns(p.actions)
    && p.dispatchesThisPoll <= Max(0, poll.config.maxDispatchesPerPoll.GetOr(10))
    && poll.currentInProgress + p.pendingDispatches <= Max(poll.currentInProgress, poll.config.maxConcurrentDispatches.GetOr(3))
    && (!poll.config.dryRun ==> forall team :: TeamSafe(poll, p, team))
  }

  ghost predicate TeamSafe(poll: Poll, p: Plan, team: string) {
    && Lookup(p.inProgressByTeam, team) == TeamCount(poll.inProgressTasks, team) + TeamAssigns(p.actions, team)
    && (team != "" && TeamMax(poll, team).Some? ==>
          Lookup(p.inProgressByTeam, team) <= Max(TeamCount(poll.inProgressTasks, team), TeamMax(poll, team).value))
  }

  lemma ReserveIsSafe(poll: Poll, task: Task, agent: string, p: Plan)
    requires Safe(poll, p) && Check(poll, task, p).None?
    ensures Safe(poll, Reserve(poll, task, agent, p))
  {
    var q := Reserve(poll, task, agent, p);
    Pushed(p.actions, Assign(task, agent));
    if !poll.config.dryRun {
      forall team
        ensures TeamSafe(poll, q, team)
      {
        assert TeamSafe(poll, p, team);
      }
    }
  }

  lemma PlanOneIsSafe(poll: Poll, task: Task, p: Plan)
    requires Safe(poll, p)
    ensures Safe(poll, PlanOne(poll, task, p))
  {
    var q := PlanOne(poll, task, p);
    Pushed(p.actions, Block(task));
    Pushed(p.actions, Alert(task));
    if Gated(poll, task) && Check(poll, task, p).None? && Truthy(TargetAgent(poll, task)) {
      ReserveIsSafe(poll, task, TargetAgent(poll, task).value, p);
    } else if !poll.config.dryRun {
      forall team
        ensures TeamSafe(poll, q, team)
      {
        assert TeamSafe(poll, p, team);
      }
    }
  }

  /** Greedy dispatch is safe: per-poll, global and per-team limits hold at the end of every plan. */
  lemma {:induction false} PlanIsSafe(poll: Poll, tasks: seq<Task>, p: Plan)
    requires Safe(poll, p)
    ensures Safe(poll, PlanAll(poll, tasks, p))
    decreases |tasks|
  {
    if tasks != [] && !p.stopped {
      PlanOneIsSafe(poll, tasks[0], p);
      PlanIsSafe(poll, tasks[1..], PlanOne(poll, tasks[0], p));
    }
  }

  // ----- Maximality -----

  /** `q` extends `p`: counters only grow. */
  ghost predicate Grows(p: Plan, q: Plan) {
    && p.actions <= q.actions
    && p.pendingDispatches <= q.pendingDispatches
    && p.dispatchesThisPoll <= q.dispatchesThisPoll
    && (forall team :: Lookup(p.inProgressByTeam, team) <= Lookup(q.inProgressByTeam, team))
  }

  /** A denied task stays denied as the plan grows. */
  lemma DenialPersists(poll: Poll, task: Task, p: Plan, q: Plan)
    requires Grows(p, q) && Check(poll, task, p).Some?
    ensures Check(poll, task, q).Some?
  {
  }

  lemma PlanOneGrows(poll: Poll, task: Task, p: Plan)
    ensures Grows(p, PlanOne(poll, task, p))
  {
  }

  lemma {:induction false} PlanGrows(poll: Poll, tasks: seq<Task>, p: Plan)
    ensures Grows(p, PlanAll(poll, tasks, p))
    decreases |tasks|
  {
    if tasks != [] && !p.stopped {
      PlanOneGrows(poll, tasks[0], p);
      PlanGrows(poll, tasks[1..], PlanOne(poll, tasks[0], p));
    }
  }

  /** A plan that stopped stopped because of the global interval, which denies every task. */
  ghost predicate StoppedForAll(poll: Poll, p: Plan) {
    p.stopped ==> TooSoon(poll.throttle.lastDispatchAt, poll.config.minDispatchIntervalMs, poll.now)
  }

  /** The task got what its routing calls for: an assignment, or an alert when there is no agent. */
  predicate Served(poll: Poll, task: Task, actions: seq<Action>) {
    if Truthy(TargetAgent(poll, task)) then Assign(task, TargetAgent(poll, task).value) in actions else Alert(task) in actions
  }

  lemma PlanOneServes(poll: Poll, task: Task, p: Plan)
    requires Gated(poll, task) && Check(poll, task, p).None?
    ensures Served(poll, task, PlanOne(poll, task, p).actions)
  {
    var actions := PlanOne(poll, task, p).actions;
    assert actions[|actions| - 1] in actions;
  }

  /** Greedy dispatch is maximal: a gated task that was not served would be denied by the final plan, early stop included. */
  lemma {:induction false} PlanIsMaximal(poll: Poll, tasks: seq<Task>, p: Plan, task: Task)
    requires StoppedForAll(poll, p) && task in tasks && Gated(poll, task)
    ensures var q := PlanAll(poll, tasks, p);
            Served(poll, task, q.actions) || Check(poll, task, q).Some?
    decreases |tasks|
  {
    if !p.stopped {
      var p1 := PlanOne(poll, tasks[0], p);
      var q := PlanAll(poll, tasks[1..], p1);
      PlanGrows(poll, tasks[1..], p1);
      if task == tasks[0] {
        if Check(poll, task, p).Some? {
          PlanOneGrows(poll, task, p);
          DenialPersists(poll, task, p, p1);
          DenialPersists(poll, task, p1, q);
        } else {
          PlanOneServes(poll, task, p);
        }
      } else {
        PlanIsMaximal(poll, tasks[1..], p1, task);
      }
    }
  }

  // ----- What is planned, told from the tasks -----

  /** The i-th task is the first with the id. */
  ghost predicate FirstTask(tasks: seq<Task>, id: string, i: int) {
    0 <= i < |tasks| && tasks[i].id == id && forall j | 0 <= j < i :: tasks[j].id != id
  }

  /** The first task listed under the id is done. */
  ghost predicate Resolved(tasks: seq<Task>, id: string) {
    exists i :: FirstTask(tasks, id, i) && tasks[i].status == "done"
  }

  /** Not a parent of open subtasks, not on a dependency cycle, dependencies done, not leased, and its resource is free. */
  ghost predicate MayStart(poll: Poll, t: Task) {
    && t.id !in poll.blockedBySubtasks && t.id !in poll.circularDeps
    && (forall d | d in t.dependsOn :: Resolved(poll.allTasks, d))
    && !t.leaseActive
    && (t.resource.Some? && t.resource.value in poll.occupiedResources ==> t.resource.value == "")
  }

  /** What a task is routed to by name: its agent, without one its role, without either its team. */
  predicate Named(t: Task, target: string) {
    || t.agent == Some(target)
    || (t.agent == None && t.role == Some(target))
    || (t.agent == None && t.role == None && t.team == Some(target))
  }

  /** The i-th team is the first with the id. */
  ghost predicate FirstTeam(teams: seq<Team>, id: string, i: int) {
    0 <= i < |teams| && teams[i].id == id && forall j | 0 <= j < i :: teams[j].id != id
  }

  /** A team stands for its orchestrator, without one for its lead; if neither is named, for itself. */
  function Head(team: Team, target: string): string {
    match team.orchestrator
    case Some(o) => if o != "" then o else target
    case None => if team.lead.Some? && team.lead.value != "" then team.lead.value else target
  }

  ghost predicate RoutesVia(poll: Poll, t: Task, target: string, agent: string) {
    && Named(t, target) && target != ""
    && (forall i | FirstTeam(poll.teams, target, i) :: agent == Head(poll.teams[i], target))
    && ((forall i :: !FirstTeam(poll.teams, target, i)) ==> agent == target)
  }

  ghost predicate RoutesTo(poll: Poll, t: Task, agent: string) {
    exists target :: RoutesVia(poll, t, target, agent)
  }

  ghost predicate Unrouted(t: Task) {
    forall target | Named(t, target) :: target == ""
  }

  /** The i-th team is the last with the id and a dispatch section, which is the one that counts. */
  ghost predicate LastSection(teams: seq<Team>, id: string, i: int) {
    0 <= i < |teams| && teams[i].throttled && teams[i].id == id && forall j | i < j < |teams| :: !(teams[j].throttled && teams[j].id == id)
  }

  /** There is no interval, nothing was dispatched yet, or the interval is over. */
  predicate Elapsed(last: nat, interval: Option<int>, now: nat) {
    interval.None? || interval.value <= 0 || last == 0 || now >= last + interval.value
  }

  ghost predicate IntervalsElapsed(poll: Poll, t: Task) {
    && Elapsed(poll.throttle.lastDispatchAt, poll.config.minDispatchIntervalMs, poll.now)
    && forall i | t.team.Some? && t.team.value != "" && LastSection(poll.teams, t.team.value, i) ::
         Elapsed(if t.team.value in poll.throttle.lastDispatchByTeam then poll.throttle.lastDispatchByTeam[t.team.value] else 0,
                 poll.teams[i].minIntervalMs, poll.now)
  }

  /** With `planned` assignments planned, and `inTeam` tasks of its team running or reserved, another task fits the limits. */
  ghost predicate Fits(poll: Poll, t: Task, planned: nat, inTeam: nat) {
    && poll.currentInProgress + planned < poll.config.maxConcurrentDispatches.GetOr(3)
    && planned < poll.config.maxDispatchesPerPoll.GetOr(10)
    && (forall i | t.team.Some? && t.team.value != "" && LastSection(poll.teams, t.team.value, i) ::
          poll.teams[i].maxConcurrent.Some? ==> inTeam < poll.teams[i].maxConcurrent.value)
    && IntervalsElapsed(poll, t)
  }

  lemma FirstTaskInTail(tasks: seq<Task>, id: string, i: int)
    requires tasks != []
    ensures FirstTask(tasks, id, i) <==> if i == 0 then tasks[0].id == id else tasks[0].id != id && FirstTask(tasks[1..], id, i - 1)
  {
    assert forall j | 0 < j < |tasks| :: tasks[j] == tasks[1..][j - 1];
    assert forall j | 0 <= j < |tasks| - 1 :: tasks[1..][j] == tasks[j + 1];
  }

  lemma {:induction false} FirstWithIdIs(tasks: seq<Task>, id: string)
    ensures FirstWithId(tasks, id).Some? ==> exists i :: FirstTask(tasks, id, i)
    ensures forall i | FirstTask(tasks, id, i) :: FirstWithId(tasks, id) == Some(tasks[i])
  {
    if tasks != [] {
      FirstWithIdIs(tasks[1..], id);
      forall i
        ensures FirstTask(tasks, id, i) <==> if i == 0 then tasks[0].id == id else tasks[0].id != id && FirstTask(tasks[1..], id, i - 1)
      {
        FirstTaskInTail(tasks, id, i);
      }
      if FirstWithId(tasks, id).Some? {
        if tasks[0].id == id {
          assert FirstTask(tasks, id, 0);
        } else {
          var i :| FirstTask(tasks[1..], id, i);
          assert FirstTask(tasks, id, i + 1);
        }
      }
    }
  }

  lemma DependencyIs(tasks: seq<Task>, d: string)
    ensures (exists x :: x in tasks && x.id == d && FirstWithId(tasks, d) == Some(x) && x.status == "done") <==> Resolved(tasks, d)
  {
    FirstWithIdIs(tasks, d);
    if x :| x in tasks && x.id == d && FirstWithId(tasks, d) == Some(x) && x.status == "done" {
      var i :| FirstTask(tasks, d, i);
      assert FirstTask(tasks, d, i) && tasks[i].status == "done";
    }
    if Resolved(tasks, d) {
      var i :| FirstTask(tasks, d, i) && tasks[i].status == "done";
      assert tasks[i] in tasks;
    }
  }

  lemma GatesAre(poll: Poll, t: Task)
    ensures Gated(poll, t) <==> MayStart(poll, t)
  {
    forall d | d in t.dependsOn
      ensures (exists x :: x in poll.allTasks && x.id == d && FirstWithId(poll.allTasks, d) == Some(x) && x.status == "done")
              <==> Resolved(poll.allTasks, d)
    {
      DependencyIs(poll.allTasks, d);
    }
  }

  lemma FirstTeamInTail(teams: seq<Team>, id: string, i: int)
    requires teams != []
    ensures FirstTeam(teams, id, i) <==> if i == 0 then teams[0].id == id else teams[0].id != id && FirstTeam(teams[1..], id, i - 1)
  {
    assert forall j | 0 < j < |teams| :: teams[j] == teams[1..][j - 1];
    assert forall j | 0 <= j < |teams| - 1 :: teams[1..][j] == teams[j + 1];
  }

  lemma {:induction false} FindTeamIs(teams: seq<Team>, id: string)
    ensures FindTeam(teams, id).None? ==> forall i :: !FirstTeam(teams, id, i)
    ensures FindTeam(teams, id).Some? ==> exists i :: FirstTeam(teams, id, i)
    ensures forall i | FirstTeam(teams, id, i) :: FindTeam(teams, id) == Some(teams[i])
  {
    if teams != [] {
      FindTeamIs(teams[1..], id);
      forall i
        ensures FirstTeam(teams, id, i) <==> if i == 0 then teams[0].id == id else teams[0].id != id && FirstTeam(teams[1..], id, i - 1)
      {
        FirstTeamInTail(teams, id, i);
      }
      if FindTeam(teams, id).Some? {
        if teams[0].id == id {
          assert FirstTeam(teams, id, 0);
        } else {
          var i :| FirstTeam(teams[1..], id, i);
          assert FirstTeam(teams, id, i + 1);
        }
      }
    }
  }

  lemma ViaIs(poll: Poll, t: Task, target: string, agent: string)
    requires Coalesce(Coalesce(t.agent, t.role), t.team) == Some(target) && target != ""
    ensures RoutesVia(poll, t, target, agent) <==> TargetAgent(poll, t) == Some(agent)
    ensures Truthy(TargetAgent(poll, t))
  {
    FindTeamIs(poll.teams, target);
    if i :| FirstTeam(poll.teams, target, i) {
      assert FindTeam(poll.teams, target) == Some(poll.teams[i]);
    }
  }

  lemma RoutesAre(poll: Poll, t: Task, agent: string)
    ensures RoutesTo(poll, t, agent) <==> Truthy(TargetAgent(poll, t)) && TargetAgent(poll, t) == Some(agent)
    ensures Unrouted(t) <==> !Truthy(TargetAgent(poll, t))
  {
    var target := Coalesce(Coalesce(t.agent, t.role), t.team);
    assert forall x :: Named(t, x) <==> target == Some(x);
    if target.Some? && target.value != "" {
      ViaIs(poll, t, target.value, agent);
      assert Named(t, target.value);
    }
  }

  lemma LastSectionInFront(teams: seq<Team>, id: string, i: int)
    requires teams != []
    ensures var last := teams[|teams| - 1];
            LastSection(teams, id, i)
            <==> if last.throttled && last.id == id then i == |teams| - 1 else LastSection(teams[..|teams| - 1], id, i)
  {
    assert forall j | 0 <= j < |teams| - 1 :: teams[..|teams| - 1][j] == teams[j];
  }

  lemma {:induction false} TeamConfigIs(teams: seq<Team>, id: string)
    ensures TeamConfig(teams, id).Some? ==> exists i :: LastSection(teams, id, i)
    ensures forall i | LastSection(teams, id, i) :: TeamConfig(teams, id) == Some(teams[i])
  {
    if teams != [] {
      TeamConfigIs(teams[..|teams| - 1], id);
      forall i
        ensures var last := teams[|teams| - 1];
                LastSection(teams, id, i)
                <==> if last.throttled && last.id == id then i == |teams| - 1 else LastSection(teams[..|teams| - 1], id, i)
      {
        LastSectionInFront(teams, id, i);
      }
      if TeamConfig(teams, id).Some? {
        if teams[|teams| - 1].throttled && teams[|teams| - 1].id == id {
          assert LastSection(teams, id, |teams| - 1);
        } else {
          var i :| LastSection(teams[..|teams| - 1], id, i);
          assert LastSection(teams, id, i);
        }
      }
    }
  }

  /** The throttle lets a task pass exactly when it fits, for the counters of the plan. */
  lemma CheckIs(poll: Poll, t: Task, p: Plan)
    requires p.pendingDispatches == p.dispatchesThisPoll
    ensures Check(poll, t, p).None? <==> Fits(poll, t, p.pendingDispatches, if t.team.Some? then Lookup(p.inProgressByTeam, t.team.value) else 0)
    ensures Check(poll, t, p) == Some(GlobalInterval) ==> !Elapsed(poll.throttle.lastDispatchAt, poll.config.minDispatchIntervalMs, poll.now)
  {
    if Truthy(t.team) {
      TeamConfigIs(poll.teams, t.team.value);
    }
  }

  // ----- The loop -----

  /** Tasks in progress per team, as the planner counts them before its loop. */
  function TeamCounts(tasks: seq<Task>): map<string, nat> {
    if tasks == [] then map[]
    else
      var counts := TeamCounts(tasks[..|tasks| - 1]);
      var team := tasks[|tasks| - 1].team;
      if Truthy(team) then counts[team.value := Lookup(counts, team.value) + 1] else counts
  }

  lemma {:induction false} TeamCountsCount(tasks: seq<Task>)
    ensures forall team :: Lookup(TeamCounts(tasks), team) == TeamCount(tasks, team)
  {
    if tasks != [] {
      TeamCountsCount(tasks[..|tasks| - 1]);
    }
  }

  function InitialPlan(poll: Poll): Plan {
    Plan([], 0, 0, TeamCounts(poll.inProgressTasks), false)
  }

  lemma InitialPlanIsSafe(poll: Poll)
    ensures Safe(poll, InitialPlan(poll))
  {
    TeamCountsCount(poll.inProgressTasks);
    forall team
      ensures TeamSafe(poll, InitialPlan(poll), team)
    {
    }
  }

  /** Why an action is in the plan for the ready tasks. */
  ghost predicate Justified(poll: Poll, tasks: seq<Task>, a: Action) {
    && a.task in tasks
    && match a
       case Assign(t, agent) => MayStart(poll, t) && RoutesTo(poll, t, agent) && IntervalsElapsed(poll, t)
       case Alert(t) => MayStart(poll, t) && Unrouted(t) && IntervalsElapsed(poll, t)
       case Block(t) => t.id !in poll.blockedBySubtasks && t.id in poll.circularDeps
  }

  lemma PlanOneIsJustified(poll: Poll, t: Task, p: Plan)
    requires p.pendingDispatches == p.dispatchesThisPoll
    ensures var q := PlanOne(poll, t, p);
            && q.pendingDispatches == q.dispatchesThisPoll
            && (q.actions == p.actions || (exists a :: q.actions == p.actions + [a] && a.task == t && Justified(poll, [t], a)))
  {
    GatesAre(poll, t);
    CheckIs(poll, t, p);
    var agent := TargetAgent(poll, t);
    RoutesAre(poll, t, agent.GetOr(""));
    if t.id !in poll.blockedBySubtasks && t.id in poll.circularDeps {
      assert Justified(poll, [t], Block(t));
    } else if Gated(poll, t) && Check(poll, t, p).None? {
      assert Justified(poll, [t], if Truthy(agent) then Assign(t, agent.value) else Alert(t));
    }
  }

  /** Every action planned is justified. */
  lemma {:induction false} PlanIsJustified(poll: Poll, tasks: seq<Task>, p: Plan)
    requires p.pendingDispatches == p.dispatchesThisPoll
    ensures forall a | a in PlanAll(poll, tasks, p).actions :: a in p.actions || Justified(poll, tasks, a)
    decreases |tasks|
  {
    if tasks != [] && !p.stopped {
      PlanOneIsJustified(poll, tasks[0], p);
      PlanIsJustified(poll, tasks[1..], PlanOne(poll, tasks[0], p));
      assert forall t | t in tasks[1..] :: t in tasks;
    }
  }

  /** A task at which the planner gives up for this poll: it may start and is within its limits, but the global interval is not over. */
  ghost predicate StopsPlan(poll: Poll, t: Task) {
    && MayStart(poll, t) && !Elapsed(poll.throttle.lastDispatchAt, poll.config.minDispatchIntervalMs, poll.now)
    && poll.currentInProgress < poll.config.maxConcurrentDispatches.GetOr(3)
    && forall i | t.team.Some? && t.team.value != "" && LastSection(poll.teams, t.team.value, i) ::
         poll.teams[i].maxConcurrent.Some? ==> TeamCount(poll.inProgressTasks, t.team.value) < poll.teams[i].maxConcurrent.value
  }

  /** While the global interval runs, the counters stay where they were. */
  ghost predicate Untouched(poll: Poll, p: Plan) {
    !Elapsed(poll.throttle.lastDispatchAt, poll.config.minDispatchIntervalMs, poll.now) ==>
      p.pendingDispatches == 0 && p.inProgressByTeam == TeamCounts(poll.inProgressTasks)
  }

  lemma StopsIff(poll: Poll, t: Task, p: Plan)
    requires Untouched(poll, p) && !p.stopped && p.pendingDispatches == p.dispatchesThisPoll
    ensures Untouched(poll, PlanOne(poll, t, p)) && PlanOne(poll, t, p).pendingDispatches == PlanOne(poll, t, p).dispatchesThisPoll
    ensures PlanOne(poll, t, p).stopped <==> StopsPlan(poll, t)
  {
    GatesAre(poll, t);
    CheckIs(poll, t, p);
    TeamCountsCount(poll.inProgressTasks);
    if Truthy(t.team) {
      TeamConfigIs(poll.teams, t.team.value);
    }
  }

  /** A ready task on a dependency cycle that the planner reaches. */
  ghost predicate BlockedAt(poll: Poll, tasks: seq<Task>, t: Task, i: int) {
    && 0 <= i < |tasks| && tasks[i] == t && (forall j | 0 <= j < i :: !StopsPlan(poll, tasks[j]))
    && t.id !in poll.blockedBySubtasks && t.id in poll.circularDeps
  }

  lemma BlockedInTail(poll: Poll, tasks: seq<Task>, t: Task, i: int)
    requires tasks != []
    ensures BlockedAt(poll, tasks, t, i)
       <==> if i == 0 then tasks[0] == t && t.id !in poll.blockedBySubtasks && t.id in poll.circularDeps
            else !StopsPlan(poll, tasks[0]) && BlockedAt(poll, tasks[1..], t, i - 1)
  {
    assert forall j | 0 < j < |tasks| :: tasks[j] == tasks[1..][j - 1];
    assert forall j | 0 <= j < |tasks| - 1 :: tasks[1..][j] == tasks[j + 1];
  }

  /** Exactly the ready tasks on dependency cycles that the planner reaches are blocked. */
  lemma {:induction false} PlanBlocks(poll: Poll, tasks: seq<Task>, p: Plan, t: Task)
    requires Untouched(poll, p) && !p.stopped && p.pendingDispatches == p.dispatchesThisPoll
    ensures Block(t) in PlanAll(poll, tasks, p).actions <==> Block(t) in p.actions || exists i :: BlockedAt(poll, tasks, t, i)
    decreases |tasks|
  {
    if tasks != [] {
      var p1 := PlanOne(poll, tasks[0], p);
      StopsIff(poll, tasks[0], p);
      forall i
        ensures BlockedAt(poll, tasks, t, i)
           <==> if i == 0 then tasks[0] == t && t.id !in poll.blockedBySubtasks && t.id in poll.circularDeps
                else !StopsPlan(poll, tasks[0]) && BlockedAt(poll, tasks[1..], t, i - 1)
      {
        BlockedInTail(poll, tasks, t, i);
      }
      assert Block(t) in p1.actions <==> Block(t) in p.actions || BlockedAt(poll, tasks, t, 0);
      if !p1.stopped {
        PlanBlocks(poll, tasks[1..], p1, t);
        if i :| BlockedAt(poll, tasks[1..], t, i) {
          assert BlockedAt(poll, tasks, t, i + 1);
        }
      }
    }
  }

  /** Parents with open subtasks that are neither blocked nor done. */
  function ParentBlocks(poll: Poll, tasks: seq<Task>): seq<Action> {
    if tasks == [] then []
    else
      var t := tasks[|tasks| - 1];
      ParentBlocks(poll, tasks[..|tasks| - 1])
      + if t.id in poll.blockedBySubtasks && t.status != "blocked" && t.status != "done" then [Block(t)] else []
  }

  method CountByTeam(tasks: seq<Task>) returns (counts: map<string, nat>)
    ensures counts == TeamCounts(tasks)
  {
    counts := map[];
    for i := 0 to |tasks|
      invariant counts == TeamCounts(tasks[..i])
    {
      assert tasks[..i + 1][..i] == tasks[..i];
      var team := tasks[i].team;
      if Truthy(team) {
        counts := counts[team.value := Lookup(counts, team.value) + 1];
      }
    }
    assert tasks[..|tasks|] == tasks;
  }

  /** A parent with open subtasks that is neither blocked nor done. */
  predicate OpenParent(poll: Poll, t: Task) {
    t in poll.allTasks && t.id in poll.blockedBySubtasks && t.status != "blocked" && t.status != "done"
  }

  lemma {:induction false} ParentBlocksAre(poll: Poll, tasks: seq<Task>)
    ensures forall a :: a in ParentBlocks(poll, tasks)
                        <==> a.Block? && a.task in tasks && a.task.id in poll.blockedBySubtasks
                             && a.task.status != "blocked" && a.task.status != "done"
  {
    if tasks != [] {
      var before, last := tasks[..|tasks| - 1], tasks[|tasks| - 1];
      ParentBlocksAre(poll, before);
      assert forall t :: t in tasks <==> t in before || t == last;
    }
  }

  /** Blocks add no assignment. */
  lemma {:induction false} BlocksCountNothing(actions: seq<Action>, blocks: seq<Action>)
    requires forall a | a in blocks :: a.Block?
    ensures Assigns(actions + blocks) == Assigns(actions)
    ensures forall team :: TeamAssigns(actions + blocks, team) == TeamAssigns(actions, team)
    decreases |blocks|
  {
    if blocks == [] {
      assert actions + blocks == actions;
    } else {
      var before, last := blocks[..|blocks| - 1], blocks[|blocks| - 1];
      BlocksCountNothing(actions, before);
      assert last in blocks && actions + blocks == actions + before + [last];
      Pushed(actions + before, last);
    }
  }

  /** The running tasks of a task's team, and in active mode the planned ones. */
  function TeamLoad(poll: Poll, t: Task, actions: seq<Action>): nat {
    if t.team.None? then 0
    else TeamCount(poll.inProgressTasks, t.team.value) + if poll.config.dryRun then 0 else TeamAssigns(actions, t.team.value)
  }

  /**
   * What the actions say about the tasks: who is assigned and to whom, which tasks raise an alert, which are blocked, and
   * that no ready task that may start was passed over while it fitted.
   */
  ghost predicate WellPlanned(poll: Poll, readyTasks: seq<Task>, actions: seq<Action>) {
    && (forall t, agent | Assign(t, agent) in actions ::
          t in readyTasks && MayStart(poll, t) && RoutesTo(poll, t, agent) && IntervalsElapsed(poll, t))
    && (forall t | Alert(t) in actions :: t in readyTasks && MayStart(poll, t) && Unrouted(t) && IntervalsElapsed(poll, t))
    && (forall t :: Block(t) in actions <==> OpenParent(poll, t) || exists i :: BlockedAt(poll, readyTasks, t, i))
    && (forall t | t in readyTasks && MayStart(poll, t) && Fits(poll, t, Assigns(actions), TeamLoad(poll, t, actions)) ::
          && (Unrouted(t) ==> Alert(t) in actions)
          && (forall agent | RoutesTo(poll, t, agent) :: Assign(t, agent) in actions))
  }

  lemma FinalLoad(poll: Poll, readyTasks: seq<Task>, t: Task)
    ensures var q := PlanAll(poll, readyTasks, InitialPlan(poll));
            && q.pendingDispatches == q.dispatchesThisPoll == Assigns(q.actions)
            && (t.team.Some? ==> Lookup(q.inProgressByTeam, t.team.value) == TeamLoad(poll, t, q.actions))
  {
    var q := PlanAll(poll, readyTasks, InitialPlan(poll));
    InitialPlanIsSafe(poll);
    PlanIsSafe(poll, readyTasks, InitialPlan(poll));
    if t.team.Some? {
      if poll.config.dryRun {
        DryRunReservesNothing(poll, readyTasks, InitialPlan(poll));
        TeamCountsCount(poll.inProgressTasks);
      } else {
        assert TeamSafe(poll, q, t.team.value);
      }
    }
  }

  lemma PlanServes(poll: Poll, readyTasks: seq<Task>, t: Task)
    requires t in readyTasks && MayStart(poll, t)
    ensures var actions := PlanAll(poll, readyTasks, InitialPlan(poll)).actions;
            Fits(poll, t, Assigns(actions), TeamLoad(poll, t, actions)) ==>
              && (Unrouted(t) ==> Alert(t) in actions)
              && (forall agent | RoutesTo(poll, t, agent) :: Assign(t, agent) in actions)
  {
    var q := PlanAll(poll, readyTasks, InitialPlan(poll));
    GatesAre(poll, t);
    PlanIsMaximal(poll, readyTasks, InitialPlan(poll), t);
    FinalLoad(poll, readyTasks, t);
    CheckIs(poll, t, q);
    forall agent
      ensures RoutesTo(poll, t, agent) <==> Truthy(TargetAgent(poll, t)) && TargetAgent(poll, t) == Some(agent)
      ensures Unrouted(t) <==> !Truthy(TargetAgent(poll, t))
    {
      RoutesAre(poll, t, agent);
    }
  }

  /** The plan and the blocks for open parents are well planned. */
  lemma {:induction false} PlanIsWellPlanned(poll: Poll, readyTasks: seq<Task>)
    ensures WellPlanned(poll, readyTasks, PlanAll(poll, readyTasks, InitialPlan(poll)).actions + ParentBlocks(poll, poll.allTasks))
  {
    var planned := PlanAll(poll, readyTasks, InitialPlan(poll)).actions;
    var blocks := ParentBlocks(poll, poll.allTasks);
    ParentBlocksAre(poll, poll.allTasks);
    BlocksCountNothing(planned, blocks);
    PlanIsJustified(poll, readyTasks, InitialPlan(poll));
    forall t, agent | Assign(t, agent) in planned + blocks
      ensures t in readyTasks && MayStart(poll, t) && RoutesTo(poll, t, agent) && IntervalsElapsed(poll, t)
    {
      assert Justified(poll, readyTasks, Assign(t, agent));
    }
    forall t | Alert(t) in planned + blocks
      ensures t in readyTasks && MayStart(poll, t) && Unrouted(t) && IntervalsElapsed(poll, t)
    {
      assert Justified(poll, readyTasks, Alert(t));
    }
    forall t
      ensures Block(t) in planned + blocks <==> OpenParent(poll, t) || exists i :: BlockedAt(poll, readyTasks, t, i)
    {
      PlanBlocks(poll, readyTasks, InitialPlan(poll), t);
    }
    forall t | t in readyTasks && MayStart(poll, t) && Fits(poll, t, Assigns(planned + blocks), TeamLoad(poll, t, planned + blocks))
      ensures Unrouted(t) ==> Alert(t) in planned + blocks
      ensures forall agent | RoutesTo(poll, t, agent) :: Assign(t, agent) in planned + blocks
    {
      PlanServes(poll, readyTasks, t);
    }
  }

  // ----- The order of the actions -----

  /** The k-th action is about the task at position `at[k]`, and these positions increase. */
  ghost predicate Marks(actions: seq<Action>, tasks: seq<Task>, at: seq<int>) {
    && |at| == |actions|
    && (forall k | 0 <= k < |at| :: 0 <= at[k] < |tasks| && actions[k].task == tasks[at[k]])
    && forall j, k | 0 <= j < k < |at| :: at[j] < at[k]
  }

  /** At most one action for each task, in the order of the tasks. */
  ghost predicate Follows(actions: seq<Action>, tasks: seq<Task>) {
    exists at :: Marks(actions, tasks, at)
  }

  function Shifted(at: seq<int>): seq<int> {
    seq(|at|, k requires 0 <= k < |at| => at[k] + 1)
  }

  lemma MarksShift(more: seq<Action>, tasks: seq<Task>, at: seq<int>)
    requires tasks != [] && Marks(more, tasks[1..], at)
    ensures Marks(more, tasks, Shifted(at)) && forall k | 0 <= k < |at| :: Shifted(at)[k] > 0
  {
    forall k | 0 <= k < |at|
      ensures 0 < Shifted(at)[k] < |tasks| && more[k].task == tasks[Shifted(at)[k]]
    {
      assert tasks[1..][at[k]] == tasks[at[k] + 1];
    }
  }

  lemma MarksPush(first: Action, more: seq<Action>, tasks: seq<Task>, at: seq<int>)
    requires tasks != [] && Marks(more, tasks, at) && (forall k | 0 <= k < |at| :: at[k] > 0) && first.task == tasks[0]
    ensures Marks([first] + more, tasks, [0] + at)
  {
    var at', actions := [0] + at, [first] + more;
    assert forall k | 0 < k < |at'| :: at'[k] == at[k - 1] && actions[k] == more[k - 1];
  }

  lemma {:induction false} PlanFollows(poll: Poll, tasks: seq<Task>, p: Plan) returns (more: seq<Action>, at: seq<int>)
    ensures PlanAll(poll, tasks, p).actions == p.actions + more && Marks(more, tasks, at)
    decreases |tasks|
  {
    if tasks == [] || p.stopped {
      more, at := [], [];
    } else {
      var q := PlanOne(poll, tasks[0], p);
      var first := q.actions[|p.actions|..];
      assert q.actions == p.actions + first && (first == [] || (|first| == 1 && first[0].task == tasks[0]));
      var rest, marks := PlanFollows(poll, tasks[1..], q);
      MarksShift(rest, tasks, marks);
      if first == [] {
        more, at := rest, Shifted(marks);
      } else {
        MarksPush(first[0], rest, tasks, Shifted(marks));
        more, at := [first[0]] + rest, [0] + Shifted(marks);
      }
      assert p.actions + first + rest == p.actions + more;
    }
  }

  lemma {:induction false} BlocksFollow(poll: Poll, tasks: seq<Task>) returns (at: seq<int>)
    ensures Marks(ParentBlocks(poll, tasks), tasks, at)
  {
    if tasks == [] {
      at := [];
    } else {
      var n := |tasks| - 1;
      var marks := BlocksFollow(poll, tasks[..n]);
      var before := ParentBlocks(poll, tasks[..n]);
      assert forall k | 0 <= k < |marks| :: tasks[..n][marks[k]] == tasks[marks[k]];
      at := if ParentBlocks(poll, tasks) == before then marks else marks + [n];
    }
  }

  /** The actions for the ready tasks come first, in their order, then the blocks of open parents in theirs. */
  ghost predicate PlannedInOrder(poll: Poll, readyTasks: seq<Task>, actions: seq<Action>) {
    exists n | 0 <= n <= |actions| :: Follows(actions[..n], readyTasks) && Follows(actions[n..], poll.allTasks)
  }

  lemma PlanIsInOrder(poll: Poll, readyTasks: seq<Task>)
    ensures PlannedInOrder(poll, readyTasks, PlanAll(poll, readyTasks, InitialPlan(poll)).actions + ParentBlocks(poll, poll.allTasks))
  {
    var planned, blocks := PlanAll(poll, readyTasks, InitialPlan(poll)).actions, ParentBlocks(poll, poll.allTasks);
    var more, at := PlanFollows(poll, readyTasks, InitialPlan(poll));
    var at' := BlocksFollow(poll, poll.allTasks);
    assert planned == more && (planned + blocks)[..|planned|] == planned && (planned + blocks)[|planned|..] == blocks;
    assert Follows(planned, readyTasks) && Follows(blocks, poll.allTasks);
  }

  /** `buildDispatchActions`: the plan for the ready tasks, then a block for every parent with open subtasks. */
  method BuildDispatchActions(poll: Poll, readyTasks: seq<Task>) returns (actions: seq<Action>)
    ensures actions == PlanAll(poll, readyTasks, InitialPlan(poll)).actions + ParentBlocks(poll, poll.allTasks)
    ensures WellPlanned(poll, readyTasks, actions)
    ensures PlannedInOrder(poll, readyTasks, actions)
  {
    actions := [];
    var pendingDispatches: nat, dispatchesThisPoll: nat := 0, 0;
    var inProgressByTeam: map<string, nat> := CountByTeam(poll.inProgressTasks);
    for i := 0 to |readyTasks|
      invariant PlanAll(poll, readyTasks[i..], Plan(actions, pendingDispatches, dispatchesThisPoll, inProgressByTeam, false))
                == PlanAll(poll, readyTasks, InitialPlan(poll))
    {
      var task := readyTasks[i];
      var p := Plan(actions, pendingDispatches, dispatchesThisPoll, inProgressByTeam, false);
      assert readyTasks[i..][1..] == readyTasks[i + 1..];
      if task.id in poll.blockedBySubtasks {
        continue;
      }
      if task.id in poll.circularDeps {
        actions := actions + [Block(task)];
        continue;
      }
      if !DependenciesDone(poll, task) {
        continue;
      }
      if task.leaseActive {
        continue;
      }
      if Truthy(task.resource) && task.resource.value in poll.occupiedResources {
        continue;
      }
      var denial := CheckThrottle(ParamsFor(poll, task, p), poll.throttle, poll.now);
      if denial.Some? {
        if denial.value == GlobalInterval {
          break;
        }
        continue;
      }
      var agent := TargetAgent(poll, task);
      if Truthy(agent) {
        actions := actions + [Assign(task, agent.value)];
        pendingDispatches := pendingDispatches + 1;
        dispatchesThisPoll := dispatchesThisPoll + 1;
        if Truthy(task.team) && !poll.config.dryRun {
          inProgressByTeam := inProgressByTeam[task.team.value := Lookup(inProgressByTeam, task.team.value) + 1];
        }
      } else {
        actions := actions + [Alert(task)];
      }
    }
    assert actions == PlanAll(poll, readyTasks, InitialPlan(poll)).actions;
    ghost var planned := actions;
    for i := 0 to |poll.allTasks|
      invariant actions == planned + ParentBlocks(poll, poll.allTasks[..i])
    {
      var task := poll.allTasks[i];
      assert poll.allTasks[..i + 1][..i] == poll.allTasks[..i];
      if task.id in poll.blockedBySubtasks && task.status != "blocked" && task.status != "done" {
        actions := actions + [Block(task)];
      }
    }
    assert poll.allTasks[..|poll.allTasks|] == poll.allTasks;
    PlanIsWellPlanned(poll, readyTasks);
    PlanIsInOrder(poll, readyTasks);
  }

  /** The planned actions respect every limit, and no gated, routable ready task was passed over while it fitted. */
  lemma GreedyDispatch(poll: Poll, readyTasks: seq<Task>)
    ensures var plan := PlanAll(poll, readyTasks, InitialPlan(poll));
            && Assigns(plan.actions) <= Max(0, poll.config.maxDispatchesPerPoll.GetOr(10))
            && poll.currentInProgress + Assigns(plan.actions)
               <= Max(poll.currentInProgress, poll.config.maxConcurrentDispatches.GetOr(3))
            && (forall team | !poll.config.dryRun && team != "" && TeamMax(poll, team).Some? ::
                  TeamCount(poll.inProgressTasks, team) + TeamAssigns(plan.actions, team)
                  <= Max(TeamCount(poll.inProgressTasks, team), TeamMax(poll, team).value))
            && (forall t | t in readyTasks && Gated(poll, t) :: Served(poll, t, plan.actions) || Check(poll, t, plan).Some?)
  {
    var plan := PlanAll(poll, readyTasks, InitialPlan(poll));
    InitialPlanIsSafe(poll);
    PlanIsSafe(poll, readyTasks, InitialPlan(poll));
    forall team | !poll.config.dryRun && team != "" && TeamMax(poll, team).Some?
      ensures TeamCount(poll.inProgressTasks, team) + TeamAssigns(plan.actions, team)
              <= Max(TeamCount(poll.inProgressTasks, team), TeamMax(poll, team).value)
    {
      assert TeamSafe(poll, plan, team);
    }
    forall t | t in readyTasks && Gated(poll, t)
      ensures Served(poll, t, plan.actions) || Check(poll, t, plan).Some?
    {
      PlanIsMaximal(poll, readyTasks, InitialPlan(poll), t);
    }
  }

  // ----- Dry run -----

  predicate FullAtStart(poll: Poll, team: string) {
    TeamMax(poll, team).Some? && TeamCount(poll.inProgressTasks, team) >= TeamMax(poll, team).value
  }

  /** In dry-run mode no team slot is reserved. */
  lemma {:induction false} DryRunReservesNothing(poll: Poll, tasks: seq<Task>, p: Plan)
    requires poll.config.dryRun
    ensures PlanAll(poll, tasks, p).inProgressByTeam == p.inProgressByTeam
    decreases |tasks|
  {
    if tasks != [] && !p.stopped {
      DryRunReservesNothing(poll, tasks[1..], PlanOne(poll, tasks[0], p));
    }
  }

  /** In dry-run mode, wherever the plan has got to: a task is denied for its team exactly when the team was full as the poll began. */
  lemma {:induction false} DryRunTeamDenialIff(poll: Poll, planned: seq<Task>, task: Task)
    requires poll.config.dryRun && Truthy(task.team)
    ensures var p := PlanAll(poll, planned, InitialPlan(poll));
            var globalRoom := poll.currentInProgress + p.pendingDispatches < poll.config.maxConcurrentDispatches.GetOr(3);
            Check(poll, task, p) == Some(TeamConcurrency) <==> globalRoom && FullAtStart(poll, task.team.value)
  {
    DryRunReservesNothing(poll, planned, InitialPlan(poll));
    TeamCountsCount(poll.inProgressTasks);
  }

  function Min(a: int, b: int): int {
    if a < b then a else b
  }

  /** The assignments the global and the per-poll limit still allow. */
  function Room(poll: Poll, p: Plan): nat {
    Max(0, Min(poll.config.maxConcurrentDispatches.GetOr(3) - poll.currentInProgress - p.pendingDispatches,
               poll.config.maxDispatchesPerPoll.GetOr(10) - p.dispatchesThisPoll))
  }

  predicate IntervalsPassed(poll: Poll, team: string) {
    && !TooSoon(poll.throttle.lastDispatchAt, poll.config.minDispatchIntervalMs, poll.now)
    && var t := TeamConfig(poll.teams, team);
       t.Some? ==> !TooSoon(Lookup(poll.throttle.lastDispatchByTeam, team), t.value.minIntervalMs, poll.now)
  }

  /** Tasks of one team that pass the gates and have an agent. */
  predicate Waiting(poll: Poll, tasks: seq<Task>, team: string) {
    forall t | t in tasks :: t.team == Some(team) && Gated(poll, t) && Truthy(TargetAgent(poll, t))
  }

  lemma WaitingCheck(poll: Poll, task: Task, p: Plan, team: string)
    requires team != "" && task.team == Some(team) && IntervalsPassed(poll, team)
    requires TeamMax(poll, team).Some? ==> Lookup(p.inProgressByTeam, team) < TeamMax(poll, team).value
    ensures Check(poll, task, p).None? <==> Room(poll, p) > 0
    ensures Check(poll, task, p) != Some(GlobalInterval)
  {
  }

  /** A dry-run plan for waiting tasks of one team fills all the room there is, whatever the team's limit. */
  lemma {:induction false} DryRunFillsRoom(poll: Poll, tasks: seq<Task>, p: Plan, team: string)
    requires poll.config.dryRun && team != "" && Waiting(poll, tasks, team) && IntervalsPassed(poll, team) && !p.stopped
    requires TeamMax(poll, team).Some? ==> Lookup(p.inProgressByTeam, team) < TeamMax(poll, team).value
    ensures TeamAssigns(PlanAll(poll, tasks, p).actions, team) == TeamAssigns(p.actions, team) + Min(|tasks|, Room(poll, p))
    decreases |tasks|
  {
    if tasks != [] {
      var q := PlanOne(poll, tasks[0], p);
      WaitingCheck(poll, tasks[0], p, team);
      if Room(poll, p) > 0 {
        Pushed(p.actions, Assign(tasks[0], TargetAgent(poll, tasks[0]).value));
      }
      DryRunFillsRoom(poll, tasks[1..], q, team);
    }
  }

  /**
   * For waiting tasks of one team that is not full: a dry-run plan passes the team's limit exactly when the tasks and the
   * room under the global and per-poll limits both exceed the team's free slots.
   */
  lemma {:induction false} DryRunOverbooksTeamIff(poll: Poll, tasks: seq<Task>, team: string)
    requires poll.config.dryRun && team != "" && Waiting(poll, tasks, team) && IntervalsPassed(poll, team)
    requires TeamMax(poll, team).Some? && !FullAtStart(poll, team)
    ensures var taken := TeamCount(poll.inProgressTasks, team);
            var limit := TeamMax(poll, team).value;
            taken + TeamAssigns(PlanAll(poll, tasks, InitialPlan(poll)).actions, team) > limit
            <==> |tasks| > limit - taken && Room(poll, InitialPlan(poll)) > limit - taken
  {
    TeamCountsCount(poll.inProgressTasks);
    DryRunFillsRoom(poll, tasks, InitialPlan(poll), team);
  }
}
