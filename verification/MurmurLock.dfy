/** The murmur state manager: per-team locks around load-modify-save, with callers interleaved at every await. */
module MurmurLock {
  import opened Wrappers

  type TeamId = string
  type CallerId = nat

  datatype MurmurState = MurmurState(
    lastReviewAt: Option<nat>,
    completions: nat,
    failures: nat,
    currentReviewTaskId: Option<string>,
    reviewStartedAt: Option<nat>,
    lastTriggeredBy: Option<string>
  )

  const DEFAULT_STATE := MurmurState(None, 0, 0, None, None, None)

  datatype Op = IncrementCompletions | IncrementFailures | StartReview(taskId: string, triggeredBy: string, now: nat) | EndReview

  /** What each operation does to the loaded state before saving it. */
  function ApplyOp(op: Op, s: MurmurState): MurmurState {
    match op
    case IncrementCompletions => s.(completions := s.completions + 1)
    case IncrementFailures => s.(failures := s.failures + 1)
    case StartReview(task, trigger, now) =>
      MurmurState(Some(now), 0, 0, Some(task), Some(now), Some(trigger))
    case EndReview => s.(currentReviewTaskId := None, reviewStartedAt := None)
  }

  /** Where a caller is between two awaits. */
  datatype Phase = Waiting | Locked | Loaded(state: MurmurState) | Saved | SaveFailed | Finished | Threw

  datatype Caller = Caller(team: TeamId, op: Op, phase: Phase)

  /** `saved` lists the callers whose save has succeeded, in order. */
  datatype System = System(
    locks: map<TeamId, CallerId>,
    files: map<TeamId, MurmurState>,
    callers: map<CallerId, Caller>,
    saved: seq<CallerId>
  )

  const INITIAL := System(map[], map[], map[], [])

  /** `load`: a missing file reads as the default state. */
  function Stored(sys: System, team: TeamId): MurmurState {
    if team in sys.files then sys.files[team] else DEFAULT_STATE
  }

  datatype Step =
    | Call(c: CallerId, team: TeamId, op: Op)
    | Acquire(c: CallerId)
    | Load(c: CallerId)
    | Save(c: CallerId)
    | FailSave(c: CallerId)
    | Release(c: CallerId)

  predicate In(sys: System, c: CallerId, p: Phase) {
    c in sys.callers && sys.callers[c].phase == p
  }

  predicate Enabled(sys: System, step: Step) {
    match step
    case Call(c, _, _) => c !in sys.callers
    case Acquire(c) => In(sys, c, Waiting) && sys.callers[c].team !in sys.locks
    case Load(c) => In(sys, c, Locked)
    case Save(c) => c in sys.callers && sys.callers[c].phase.Loaded?
    case FailSave(c) => c in sys.callers && sys.callers[c].phase.Loaded?
    case Release(c) => In(sys, c, Saved) || In(sys, c, SaveFailed)
  }

  function Move(sys: System, c: CallerId, p: Phase): map<CallerId, Caller>
    requires c in sys.callers
  {
    sys.callers[c := sys.callers[c].(phase := p)]
  }

  function Next(sys: System, step: Step): System
    requires Enabled(sys, step)
  {
    match step
    case Call(c, team, op) => sys.(callers := sys.callers[c := Caller(team, op, Waiting)])
    case Acquire(c) => sys.(callers := Move(sys, c, Locked), locks := sys.locks[sys.callers[c].team := c])
    case Load(c) => sys.(callers := Move(sys, c, Loaded(Stored(sys, sys.callers[c].team))))
    case Save(c) =>
      var me := sys.callers[c];
      sys.(callers := Move(sys, c, Saved), files := sys.files[me.team := ApplyOp(me.op, me.phase.state)], saved := sys.saved + [c])
    case FailSave(c) => sys.(callers := Move(sys, c, SaveFailed))
    case Release(c) =>
      sys.(callers := Move(sys, c, if In(sys, c, Saved) then Finished else Threw), locks := sys.locks - {sys.callers[c].team})
  }

  predicate Legal(sys: System, steps: seq<Step>)
    decreases |steps|
  {
    steps == [] || (Enabled(sys, steps[0]) && Legal(Next(sys, steps[0]), steps[1..]))
  }

  function Run(sys: System, steps: seq<Step>): System
    requires Legal(sys, steps)
    decreases |steps|
  {
    if steps == [] then sys else Run(Next(sys, steps[0]), steps[1..])
  }

  // ----- The invariant -----

  predicate Critical(p: Phase) {
    p.Locked? || p.Loaded? || p.Saved? || p.SaveFailed?
  }

  /** The operations of a team's callers among `saved`, in order. */
  function Committed(sys: System, saved: seq<CallerId>, team: TeamId): seq<Op> {
    if saved == [] then []
    else
      var c := saved[|saved| - 1];
      Committed(sys, saved[..|saved| - 1], team)
      + if c in sys.callers && sys.callers[c].team == team then [sys.callers[c].op] else []
  }

  function Fold(ops: seq<Op>): MurmurState {
    if ops == [] then DEFAULT_STATE else ApplyOp(ops[|ops| - 1], Fold(ops[..|ops| - 1]))
  }

  /** A caller is in its critical section exactly when it holds its team's lock, and what it loaded is still current. */
  ghost predicate LocksAgree(sys: System) {
    && (forall team | team in sys.locks ::
          sys.locks[team] in sys.callers && sys.callers[sys.locks[team]].team == team && Critical(sys.callers[sys.locks[team]].phase))
    && (forall c | c in sys.callers && Critical(sys.callers[c].phase) ::
          sys.callers[c].team in sys.locks && sys.locks[sys.callers[c].team] == c)
    && (forall c | c in sys.callers && sys.callers[c].phase.Loaded? :: sys.callers[c].phase.state == Stored(sys, sys.callers[c].team))
  }

  /** The callers that saved are exactly those past their save, each listed once. */
  ghost predicate SavedAgree(sys: System) {
    && (forall c :: c in sys.saved <==> c in sys.callers && (sys.callers[c].phase.Saved? || sys.callers[c].phase.Finished?))
    && (forall i, j | 0 <= i < j < |sys.saved| :: sys.saved[i] != sys.saved[j])
  }

  /** Each file holds the effect of the team's saved operations, one after the other. */
  ghost predicate FilesAgree(sys: System) {
    forall team :: Stored(sys, team) == Fold(Committed(sys, sys.saved, team))
  }

  ghost predicate Invariant(sys: System) {
    LocksAgree(sys) && SavedAgree(sys) && FilesAgree(sys)
  }

  /** Committed operations only look at the team and operation of the callers. */
  lemma {:induction false} CommittedIgnoresPhases(sys: System, sys': System, saved: seq<CallerId>, team: TeamId)
    requires forall c | c in saved :: c in sys.callers && c in sys'.callers
                                      && sys.callers[c].team == sys'.callers[c].team && sys.callers[c].op == sys'.callers[c].op
    ensures Committed(sys, saved, team) == Committed(sys', saved, team)
  {
    if saved != [] {
      CommittedIgnoresPhases(sys, sys', saved[..|saved| - 1], team);
    }
  }

  lemma LocksStay(sys: System, step: Step)
    requires Enabled(sys, step) && LocksAgree(sys)
    ensures LocksAgree(Next(sys, step))
  {
  }

  lemma SavedStay(sys: System, step: Step)
    requires Enabled(sys, step) && SavedAgree(sys)
    ensures SavedAgree(Next(sys, step))
  {
  }

  lemma FilesStay(sys: System, step: Step)
    requires Enabled(sys, step) && Invariant(sys)
    ensures FilesAgree(Next(sys, step))
  {
    forall team
      ensures Stored(Next(sys, step), team) == Fold(Committed(Next(sys, step), Next(sys, step).saved, team))
    {
      if step.Save? {
        SaveKeepsFile(sys, step.c, team);
      } else {
        CommittedIgnoresPhases(sys, Next(sys, step), sys.saved, team);
      }
    }
  }

  lemma SaveKeepsFile(sys: System, c: CallerId, team: TeamId)
    requires Enabled(sys, Save(c)) && Invariant(sys)
    ensures var sys' := Next(sys, Save(c));
            Stored(sys', team) == Fold(Committed(sys', sys'.saved, team))
  {
    var sys' := Next(sys, Save(c));
    var me := sys.callers[c];
    var ops := Committed(sys, sys.saved, team);
    CommittedIgnoresPhases(sys, sys', sys.saved, team);
    assert sys'.saved[..|sys'.saved| - 1] == sys.saved;
    if me.team == team {
      assert (ops + [me.op])[..|ops|] == ops;
      assert Committed(sys', sys'.saved, team) == ops + [me.op];
      assert me.phase.state == Stored(sys, team) == Fold(ops);
    } else {
      assert Committed(sys', sys'.saved, team) == ops;
      assert Stored(sys', team) == Stored(sys, team);
    }
  }

  lemma {:induction false} RunKeepsInvariant(sys: System, steps: seq<Step>)
    requires Invariant(sys) && Legal(sys, steps)
    ensures Invariant(Run(sys, steps))
    decreases |steps|
  {
    if steps != [] {
      LocksStay(sys, steps[0]);
      SavedStay(sys, steps[0]);
      FilesStay(sys, steps[0]);
      RunKeepsInvariant(Next(sys, steps[0]), steps[1..]);
    }
  }

  // ----- What the counters count -----

  /** Completions saved since the last start of a review. */
  function CompletionsSinceReview(ops: seq<Op>): nat {
    if ops == [] then 0
    else
      var op := ops[|ops| - 1];
      if op.StartReview? then 0 else CompletionsSinceReview(ops[..|ops| - 1]) + if op.IncrementCompletions? then 1 else 0
  }

  function FailuresSinceReview(ops: seq<Op>): nat {
    if ops == [] then 0
    else
      var op := ops[|ops| - 1];
      if op.StartReview? then 0 else FailuresSinceReview(ops[..|ops| - 1]) + if op.IncrementFailures? then 1 else 0
  }

  lemma {:induction false} CountersCount(ops: seq<Op>)
    ensures Fold(ops).completions == CompletionsSinceReview(ops)
    ensures Fold(ops).failures == FailuresSinceReview(ops)
  {
    if ops != [] {
      CountersCount(ops[..|ops| - 1]);
    }
  }

  /** The i-th operation is the last start of a review. */
  ghost predicate LastStart(ops: seq<Op>, i: int) {
    0 <= i < |ops| && ops[i].StartReview? && forall j | i < j < |ops| :: !ops[j].StartReview?
  }

  /** The fields a start of a review sets, and an end clears. */
  ghost predicate Tells(s: MurmurState, start: Op, ended: bool)
    requires start.StartReview?
  {
    && s.lastReviewAt == Some(start.now) && s.lastTriggeredBy == Some(start.triggeredBy)
    && s.currentReviewTaskId == (if ended then None else Some(start.taskId))
    && s.reviewStartedAt == (if ended then None else Some(start.now))
  }

  /** Some review has ended after the i-th operation. */
  ghost predicate EndedAfter(ops: seq<Op>, i: int) {
    exists j | 0 <= j < |ops| :: i < j && ops[j] == EndReview
  }

  /** The review fields tell the last start of a review, and whether a review has ended since. */
  lemma {:induction false} ReviewFieldsTell(ops: seq<Op>, i: int)
    requires LastStart(ops, i)
    ensures Tells(Fold(ops), ops[i], EndedAfter(ops, i))
  {
    var before, last := ops[..|ops| - 1], ops[|ops| - 1];
    if i < |ops| - 1 {
      assert before[i] == ops[i];
      ReviewFieldsTell(before, i);
      assert EndedAfter(ops, i) <==> EndedAfter(before, i) || last == EndReview by {
        if EndedAfter(before, i) {
          var j :| 0 <= j < |before| && i < j && before[j] == EndReview;
          assert ops[j] == EndReview;
        }
        assert forall j | 0 <= j < |before| :: before[j] == ops[j];
      }
    }
  }

  /** Without a start of a review they are unset. */
  lemma {:induction false} NoReviewTold(ops: seq<Op>)
    requires forall i | 0 <= i < |ops| :: !ops[i].StartReview?
    ensures var s := Fold(ops);
            s.lastReviewAt == None && s.lastTriggeredBy == None && s.currentReviewTaskId == None && s.reviewStartedAt == None
  {
    if ops != [] {
      NoReviewTold(ops[..|ops| - 1]);
    }
  }

  /** The callers are those of the calls made, each with the team and the operation it was called with. */
  ghost predicate Called(steps: seq<Step>, c: CallerId, team: TeamId, op: Op) {
    Call(c, team, op) in steps
  }

  lemma {:induction false} CallersWereCalled(sys: System, steps: seq<Step>, c: CallerId)
    requires Legal(sys, steps) && c in Run(sys, steps).callers
    ensures var caller := Run(sys, steps).callers[c];
            if c in sys.callers then caller.team == sys.callers[c].team && caller.op == sys.callers[c].op
            else Called(steps, c, caller.team, caller.op)
    decreases |steps|
  {
    if steps != [] {
      CallersWereCalled(Next(sys, steps[0]), steps[1..], c);
    }
  }

  /** Under any interleaving: one caller per team in the critical section, and no update is lost. */
  lemma NoLostUpdates(steps: seq<Step>, team: TeamId)
    requires Legal(INITIAL, steps)
    ensures var sys := Run(INITIAL, steps);
            var ops := Committed(sys, sys.saved, team);
            && (forall a, b | a in sys.callers && b in sys.callers && sys.callers[a].team == sys.callers[b].team
                              && Critical(sys.callers[a].phase) && Critical(sys.callers[b].phase) :: a == b)
            && (forall c | In(sys, c, Finished) :: c in sys.saved)
            && (forall c | In(sys, c, Threw) :: c !in sys.saved)
            && (forall c | c in sys.callers :: Called(steps, c, sys.callers[c].team, sys.callers[c].op))
            && Stored(sys, team).completions == CompletionsSinceReview(ops)
            && Stored(sys, team).failures == FailuresSinceReview(ops)
  {
    RunKeepsInvariant(INITIAL, steps);
    var sys := Run(INITIAL, steps);
    CountersCount(Committed(sys, sys.saved, team));
    forall c | c in sys.callers
      ensures Called(steps, c, sys.callers[c].team, sys.callers[c].op)
    {
      CallersWereCalled(INITIAL, steps, c);
    }
  }

  /** The lock never blocks everyone: an unfinished caller means some caller can take its next step. */
  lemma SomeoneCanMove(sys: System, c: CallerId) returns (step: Step)
    requires Invariant(sys) && c in sys.callers && !sys.callers[c].phase.Finished? && !sys.callers[c].phase.Threw?
    ensures Enabled(sys, step) && !step.Call? && step.c in sys.callers && sys.callers[step.c].team == sys.callers[c].team
  {
    var team := sys.callers[c].team;
    var d := if team in sys.locks then sys.locks[team] else c;
    var phase := sys.callers[d].phase;
    step := if phase.Waiting? then Acquire(d) else if phase.Locked? then Load(d) else if phase.Loaded? then Save(d) else Release(d);
  }
}
