/** The spawn queue and the plugin bridge that keeps one completion callback per spawned session. */
module SpawnBridge {
  import opened Wrappers
  import opened PendingQueue

  datatype Spawn = Spawn(taskId: string)

  type SpawnRequest = Request<Spawn>

  // ----- The spawn queue as a value -----

  /** `pending` keeps insertion order. The multisets count what has happened to each id. */
  datatype Queue = Queue(
    pending: seq<SpawnRequest>,
    claimed: set<Id>,
    enqueued: multiset<Id>,
    handed: multiset<Id>,
    released: multiset<Id>
  )

  const EMPTY := Queue([], {}, multiset{}, multiset{}, multiset{})

  datatype Op = Enqueue(request: SpawnRequest) | Claim | TryClaim(id: Id) | ReleaseClaim(id: Id, request: SpawnRequest)

  /** Fresh ids, and a released request carries the id it is released under. */
  predicate Enabled(q: Queue, op: Op) {
    match op
    case Enqueue(r) => q.enqueued[r.id] == 0 && q.released[r.id] == 0
    case ReleaseClaim(id, r) => r.id == id
    case _ => true
  }

  function HandOut(q: Queue, i: nat): Queue
    requires i < |q.pending|
  {
    var id := q.pending[i].id;
    q.(pending := q.pending[..i] + q.pending[i + 1..], claimed := q.claimed + {id}, handed := q.handed + multiset{id})
  }

  /** `Map.set`: an existing key keeps its place. */
  function Put(pending: seq<SpawnRequest>, r: SpawnRequest): seq<SpawnRequest> {
    var i := Find(pending, r.id);
    if i < |pending| then pending[i := r] else pending + [r]
  }

  function Next(q: Queue, op: Op): Queue
    requires Enabled(q, op)
  {
    match op
    case Enqueue(r) => q.(pending := Put(q.pending, r), enqueued := q.enqueued + multiset{r.id})
    case Claim =>
      var i := FirstUnclaimed(q.pending, q.claimed);
      if i < |q.pending| then HandOut(q, i) else q
    case TryClaim(id) =>
      var i := Find(q.pending, id);
      if i < |q.pending| then HandOut(q, i) else q
    case ReleaseClaim(id, r) =>
      q.(claimed := q.claimed - {id}, pending := Put(q.pending, r), released := q.released + multiset{id})
  }

  predicate Legal(q: Queue, ops: seq<Op>)
    decreases |ops|
  {
    ops == [] || (Enabled(q, ops[0]) && Legal(Next(q, ops[0]), ops[1..]))
  }

  function Run(q: Queue, ops: seq<Op>): Queue
    requires Legal(q, ops)
    decreases |ops|
  {
    if ops == [] then q else Run(Next(q, ops[0]), ops[1..])
  }

  ghost predicate DistinctIds(pending: seq<SpawnRequest>) {
    forall i, j | 0 <= i < j < |pending| :: pending[i].id != pending[j].id
  }

  /** Ids split into pending and claimed, and every hand-out is paid for by an enqueue or a release. */
  ghost predicate Invariant(q: Queue) {
    && DistinctIds(q.pending)
    && PendingIds(q.pending) !! q.claimed
    && (forall id :: id in PendingIds(q.pending) + q.claimed <==> q.enqueued[id] + q.released[id] > 0)
    && (forall id :: q.enqueued[id] <= 1)
    && (forall id :: q.handed[id] + (if id in PendingIds(q.pending) then 1 else 0) <= q.enqueued[id] + q.released[id])
  }

  lemma HandOutIds(q: Queue, i: nat)
    requires DistinctIds(q.pending) && i < |q.pending|
    ensures DistinctIds(HandOut(q, i).pending)
    ensures PendingIds(HandOut(q, i).pending) == PendingIds(q.pending) - {q.pending[i].id}
    ensures q.pending[i].id in PendingIds(q.pending)
  {
    var rest := HandOut(q, i).pending;
    assert forall j | 0 <= j < |rest| :: rest[j] == q.pending[if j < i then j else j + 1];
    forall r | r in q.pending && r.id != q.pending[i].id
      ensures r in rest
    {
      var j :| 0 <= j < |q.pending| && q.pending[j] == r;
      assert rest[if j < i then j else j - 1] == r;
    }
  }

  lemma PutIds(pending: seq<SpawnRequest>, r: SpawnRequest)
    requires DistinctIds(pending)
    ensures DistinctIds(Put(pending, r)) && PendingIds(Put(pending, r)) == PendingIds(pending) + {r.id}
  {
    var i := Find(pending, r.id);
    var after := Put(pending, r);
    if i < |pending| {
      assert after[i] == r;
      forall x | x in pending
        ensures x.id in PendingIds(after)
      {
        var j :| 0 <= j < |pending| && pending[j] == x;
        assert after[j].id == x.id && after[j] in after;
      }
      forall x | x in after
        ensures x.id in PendingIds(pending)
      {
        var j :| 0 <= j < |after| && after[j] == x;
        assert pending[j].id == x.id && pending[j] in pending;
      }
    } else {
      assert forall x :: x in after <==> x in pending || x == r;
    }
  }

  lemma HandOutKeepsInvariant(q: Queue, i: nat)
    requires Invariant(q) && i < |q.pending|
    ensures Invariant(HandOut(q, i))
  {
    HandOutIds(q, i);
  }

  lemma StepKeepsInvariant(q: Queue, op: Op)
    requires Invariant(q) && Enabled(q, op)
    ensures Invariant(Next(q, op))
  {
    match op
    case Enqueue(r) => PutIds(q.pending, r);
    case Claim =>
      if FirstUnclaimed(q.pending, q.claimed) < |q.pending| {
        HandOutKeepsInvariant(q, FirstUnclaimed(q.pending, q.claimed));
      }
    case TryClaim(id) =>
      if Find(q.pending, id) < |q.pending| {
        HandOutKeepsInvariant(q, Find(q.pending, id));
      }
    case ReleaseClaim(_, r) => PutIds(q.pending, r);
  }

  lemma {:induction false} RunKeepsInvariant(q: Queue, ops: seq<Op>)
    requires Invariant(q) && Legal(q, ops)
    ensures Invariant(Run(q, ops))
    decreases |ops|
  {
    if ops != [] {
      StepKeepsInvariant(q, ops[0]);
      RunKeepsInvariant(Next(q, ops[0]), ops[1..]);
    }
  }

  /** An id is handed out at most once more than it was released, and every enqueued id is pending or claimed, never both. */
  lemma HandOutsArePaidFor(ops: seq<Op>)
    requires Legal(EMPTY, ops)
    ensures var q := Run(EMPTY, ops);
            && (forall id :: q.handed[id] <= 1 + q.released[id])
            && (forall id | q.enqueued[id] > 0 :: (id in PendingIds(q.pending)) != (id in q.claimed))
  {
    RunKeepsInvariant(EMPTY, ops);
    var q := Run(EMPTY, ops);
    forall id | q.enqueued[id] > 0
      ensures (id in PendingIds(q.pending)) != (id in q.claimed)
    {
      assert id in PendingIds(q.pending) + q.claimed;
    }
  }

  // ----- The spawn queue as an object -----

  class SpawnQueue {
    var pending: seq<SpawnRequest>
    var claimed: set<Id>
    ghost var past: Queue

    ghost function View(): Queue
      reads this
    {
      past.(pending := pending, claimed := claimed)
    }

    constructor ()
      ensures View() == EMPTY
    {
      pending, claimed, past := [], {}, EMPTY;
    }

    method EnqueueRequest(request: SpawnRequest)
      requires Enabled(View(), Enqueue(request)) && request.id !in PendingIds(pending)
      modifies this
      ensures View() == Next(old(View()), Enqueue(request))
      ensures pending == old(pending) + [request] && claimed == old(claimed)
    {
      past := Next(View(), Enqueue(request));
      FindPresent(pending, request.id);
      pending := pending + [request];
    }

    method ClaimOldest() returns (r: Option<SpawnRequest>)
      modifies this
      ensures View() == Next(old(View()), Claim)
      ensures r == var i := FirstUnclaimed(old(pending), old(claimed)); if i < |old(pending)| then Some(old(pending)[i]) else None
      ensures HandedOut(old(pending), old(claimed), pending, claimed, r)
    {
      ghost var after := Next(View(), Claim);
      for i := 0 to |pending|
        invariant forall j | 0 <= j < i :: pending[j].id in claimed
        invariant unchanged(this)
      {
        if pending[i].id !in claimed {
          assert FirstUnclaimed(pending, claimed) == i;
          r := Some(pending[i]);
          claimed := claimed + {pending[i].id};
          pending := pending[..i] + pending[i + 1..];
          past := after;
          return;
        }
      }
      return None;
    }

    method TryClaimId(id: Id) returns (ok: bool)
      modifies this
      ensures View() == Next(old(View()), TryClaim(id))
      ensures ok <==> id in PendingIds(old(pending))
      ensures exists r :: HandedOut(old(pending), old(claimed), pending, claimed, r) && (if ok then r.Some? && r.value.id == id else r.None?)
    {
      ghost var after := Next(View(), TryClaim(id));
      FindPresent(pending, id);
      var i := Find(pending, id);
      ok := i < |pending|;
      ghost var r := if ok then Some(pending[i]) else None;
      if ok {
        claimed := claimed + {id};
        pending := pending[..i] + pending[i + 1..];
      }
      past := after;
      assert HandedOut(old(pending), old(claimed), pending, claimed, r);
    }

    method Release(id: Id, request: SpawnRequest)
      requires request.id == id
      modifies this
      ensures View() == Next(old(View()), ReleaseClaim(id, request))
      ensures claimed == old(claimed) - {id}
      ensures id !in PendingIds(old(pending)) ==> pending == old(pending) + [request]
      ensures id in PendingIds(old(pending)) ==>
                exists i | 0 <= i < |pending| :: old(pending)[i].id == id && pending == old(pending)[i := request]
    {
      ghost var after := Next(View(), ReleaseClaim(id, request));
      claimed := claimed - {id};
      FindPresent(pending, request.id);
      pending := Put(pending, request);
      past := after;
    }
  }

  // ----- The bridge -----

  datatype Outcome = Outcome(taskId: string, sessionId: string, success: bool, aborted: bool, durationMs: nat)

  datatype Entry = Entry(taskId: string, hasCallback: bool)

  datatype BridgeOp =
    | Register(id: Id, entry: Entry)
    | DeliverResult(id: Id, result: Outcome, taskId: Option<string>)
    | ForceComplete(id: Id, sessionId: string)

  /** `pending` is the callback table; `spawned` and `fired` record the past. */
  datatype Bridge = Bridge(pending: map<Id, Entry>, spawned: map<Id, Entry>, fired: multiset<Id>, outcomes: map<Id, Outcome>)

  const NEW_BRIDGE := Bridge(map[], map[], multiset{}, map[])

  predicate BridgeEnabled(b: Bridge, op: BridgeOp) {
    op.Register? ==> op.id !in b.spawned
  }

  /** Removes the entry, and fires its callback if it has one. */
  function Finish(b: Bridge, id: Id, outcome: Outcome): Bridge {
    if id !in b.pending then b
    else
      var rec := b.pending[id];
      var b' := b.(pending := b.pending - {id});
      if rec.hasCallback then b'.(fired := b.fired + multiset{id}, outcomes := b.outcomes[id := outcome]) else b'
  }

  function ResultOutcome(rec: Entry, result: Outcome, taskId: Option<string>): Outcome {
    result.(taskId := taskId.GetOr(rec.taskId))
  }

  function AbortOutcome(rec: Entry, sessionId: string): Outcome {
    Outcome(rec.taskId, sessionId, false, true, 0)
  }

  function BridgeNext(b: Bridge, op: BridgeOp): Bridge
    requires BridgeEnabled(b, op)
  {
    match op
    case Register(id, entry) => b.(pending := b.pending[id := entry], spawned := b.spawned[id := entry])
    case DeliverResult(id, result, taskId) =>
      if id in b.pending then Finish(b, id, ResultOutcome(b.pending[id], result, taskId)) else b
    case ForceComplete(id, sessionId) =>
      if id in b.pending then Finish(b, id, AbortOutcome(b.pending[id], sessionId)) else b
  }

  predicate BridgeLegal(b: Bridge, ops: seq<BridgeOp>)
    decreases |ops|
  {
    ops == [] || (BridgeEnabled(b, ops[0]) && BridgeLegal(BridgeNext(b, ops[0]), ops[1..]))
  }

  function BridgeRun(b: Bridge, ops: seq<BridgeOp>): Bridge
    requires BridgeLegal(b, ops)
    decreases |ops|
  {
    if ops == [] then b else BridgeRun(BridgeNext(b, ops[0]), ops[1..])
  }

  /** `getSessionStatus(id).alive`. */
  predicate Alive(b: Bridge, id: Id) {
    id in b.pending
  }

  /** A session is in the table until its callback, if any, fires; after that the callback has fired exactly once. */
  ghost predicate BridgeInvariant(b: Bridge) {
    && (forall id | id in b.pending :: id in b.spawned && b.pending[id] == b.spawned[id])
    && (forall id :: b.fired[id] == if id in b.spawned && b.spawned[id].hasCallback && id !in b.pending then 1 else 0)
  }

  lemma BridgeStepKeepsInvariant(b: Bridge, op: BridgeOp)
    requires BridgeInvariant(b) && BridgeEnabled(b, op)
    ensures BridgeInvariant(BridgeNext(b, op))
  {
  }

  lemma {:induction false} BridgeRunKeepsInvariant(b: Bridge, ops: seq<BridgeOp>)
    requires BridgeInvariant(b) && BridgeLegal(b, ops)
    ensures BridgeInvariant(BridgeRun(b, ops))
    decreases |ops|
  {
    if ops != [] {
      BridgeStepKeepsInvariant(b, ops[0]);
      BridgeRunKeepsInvariant(BridgeNext(b, ops[0]), ops[1..]);
    }
  }

  /** Whatever results are replayed and whatever sessions are force-completed: a callback fires at most once, and a session with a callback is alive exactly until then. */
  lemma CallbackFiresOnce(ops: seq<BridgeOp>)
    requires BridgeLegal(NEW_BRIDGE, ops)
    ensures var b := BridgeRun(NEW_BRIDGE, ops);
            && (forall id :: b.fired[id] <= 1)
            && (forall id | id in b.spawned && b.spawned[id].hasCallback :: Alive(b, id) <==> b.fired[id] == 0)
            && (forall id | Alive(b, id) :: id in b.spawned)
  {
    BridgeRunKeepsInvariant(NEW_BRIDGE, ops);
  }

  lemma OutcomeStandsOneStep(b: Bridge, op: BridgeOp, id: Id)
    requires BridgeEnabled(b, op) && id in b.spawned && id !in b.pending && id in b.outcomes
    ensures var b' := BridgeNext(b, op);
            id in b'.spawned && id !in b'.pending && id in b'.outcomes && b'.outcomes[id] == b.outcomes[id]
  {
  }

  /** The first outcome is the one the callback gets: nothing after the callback changes it. */
  lemma {:induction false} FirstOutcomeStands(b: Bridge, ops: seq<BridgeOp>, id: Id)
    requires BridgeInvariant(b) && BridgeLegal(b, ops) && id in b.spawned && id !in b.pending && id in b.outcomes
    ensures id in BridgeRun(b, ops).outcomes && BridgeRun(b, ops).outcomes[id] == b.outcomes[id]
    decreases |ops|
  {
    if ops != [] {
      BridgeStepKeepsInvariant(b, ops[0]);
      OutcomeStandsOneStep(b, ops[0], id);
      FirstOutcomeStands(BridgeNext(b, ops[0]), ops[1..], id);
    }
  }

  class PluginBridgeAdapter {
    const queue: SpawnQueue
    var pending: map<Id, Entry>
    ghost var past: Bridge

    ghost function View(): Bridge
      reads this
    {
      past.(pending := pending)
    }

    constructor (queue: SpawnQueue)
      ensures View() == NEW_BRIDGE && this.queue == queue
    {
      this.queue := queue;
      pending, past := map[], NEW_BRIDGE;
    }

    /** Enqueues the request and records the callback, or does nothing when no plugin is attached. */
    method SpawnSession(request: SpawnRequest, hasCallback: bool, attached: bool) returns (session: Option<Id>)
      requires Enabled(queue.View(), Enqueue(request)) && request.id !in PendingIds(queue.pending)
      requires request.id !in View().spawned
      modifies this, queue
      ensures session == if attached then Some(request.id) else None
      ensures attached ==> queue.View() == Next(old(queue.View()), Enqueue(request))
      ensures attached ==> View() == BridgeNext(old(View()), Register(request.id, Entry(request.payload.taskId, hasCallback)))
      ensures attached ==> queue.pending == old(queue.pending) + [request] && queue.claimed == old(queue.claimed)
      ensures attached ==> pending == old(pending)[request.id := Entry(request.payload.taskId, hasCallback)]
      ensures !attached ==> queue.View() == old(queue.View()) && View() == old(View())
    {
      if !attached {
        return None;
      }
      queue.EnqueueRequest(request);
      var entry := Entry(request.payload.taskId, hasCallback);
      past := BridgeNext(View(), Register(request.id, entry));
      pending := pending[request.id := entry];
      return Some(request.id);
    }

    /** The outcome passed to the callback, if one is called. */
    method Deliver(id: Id, result: Outcome, taskId: Option<string>) returns (called: Option<Outcome>)
      modifies this
      ensures View() == BridgeNext(old(View()), DeliverResult(id, result, taskId))
      ensures called == if id in old(pending) && old(pending)[id].hasCallback then Some(ResultOutcome(old(pending)[id], result, taskId)) else None
      ensures pending == old(pending) - {id}
      ensures called.Some? ==>
                && called.value.taskId == (if taskId.Some? then taskId.value else old(pending)[id].taskId)
                && called.value.sessionId == result.sessionId && called.value.durationMs == result.durationMs
                && called.value.success == result.success && called.value.aborted == result.aborted
    {
      ghost var after := BridgeNext(View(), DeliverResult(id, result, taskId));
      called := None;
      if id in pending {
        var rec := pending[id];
        pending := pending - {id};
        if rec.hasCallback {
          called := Some(ResultOutcome(rec, result, taskId));
        }
      }
      past := after;
    }

    method ForceCompleteSession(id: Id, sessionId: string) returns (called: Option<Outcome>)
      modifies this
      ensures View() == BridgeNext(old(View()), ForceComplete(id, sessionId))
      ensures called == if id in old(pending) && old(pending)[id].hasCallback then Some(AbortOutcome(old(pending)[id], sessionId)) else None
      ensures pending == old(pending) - {id}
      ensures called.Some? ==> called.value == Outcome(old(pending)[id].taskId, sessionId, false, true, 0)
    {
      ghost var after := BridgeNext(View(), ForceComplete(id, sessionId));
      called := None;
      if id in pending {
        var rec := pending[id];
        pending := pending - {id};
        if rec.hasCallback {
          called := Some(AbortOutcome(rec, sessionId));
        }
      }
      past := after;
    }

    method GetSessionStatus(id: Id) returns (alive: bool)
      ensures alive <==> Alive(View(), id)
    {
      alive := id in pending;
    }
  }
}
