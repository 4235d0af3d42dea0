/** The chat-delivery queue: requests, pollers that claim them, and promises settled by results or timers. */
module ChatDelivery {
  import opened Wrappers
  import opened PendingQueue

  datatype Chat = Chat(subscriptionId: string, taskId: string)

  type ChatRequest = Request<Chat>

  // ----- The queue as a value -----

  datatype Settlement = Resolved | Rejected | TimedOut

  /**
   * `pending` keeps insertion order, as a JavaScript Map does. The remaining components record the past: the number
   * each id was enqueued under, the hand-outs to pollers, those made by `claim`, how often each promise settled, and how.
   */
  datatype Queue = Queue(
    pending: seq<ChatRequest>,
    claimed: set<Id>,
    waiters: set<Id>,
    number: map<Id, nat>,
    next: nat,
    handed: multiset<Id>,
    claims: seq<Id>,
    settled: multiset<Id>,
    outcome: map<Id, Settlement>
  )

  const EMPTY := Queue([], {}, {}, map[], 0, multiset{}, [], multiset{}, map[])

  datatype Op =
    | Enqueue(request: ChatRequest)
    | Claim
    | TryClaim(id: Id)
    | Deliver(id: Id, success: bool)
    | TimerFires(id: Id)

  /** The list without the element at `i`, if there is one. */
  function Without(pending: seq<ChatRequest>, i: nat): seq<ChatRequest> {
    if i < |pending| then pending[..i] + pending[i + 1..] else pending
  }

  function HandOut(q: Queue, i: nat): Queue
    requires i < |q.pending|
  {
    var id := q.pending[i].id;
    q.(pending := Without(q.pending, i), claimed := q.claimed + {id}, handed := q.handed + multiset{id})
  }

  /** Ids are generated fresh. */
  predicate Enabled(q: Queue, op: Op) {
    op.Enqueue? ==> op.request.id !in q.number
  }

  function Next(q: Queue, op: Op): Queue
    requires Enabled(q, op)
  {
    match op
    case Enqueue(r) =>
      q.(pending := q.pending + [r], waiters := q.waiters + {r.id}, number := q.number[r.id := q.next], next := q.next + 1)
    case Claim =>
      var i := FirstUnclaimed(q.pending, q.claimed);
      if i < |q.pending| then HandOut(q, i).(claims := q.claims + [q.pending[i].id]) else q
    case TryClaim(id) =>
      var i := Find(q.pending, id);
      if i < |q.pending| then HandOut(q, i) else q
    case Deliver(id, success) =>
      if id in q.waiters then Settle(q.(claimed := q.claimed - {id}), id, if success then Resolved else Rejected) else q
    case TimerFires(id) =>
      if id in q.waiters then
        Settle(q.(pending := Without(q.pending, Find(q.pending, id)), claimed := q.claimed - {id}), id, TimedOut)
      else q
  }

  function Settle(q: Queue, id: Id, how: Settlement): Queue {
    q.(waiters := q.waiters - {id}, settled := q.settled + multiset{id}, outcome := q.outcome[id := how])
  }

  predicate Legal(q: Queue, ops: seq<Op>)
    decreases |ops|
  {
    ops == [] || (Enabled(q, ops[0]) && Legal(Next(q, ops[0]), ops[1..]))
  }

  function Run(q: Queue, ops: seq<Op>): Queue
    requires Legal(q, ops)
    decreases |ops|
  {
    if ops == [] then q else Run(Next(q, ops[0]), ops[1..])
  }

  // ----- The invariant -----

  /** Requests are pending in the order of their numbers. */
  ghost predicate Ordered(pending: seq<ChatRequest>, number: map<Id, nat>) {
    && (forall i | 0 <= i < |pending| :: pending[i].id in number)
    && (forall i, j | 0 <= i < j < |pending| :: number[pending[i].id] < number[pending[j].id])
  }

  /** Claims were made in the order of the numbers, and before anything still pending. */
  ghost predicate FirstInFirstOut(q: Queue) {
    && (forall i | 0 <= i < |q.claims| :: q.claims[i] in q.number)
    && (forall i, j | 0 <= i < j < |q.claims| :: q.number[q.claims[i]] < q.number[q.claims[j]])
    && (forall i, r | 0 <= i < |q.claims| && r in q.pending && r.id in q.number :: q.number[q.claims[i]] < q.number[r.id])
  }

  /** Every id that was ever enqueued is waiting or settled, never both; nobody gets a request twice. */
  ghost predicate OnceEach(q: Queue) {
    && (forall id :: q.settled[id] == if id in q.number && id !in q.waiters then 1 else 0)
    && (forall id | id in q.waiters :: id in q.number)
    && (forall id :: q.handed[id] <= 1)
    && (forall id | q.handed[id] > 0 :: id in q.number && id !in PendingIds(q.pending))
    && (forall id | id in q.claimed :: q.handed[id] == 1)
  }

  ghost predicate Invariant(q: Queue) {
    && Ordered(q.pending, q.number)
    && (forall id | id in q.number :: q.number[id] < q.next)
    && q.waiters <= PendingIds(q.pending) + q.claimed
    && PendingIds(q.pending) !! q.claimed
    && OnceEach(q)
    && FirstInFirstOut(q)
  }

  /** Requests nobody waits for any more that are still pending or claimed. */
  function Orphans(q: Queue): set<Id> {
    PendingIds(q.pending) + q.claimed - q.waiters
  }

  lemma WithoutMembers(pending: seq<ChatRequest>, number: map<Id, nat>, i: nat)
    requires Ordered(pending, number) && i < |pending|
    ensures forall r :: r in Without(pending, i) <==> r in pending && r != pending[i]
  {
    var rest := Without(pending, i);
    forall r | r in pending && r != pending[i]
      ensures r in rest
    {
      var j :| 0 <= j < |pending| && pending[j] == r;
      assert rest[if j < i then j else j - 1] == r;
    }
    forall r | r in rest
      ensures r in pending && r != pending[i]
    {
      var j :| 0 <= j < |rest| && rest[j] == r;
      var k := if j < i then j else j + 1;
      assert pending[k] == r;
      assert number[pending[k].id] != number[pending[i].id];
    }
  }

  lemma WithoutIds(pending: seq<ChatRequest>, number: map<Id, nat>, i: nat)
    requires Ordered(pending, number) && i < |pending|
    ensures PendingIds(Without(pending, i)) == PendingIds(pending) - {pending[i].id}
  {
    WithoutMembers(pending, number, i);
    forall r | r in pending && r != pending[i]
      ensures r.id != pending[i].id
    {
      var j :| 0 <= j < |pending| && pending[j] == r;
      assert number[pending[j].id] != number[pending[i].id];
    }
  }

  lemma WithoutOrdered(pending: seq<ChatRequest>, number: map<Id, nat>, i: nat)
    requires Ordered(pending, number)
    ensures Ordered(Without(pending, i), number)
    ensures forall r :: r in Without(pending, i) ==> r in pending
    ensures PendingIds(Without(pending, i)) == PendingIds(pending) - if i < |pending| then {pending[i].id} else {}
  {
    if i < |pending| {
      RestOrdered(pending, number, i);
      WithoutMembers(pending, number, i);
      WithoutIds(pending, number, i);
    }
  }

  lemma RestOrdered(pending: seq<ChatRequest>, number: map<Id, nat>, i: nat)
    requires Ordered(pending, number) && i < |pending|
    ensures Ordered(Without(pending, i), number)
  {
    var rest := Without(pending, i);
    assert forall j | 0 <= j < |rest| :: rest[j] == pending[if j < i then j else j + 1];
  }

  lemma HandOutKeepsInvariant(q: Queue, i: nat)
    requires Invariant(q) && i < |q.pending|
    ensures Invariant(HandOut(q, i)) && Orphans(HandOut(q, i)) == Orphans(q)
  {
    WithoutOrdered(q.pending, q.number, i);
    assert q.pending[i] in q.pending;
    assert q.pending[i].id in PendingIds(q.pending);
  }

  /** The oldest pending request has the smallest number of all. */
  lemma OldestFirst(pending: seq<ChatRequest>, number: map<Id, nat>)
    requires Ordered(pending, number) && pending != []
    ensures forall r | r in Without(pending, 0) :: r.id in number && number[pending[0].id] < number[r.id]
  {
    forall r | r in Without(pending, 0)
      ensures r.id in number && number[pending[0].id] < number[r.id]
    {
      var j :| 0 <= j < |pending[1..]| && pending[1..][j] == r;
      assert pending[j + 1] == r;
    }
  }

  lemma ClaimStaysFirstInFirstOut(q: Queue)
    requires Ordered(q.pending, q.number) && FirstInFirstOut(q) && q.pending != []
    ensures FirstInFirstOut(HandOut(q, 0).(claims := q.claims + [q.pending[0].id]))
  {
    OldestFirst(q.pending, q.number);
    assert q.pending[0] in q.pending;
    assert forall r | r in Without(q.pending, 0) :: r in q.pending;
  }

  lemma ClaimKeepsInvariant(q: Queue)
    requires Invariant(q)
    ensures Invariant(Next(q, Claim)) && Orphans(Next(q, Claim)) == Orphans(q)
    ensures q.pending != [] ==> Next(q, Claim).claims == q.claims + [q.pending[0].id]
  {
    if q.pending != [] {
      assert q.pending[0].id in PendingIds(q.pending);
      HandOutKeepsInvariant(q, 0);
      ClaimStaysFirstInFirstOut(q);
    }
  }

  lemma StepKeepsInvariant(q: Queue, op: Op)
    requires Invariant(q) && Enabled(q, op)
    ensures Invariant(Next(q, op))
  {
    match op
    case Enqueue(r) => EnqueueKeepsInvariant(q, r);
    case Claim => ClaimKeepsInvariant(q);
    case TryClaim(id) =>
      if Find(q.pending, id) < |q.pending| {
        HandOutKeepsInvariant(q, Find(q.pending, id));
      }
    case Deliver(id, _) =>
    case TimerFires(id) =>
      FindPresent(q.pending, id);
      WithoutOrdered(q.pending, q.number, Find(q.pending, id));
  }

  lemma EnqueueStaysFirstInFirstOut(q: Queue, r: ChatRequest)
    requires FirstInFirstOut(q) && Ordered(q.pending, q.number) && r.id !in q.number
    requires forall id | id in q.number :: q.number[id] < q.next
    ensures FirstInFirstOut(Next(q, Enqueue(r)))
  {
    assert forall x | x in Next(q, Enqueue(r)).pending :: x in q.pending || x == r;
  }

  lemma EnqueuedIds(q: Queue, r: ChatRequest)
    requires r.id !in q.number
    ensures PendingIds(Next(q, Enqueue(r)).pending) == PendingIds(q.pending) + {r.id}
  {
  }

  lemma EnqueueStaysOnceEach(q: Queue, r: ChatRequest)
    requires OnceEach(q) && r.id !in q.number
    ensures OnceEach(Next(q, Enqueue(r)))
  {
    EnqueuedIds(q, r);
  }

  lemma EnqueueStaysOrdered(q: Queue, r: ChatRequest)
    requires Ordered(q.pending, q.number) && r.id !in q.number && forall id | id in q.number :: q.number[id] < q.next
    ensures Ordered(Next(q, Enqueue(r)).pending, Next(q, Enqueue(r)).number)
  {
  }

  lemma EnqueueKeepsOrphans(q: Queue, r: ChatRequest)
    requires Invariant(q) && r.id !in q.number
    ensures Orphans(Next(q, Enqueue(r))) == Orphans(q)
  {
    EnqueuedIds(q, r);
  }

  lemma EnqueueKeepsInvariant(q: Queue, r: ChatRequest)
    requires Invariant(q) && r.id !in q.number
    ensures Invariant(Next(q, Enqueue(r))) && Orphans(Next(q, Enqueue(r))) == Orphans(q)
  {
    EnqueueStaysOrdered(q, r);
    EnqueueStaysFirstInFirstOut(q, r);
    EnqueueStaysOnceEach(q, r);
    EnqueueKeepsOrphans(q, r);
    EnqueuedIds(q, r);
  }

  lemma {:induction false} RunKeepsInvariant(q: Queue, ops: seq<Op>)
    requires Invariant(q) && Legal(q, ops)
    ensures Invariant(Run(q, ops))
    decreases |ops|
  {
    if ops != [] {
      StepKeepsInvariant(q, ops[0]);
      RunKeepsInvariant(Next(q, ops[0]), ops[1..]);
    }
  }

  /** Over any interleaving each request reaches at most one poller, each promise settles at most once, and claims are first in, first out. */
  lemma ExactlyOnce(ops: seq<Op>)
    requires Legal(EMPTY, ops)
    ensures var q := Run(EMPTY, ops);
            && PendingIds(q.pending) !! q.claimed
            && q.waiters <= PendingIds(q.pending) + q.claimed
            && (forall id :: q.handed[id] <= 1 && q.settled[id] <= 1)
            && (forall id :: id in q.waiters <==> id in q.number && q.settled[id] == 0)
            && FirstInFirstOut(q)
  {
    RunKeepsInvariant(EMPTY, ops);
  }

  // ----- The first settlement stands -----

  ghost predicate IsOver(q: Queue, id: Id, how: Settlement) {
    id in q.number && id !in q.waiters && id in q.outcome && q.outcome[id] == how
  }

  lemma {:induction false} OverStays(q: Queue, ops: seq<Op>, id: Id, how: Settlement)
    requires Legal(q, ops) && IsOver(q, id, how)
    ensures IsOver(Run(q, ops), id, how)
    decreases |ops|
  {
    if ops != [] {
      OverStays(Next(q, ops[0]), ops[1..], id, how);
    }
  }

  /**
   * A promise waited for is resolved by a successful result, rejected by a failed one and timed out by its timer,
   * whichever comes first, and nothing after that changes it.
   */
  lemma FirstSettlementStands(q: Queue, ops: seq<Op>, id: Id)
    requires Invariant(q) && id in q.waiters && Legal(q, ops) && ops != []
    ensures ops[0] == Deliver(id, true) ==> IsOver(Run(q, ops), id, Resolved)
    ensures ops[0] == Deliver(id, false) ==> IsOver(Run(q, ops), id, Rejected)
    ensures ops[0] == TimerFires(id) ==> IsOver(Run(q, ops), id, TimedOut)
  {
    var next := Next(q, ops[0]);
    if ops[0] == Deliver(id, true) {
      OverStays(next, ops[1..], id, Resolved);
    } else if ops[0] == Deliver(id, false) {
      OverStays(next, ops[1..], id, Rejected);
    } else if ops[0] == TimerFires(id) {
      OverStays(next, ops[1..], id, TimedOut);
    }
  }

  // ----- Results posted for requests nobody has claimed -----

  /** A result orphans its request exactly when the request is still pending and waited for; no other step creates or removes orphans. */
  lemma {:induction false} OrphansOnlyFromEarlyResults(q: Queue, op: Op)
    requires Invariant(q) && Enabled(q, op)
    ensures Orphans(Next(q, op))
            == Orphans(q) + if op.Deliver? && op.id in q.waiters && op.id in PendingIds(q.pending) then {op.id} else {}
  {
    match op
    case Enqueue(r) => EnqueueKeepsInvariant(q, r);
    case Claim => ClaimKeepsInvariant(q);
    case TryClaim(id) =>
      if Find(q.pending, id) < |q.pending| {
        HandOutKeepsInvariant(q, Find(q.pending, id));
      }
    case Deliver(id, success) => ResultOrphans(q, id, success);
    case TimerFires(id) => TimerOrphansNothing(q, id);
  }

  lemma ResultOrphans(q: Queue, id: Id, success: bool)
    requires Invariant(q)
    ensures Orphans(Next(q, Deliver(id, success))) == Orphans(q) + if id in q.waiters && id in PendingIds(q.pending) then {id} else {}
  {
  }

  lemma TimerOrphansNothing(q: Queue, id: Id)
    requires Invariant(q)
    ensures Orphans(Next(q, TimerFires(id))) == Orphans(q)
  {
    FindPresent(q.pending, id);
    WithoutOrdered(q.pending, q.number, Find(q.pending, id));
  }

  /** Every result was posted for a request that had left the pending list. */
  predicate ResultsAfterClaims(q: Queue, ops: seq<Op>)
    requires Legal(q, ops)
    decreases |ops|
  {
    ops == [] ||
    ((ops[0].Deliver? ==> ops[0].id !in PendingIds(q.pending)) && ResultsAfterClaims(Next(q, ops[0]), ops[1..]))
  }

  /** Then pending and claimed together are exactly the ids waited for. */
  lemma {:induction false} PendingAndClaimedAreWaiting(q: Queue, ops: seq<Op>)
    requires Invariant(q) && Orphans(q) == {} && Legal(q, ops) && ResultsAfterClaims(q, ops)
    ensures PendingIds(Run(q, ops).pending) + Run(q, ops).claimed == Run(q, ops).waiters
    decreases |ops|
  {
    if ops != [] {
      StepKeepsInvariant(q, ops[0]);
      OrphansOnlyFromEarlyResults(q, ops[0]);
      PendingAndClaimedAreWaiting(Next(q, ops[0]), ops[1..]);
    } else {
      assert PendingIds(q.pending) + q.claimed == Orphans(q) + q.waiters;
    }
  }

  // ----- The queue as an object -----

  class ChatDeliveryQueue {
    var pending: seq<ChatRequest>
    var claimed: set<Id>
    var waiters: set<Id>
    ghost var past: Queue

    /** The object together with its past. */
    ghost function View(): Queue
      reads this
    {
      past.(pending := pending, claimed := claimed, waiters := waiters)
    }

    constructor ()
      ensures View() == EMPTY
    {
      pending, claimed, waiters, past := [], {}, {}, EMPTY;
    }

    method EnqueueAndAwait(request: ChatRequest)
      requires Enabled(View(), Enqueue(request))
      modifies this
      ensures View() == Next(old(View()), Enqueue(request))
      ensures pending == old(pending) + [request] && claimed == old(claimed) && waiters == old(waiters) + {request.id}
    {
      past := Next(View(), Enqueue(request));
      pending := pending + [request];
      waiters := waiters + {request.id};
    }

    method ClaimOldest() returns (r: Option<ChatRequest>)
      modifies this
      ensures View() == Next(old(View()), Claim)
      ensures r == var i := FirstUnclaimed(old(pending), old(claimed)); if i < |old(pending)| then Some(old(pending)[i]) else None
      ensures HandedOut(old(pending), old(claimed), pending, claimed, r) && waiters == old(waiters)
    {
      ghost var after := Next(View(), Claim);
      for i := 0 to |pending|
        invariant forall j | 0 <= j < i :: pending[j].id in claimed
        invariant unchanged(this)
      {
        if pending[i].id !in claimed {
          assert FirstUnclaimed(pending, claimed) == i;
          r := Some(pending[i]);
          claimed := claimed + {pending[i].id};
          pending := Without(pending, i);
          past := after;
          return;
        }
      }
      return None;
    }

    method TryClaimId(id: Id) returns (ok: bool)
      modifies this
      ensures View() == Next(old(View()), TryClaim(id))
      ensures ok <==> id in PendingIds(old(pending))
      ensures exists r :: HandedOut(old(pending), old(claimed), pending, claimed, r) && (if ok then r.Some? && r.value.id == id else r.None?)
      ensures waiters == old(waiters)
    {
      ghost var after := Next(View(), TryClaim(id));
      FindPresent(pending, id);
      var i := Find(pending, id);
      ok := i < |pending|;
      ghost var r := if ok then Some(pending[i]) else None;
      if ok {
        claimed := claimed + {id};
        pending := Without(pending, i);
      }
      past := after;
      assert HandedOut(old(pending), old(claimed), pending, claimed, r);
    }

    method DeliverResult(id: Id, success: bool) returns (settlement: Option<Settlement>)
      modifies this
      ensures View() == Next(old(View()), Deliver(id, success))
      ensures settlement == if id !in old(waiters) then None else if success then Some(Resolved) else Some(Rejected)
      ensures pending == old(pending) && waiters == old(waiters) - {id}
      ensures claimed == if id in old(waiters) then old(claimed) - {id} else old(claimed)
    {
      ghost var after := Next(View(), Deliver(id, success));
      settlement := None;
      if id in waiters {
        waiters := waiters - {id};
        claimed := claimed - {id};
        settlement := Some(if success then Resolved else Rejected);
      }
      past := after;
    }

    method Timeout(id: Id) returns (settlement: Option<Settlement>)
      modifies this
      ensures View() == Next(old(View()), TimerFires(id))
      ensures settlement == if id in old(waiters) then Some(TimedOut) else None
      ensures waiters == old(waiters) - {id}
      ensures claimed == if id in old(waiters) then old(claimed) - {id} else old(claimed)
      ensures id in old(waiters) ==> exists r :: Removed(old(pending), pending, r) && (r.Some? ==> r.value.id == id) && (r.None? ==> id !in PendingIds(pending))
      ensures id !in old(waiters) ==> pending == old(pending)
    {
      ghost var after := Next(View(), TimerFires(id));
      settlement := None;
      ghost var i := Find(pending, id);
      ghost var r := if id in waiters && i < |pending| then Some(pending[i]) else None;
      FindPresent(pending, id);
      if id in waiters {
        waiters := waiters - {id};
        pending := Without(pending, Find(pending, id));
        claimed := claimed - {id};
        settlement := Some(TimedOut);
      }
      past := after;
      assert Removed(old(pending), pending, r);
    }
  }
}
