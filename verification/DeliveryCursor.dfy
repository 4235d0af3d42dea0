/** Batched callbacks for one "all" subscription: an event log, a `lastDeliveredAt` cursor, and overlapping deliverers. */
module DeliveryCursor {
  import opened Wrappers

  /** A `task.transitioned` event; the timestamp is in milliseconds. */
  datatype Event = Event(timestamp: int, fromStatus: string, toStatus: string)

  // ----- Choosing a batch -----

  /** `.filter(e => e.timestamp > cursor)`. */
  function Newer(events: seq<Event>, cursor: int): (r: seq<Event>)
    ensures forall e :: e in r <==> e in events && e.timestamp > cursor
  {
    if events == [] then []
    else (if events[0].timestamp > cursor then [events[0]] else []) + Newer(events[1..], cursor)
  }

  ghost predicate Chronological(events: seq<Event>) {
    events != [] ==> (forall e | e in events[1..] :: events[0].timestamp <= e.timestamp) && Chronological(events[1..])
  }

  ghost predicate Increasing(events: seq<Event>) {
    forall i, j | 0 <= i < j < |events| :: events[i].timestamp < events[j].timestamp
  }

  function Insert(e: Event, sorted: seq<Event>): seq<Event> {
    if sorted == [] || e.timestamp <= sorted[0].timestamp then [e] + sorted
    else [sorted[0]] + Insert(e, sorted[1..])
  }

  /** `.sort((a, b) => a.timestamp - b.timestamp)`: a stable sort. */
  function SortByTime(events: seq<Event>): seq<Event> {
    if events == [] then [] else Insert(events[0], SortByTime(events[1..]))
  }

  function Batch(events: seq<Event>, cursor: int): seq<Event> {
    SortByTime(Newer(events, cursor))
  }

  lemma {:induction false} InsertedIn(e: Event, sorted: seq<Event>)
    ensures multiset(Insert(e, sorted)) == multiset{e} + multiset(sorted)
  {
    if sorted != [] && e.timestamp > sorted[0].timestamp {
      InsertedIn(e, sorted[1..]);
      assert sorted == [sorted[0]] + sorted[1..];
    }
  }

  lemma {:induction false} InsertKeepsOrder(e: Event, sorted: seq<Event>)
    requires Chronological(sorted)
    ensures Chronological(Insert(e, sorted))
  {
    if sorted != [] && e.timestamp > sorted[0].timestamp {
      InsertKeepsOrder(e, sorted[1..]);
      var rest := Insert(e, sorted[1..]);
      InsertedIn(e, sorted[1..]);
      forall x | x in rest
        ensures sorted[0].timestamp <= x.timestamp
      {
        assert x in multiset(rest);
      }
      assert ([sorted[0]] + rest)[1..] == rest;
    } else {
      assert ([e] + sorted)[1..] == sorted;
    }
  }

  lemma {:induction false} SortIsRight(events: seq<Event>)
    ensures Chronological(SortByTime(events)) && multiset(SortByTime(events)) == multiset(events)
  {
    if events != [] {
      SortIsRight(events[1..]);
      assert events == [events[0]] + events[1..];
      InsertedIn(events[0], SortByTime(events[1..]));
      InsertKeepsOrder(events[0], SortByTime(events[1..]));
    }
  }

  /** The events with one timestamp, in order. */
  function Stamped(events: seq<Event>, t: int): seq<Event> {
    if events == [] then []
    else (if events[0].timestamp == t then [events[0]] else []) + Stamped(events[1..], t)
  }

  lemma {:induction false} InsertIsStable(e: Event, sorted: seq<Event>, t: int)
    requires Chronological(sorted)
    ensures Stamped(Insert(e, sorted), t) == (if e.timestamp == t then [e] else []) + Stamped(sorted, t)
  {
    if sorted == [] || e.timestamp <= sorted[0].timestamp {
      StampedPush(e, sorted, t);
    } else {
      InsertIsStable(e, sorted[1..], t);
      StampedPush(sorted[0], Insert(e, sorted[1..]), t);
      StampedPush(sorted[0], sorted[1..], t);
      assert sorted == [sorted[0]] + sorted[1..];
    }
  }

  lemma StampedPush(e: Event, events: seq<Event>, t: int)
    ensures Stamped([e] + events, t) == if e.timestamp == t then [e] + Stamped(events, t) else Stamped(events, t)
  {
    assert ([e] + events)[1..] == events;
  }

  /** Events with the same timestamp keep the order the query returned them in. */
  lemma {:induction false} SortIsStable(events: seq<Event>, t: int)
    ensures Stamped(SortByTime(events), t) == Stamped(events, t)
  {
    if events != [] {
      SortIsStable(events[1..], t);
      SortIsRight(events[1..]);
      InsertIsStable(events[0], SortByTime(events[1..]), t);
    }
  }

  /** A batch is the events after the cursor. */
  lemma BatchContents(events: seq<Event>, cursor: int)
    ensures forall e :: e in Batch(events, cursor) <==> e in events && e.timestamp > cursor
  {
    SortIsRight(Newer(events, cursor));
    assert forall e :: e in Batch(events, cursor) <==> e in multiset(Batch(events, cursor));
  }

  /** The cursor after a batch: the timestamp of its last event. */
  function CursorAfter(batch: seq<Event>): int
    requires batch != []
  {
    batch[|batch| - 1].timestamp
  }

  // ----- The protocol -----

  /**
   * A pass of a deliverer lists the subscription, then queries the log, then runs a callback session. `listed` holds the
   * cursors of the passes that have not queried yet, `inFlight` the batches whose session is running, and `delivered` what
   * subscribers have received so far, in order.
   */
  datatype State = State(
    log: seq<Event>,
    lastDeliveredAt: Option<int>,
    listed: seq<int>,
    inFlight: seq<seq<Event>>,
    delivered: seq<Event>
  )

  const INITIAL := State([], None, [], [], [])

  function Cursor(s: State): int {
    s.lastDeliveredAt.GetOr(0)
  }

  /** How a callback session ends: it succeeds and the cursor moves, it fails, or it succeeds but the update is lost. */
  datatype Ending = Acknowledged | Refused | Unrecorded

  /** The cursor moves only on success, to the end of the batch. */
  function Settled(lastDeliveredAt: Option<int>, batch: seq<Event>, ending: Ending): Option<int> {
    if ending.Acknowledged? && batch != [] then Some(CursorAfter(batch)) else lastDeliveredAt
  }

  /** A query may return the log's files, and so its events, in any order. */
  datatype Step =
    | Append(event: Event)
    | List
    | Begin(pass: nat, queried: seq<Event>)
    | End(which: nat, ending: Ending)

  ghost predicate Enabled(s: State, step: Step) {
    match step
    case Append(_) => true
    case List => true
    case Begin(pass, queried) => pass < |s.listed| && multiset(queried) == multiset(s.log)
    case End(which, _) => which < |s.inFlight|
  }

  function Next(s: State, step: Step): State
    requires Enabled(s, step)
  {
    match step
    case Append(e) => s.(log := s.log + [e])
    case List => s.(listed := s.listed + [Cursor(s)])
    case Begin(k, queried) =>
      var batch := Batch(queried, s.listed[k]);
      s.(listed := s.listed[..k] + s.listed[k + 1..],
         inFlight := if batch == [] then s.inFlight else s.inFlight + [batch])
    case End(k, ending) =>
      var batch := s.inFlight[k];
      s.(inFlight := s.inFlight[..k] + s.inFlight[k + 1..],
         delivered := if ending.Refused? then s.delivered else s.delivered + batch,
         lastDeliveredAt := Settled(s.lastDeliveredAt, batch, ending))
  }

  ghost predicate Legal(s: State, steps: seq<Step>)
    decreases |steps|
  {
    steps == [] || (Enabled(s, steps[0]) && Legal(Next(s, steps[0]), steps[1..]))
  }

  ghost function Run(s: State, steps: seq<Step>): State
    requires Legal(s, steps)
    decreases |steps|
  {
    if steps == [] then s else Run(Next(s, steps[0]), steps[1..])
  }

  // ----- No loss, with any number of deliverers -----

  /** The clock is past every event already taken into a batch, and past every cursor read. */
  ghost predicate Fresh(s: State, e: Event) {
    && e.timestamp > Cursor(s)
    && (forall c | c in s.listed :: e.timestamp > c)
    && forall b | b in s.inFlight && b != [] :: e.timestamp > CursorAfter(b)
  }

  ghost predicate FreshAppends(s: State, steps: seq<Step>)
    requires Legal(s, steps)
    decreases |steps|
  {
    steps != [] ==>
      && (steps[0].Append? ==> Fresh(s, steps[0].event))
      && FreshAppends(Next(s, steps[0]), steps[1..])
  }

  /** `batch` reaches back to what has been delivered: nothing in the log up to its end is missing. */
  ghost predicate Covers(log: seq<Event>, batch: seq<Event>, delivered: seq<Event>)
    requires batch != []
  {
    forall e | e in log && e.timestamp <= CursorAfter(batch) :: e in batch || e in delivered
  }

  /** Every event stamped up to `cursor` has been delivered. */
  ghost predicate DeliveredUpTo(s: State, cursor: int) {
    forall e | e in s.log && e.timestamp <= cursor :: e in s.delivered
  }

  ghost predicate NothingMissed(s: State) {
    && DeliveredUpTo(s, Cursor(s))
    && (forall c | c in s.listed :: DeliveredUpTo(s, c))
    && (forall b | b in s.inFlight :: b != [] && Covers(s.log, b, s.delivered))
  }

  lemma SameContents(a: seq<Event>, b: seq<Event>)
    requires multiset(a) == multiset(b)
    ensures forall e :: e in a <==> e in b
  {
    assert forall e :: e in a <==> e in multiset(a);
    assert forall e :: e in b <==> e in multiset(b);
  }

  lemma BatchCovers(log: seq<Event>, queried: seq<Event>, cursor: int, delivered: seq<Event>)
    requires multiset(queried) == multiset(log)
    requires forall e | e in log && e.timestamp <= cursor :: e in delivered
    requires Batch(queried, cursor) != []
    ensures Covers(log, Batch(queried, cursor), delivered)
  {
    BatchContents(queried, cursor);
    SameContents(queried, log);
  }

  lemma BeginMissesNothing(s: State, k: nat, queried: seq<Event>)
    requires NothingMissed(s) && Enabled(s, Begin(k, queried))
    ensures NothingMissed(Next(s, Begin(k, queried)))
  {
    var s' := Next(s, Begin(k, queried));
    assert s.listed[k] in s.listed && DeliveredUpTo(s, s.listed[k]);
    if Batch(queried, s.listed[k]) != [] {
      BatchCovers(s.log, queried, s.listed[k], s.delivered);
    }
    forall c | c in s'.listed
      ensures DeliveredUpTo(s', c)
    {
      assert c in s.listed && DeliveredUpTo(s, c);
    }
  }

  lemma StepMissesNothing(s: State, step: Step)
    requires NothingMissed(s) && Enabled(s, step)
    requires step.Append? ==> Fresh(s, step.event)
    ensures NothingMissed(Next(s, step))
  {
    var s' := Next(s, step);
    if step.Begin? {
      BeginMissesNothing(s, step.pass, step.queried);
    } else {
      forall b | b in s'.inFlight
        ensures b != [] && Covers(s'.log, b, s'.delivered)
      {
        assert b in s.inFlight && Covers(s.log, b, s.delivered);
      }
      forall c | c in s'.listed
        ensures DeliveredUpTo(s', c)
      {
        assert c == Cursor(s) || c in s.listed;
        assert DeliveredUpTo(s, c);
      }
      if step.End? {
        var batch := s.inFlight[step.which];
        assert batch in s.inFlight && Covers(s.log, batch, s.delivered);
      }
    }
  }

  lemma {:induction false} RunMissesNothing(s: State, steps: seq<Step>)
    requires NothingMissed(s) && Legal(s, steps) && FreshAppends(s, steps)
    ensures NothingMissed(Run(s, steps))
    decreases |steps|
  {
    if steps != [] {
      StepMissesNothing(s, steps[0]);
      RunMissesNothing(Next(s, steps[0]), steps[1..]);
    }
  }

  /**
   * However many deliverers overlap, fail, or lose their update: every event at or below the cursor has reached the
   * subscriber, as long as events are stamped later than the batches already taken.
   */
  lemma NoEventSkipped(steps: seq<Step>)
    requires Legal(INITIAL, steps) && FreshAppends(INITIAL, steps)
    ensures var s := Run(INITIAL, steps);
            forall e | e in s.log && e !in s.delivered :: e.timestamp > Cursor(s)
  {
    RunMissesNothing(INITIAL, steps);
  }

  // ----- Exactly once and in order, with one deliverer -----

  /** No pass is under way. */
  predicate Idle(s: State) {
    s.listed == [] && s.inFlight == []
  }

  /** One pass at a time, whose update is never lost. */
  ghost predicate Careful(s: State, steps: seq<Step>)
    requires Legal(s, steps)
    decreases |steps|
  {
    steps != [] ==>
      && (steps[0].List? ==> Idle(s))
      && (steps[0].End? ==> !steps[0].ending.Unrecorded?)
      && Careful(Next(s, steps[0]), steps[1..])
  }

  /** The timestamp reached when the first `k` events have been delivered. */
  function Reached(log: seq<Event>, k: nat): int
    requires k <= |log|
  {
    if k == 0 then 0 else log[k - 1].timestamp
  }

  ghost predicate Follows(log: seq<Event>, k: nat, batch: seq<Event>) {
    batch != [] && k + |batch| <= |log| && batch == log[k..k + |batch|]
  }

  /** Everything delivered is a prefix of the log, the cursor is where it ends, and a batch in flight is what comes next. */
  ghost predicate InOrder(s: State) {
    && Increasing(s.log) && (forall e | e in s.log :: e.timestamp > 0)
    && |s.delivered| <= |s.log| && s.delivered == s.log[..|s.delivered|]
    && Cursor(s) == Reached(s.log, |s.delivered|)
    && |s.listed| + |s.inFlight| <= 1
    && (s.listed != [] ==> s.listed[0] == Cursor(s))
    && (s.inFlight != [] ==> Follows(s.log, |s.delivered|, s.inFlight[0]))
  }

  /** Appends carry strictly increasing, positive timestamps. */
  ghost predicate ClockAdvances(s: State, steps: seq<Step>)
    requires Legal(s, steps)
    decreases |steps|
  {
    steps != [] ==>
      && (steps[0].Append? ==> steps[0].event.timestamp > Reached(s.log, |s.log|))
      && ClockAdvances(Next(s, steps[0]), steps[1..])
  }

  lemma {:induction false} AllNewer(events: seq<Event>, cursor: int)
    requires forall e | e in events :: e.timestamp > cursor
    ensures Newer(events, cursor) == events
  {
    if events != [] {
      AllNewer(events[1..], cursor);
    }
  }

  lemma {:induction false} NewerThanPrefix(events: seq<Event>, k: nat, cursor: int)
    requires Increasing(events) && k <= |events|
    requires forall i | 0 <= i < k :: events[i].timestamp <= cursor
    requires forall i | k <= i < |events| :: events[i].timestamp > cursor
    ensures Newer(events, cursor) == events[k..]
  {
    if k == 0 {
      AllNewer(events, cursor);
    } else {
      NewerThanPrefix(events[1..], k - 1, cursor);
    }
  }

  /** Filtering keeps, of each event, all copies or none. */
  lemma {:induction false} NewerCount(a: seq<Event>, cursor: int, e: Event)
    ensures multiset(Newer(a, cursor))[e] == if e.timestamp > cursor then multiset(a)[e] else 0
  {
    if a != [] {
      NewerCount(a[1..], cursor, e);
      assert a == [a[0]] + a[1..];
    }
  }

  lemma NewerReordered(a: seq<Event>, b: seq<Event>, cursor: int)
    requires multiset(a) == multiset(b)
    ensures multiset(Newer(a, cursor)) == multiset(Newer(b, cursor))
  {
    forall e
      ensures multiset(Newer(a, cursor))[e] == multiset(Newer(b, cursor))[e]
    {
      NewerCount(a, cursor, e);
      NewerCount(b, cursor, e);
    }
  }

  lemma HeadCount(a: seq<Event>)
    requires a != []
    ensures multiset(a[1..]) == multiset(a) - multiset{a[0]}
  {
    assert a == [a[0]] + a[1..];
  }

  lemma SameLength(a: seq<Event>, b: seq<Event>)
    requires multiset(a) == multiset(b)
    ensures |a| == |b|
  {
    assert |multiset(a)| == |multiset(b)|;
  }

  lemma FromHeadAndTail(a: seq<Event>, b: seq<Event>)
    requires a != [] && b != [] && a[0] == b[0] && a[1..] == b[1..]
    ensures a == b
  {
    assert a == [a[0]] + a[1..];
    assert b == [b[0]] + b[1..];
  }

  lemma SameHead(a: seq<Event>, b: seq<Event>)
    requires a != [] && b != [] && multiset(a) == multiset(b) && Increasing(a) && Chronological(b)
    ensures a[0] == b[0]
  {
    SameContents(a, b);
    assert a[0] in b && b[0] in a;
    var i :| 0 <= i < |b| && b[i] == a[0];
    assert i > 0 ==> b[i] in b[1..];
    var j :| 0 <= j < |a| && a[j] == b[0];
  }

  lemma {:induction false} SortedIsUnique(a: seq<Event>, b: seq<Event>)
    requires multiset(a) == multiset(b) && Increasing(a) && Chronological(b)
    ensures a == b
  {
    SameLength(a, b);
    if a != [] {
      SameHead(a, b);
      assert multiset(a[1..]) == multiset(b[1..]) by {
        HeadCount(a);
        HeadCount(b);
      }
      SortedIsUnique(a[1..], b[1..]);
      FromHeadAndTail(a, b);
    }
  }

  /** On a log with increasing timestamps, a batch is what follows the cursor, whatever order the query returned. */
  lemma BatchIsSuffix(log: seq<Event>, queried: seq<Event>, k: nat, cursor: int)
    requires Increasing(log) && multiset(queried) == multiset(log) && k <= |log|
    requires forall i | 0 <= i < k :: log[i].timestamp <= cursor
    requires forall i | k <= i < |log| :: log[i].timestamp > cursor
    ensures Batch(queried, cursor) == log[k..]
  {
    NewerThanPrefix(log, k, cursor);
    NewerReordered(queried, log, cursor);
    SortIsRight(Newer(queried, cursor));
    SortedIsUnique(log[k..], Batch(queried, cursor));
  }

  lemma NextBatch(log: seq<Event>, k: nat, queried: seq<Event>)
    requires Increasing(log) && (forall e | e in log :: e.timestamp > 0) && k <= |log|
    requires multiset(queried) == multiset(log)
    ensures var batch := Batch(queried, Reached(log, k)); batch == [] || Follows(log, k, batch)
  {
    forall i | k <= i < |log|
      ensures log[i].timestamp > Reached(log, k)
    {
      assert log[i] in log;
    }
    BatchIsSuffix(log, queried, k, Reached(log, k));
    assert log[k..] == log[k..|log|];
  }

  lemma TakeMore(log: seq<Event>, k: nat, batch: seq<Event>)
    requires Follows(log, k, batch)
    ensures log[..k] + batch == log[..k + |batch|]
    ensures CursorAfter(batch) == Reached(log, k + |batch|)
  {
  }

  lemma AppendedLog(log: seq<Event>, e: Event)
    requires Increasing(log) && (forall x | x in log :: x.timestamp > 0) && e.timestamp > Reached(log, |log|)
    ensures Increasing(log + [e]) && forall x | x in log + [e] :: x.timestamp > 0
  {
    assert log != [] ==> log[|log| - 1] in log;
  }

  /** What was reached, and what followed, stays so as the log grows. */
  lemma AppendedPrefix(log: seq<Event>, e: Event, k: nat, batch: seq<Event>)
    requires k <= |log|
    ensures (log + [e])[..k] == log[..k] && Reached(log + [e], k) == Reached(log, k)
    ensures Follows(log, k, batch) ==> Follows(log + [e], k, batch)
  {
    if Follows(log, k, batch) {
      assert (log + [e])[k..k + |batch|] == log[k..k + |batch|];
    }
  }

  lemma AppendKeepsOrder(s: State, e: Event)
    requires InOrder(s) && e.timestamp > Reached(s.log, |s.log|)
    ensures InOrder(Next(s, Append(e)))
  {
    AppendedLog(s.log, e);
    AppendedPrefix(s.log, e, |s.delivered|, if s.inFlight == [] then [] else s.inFlight[0]);
  }

  lemma StepKeepsOrder(s: State, step: Step)
    requires InOrder(s) && Enabled(s, step)
    requires step.Append? ==> step.event.timestamp > Reached(s.log, |s.log|)
    requires step.List? ==> Idle(s)
    requires step.End? ==> !step.ending.Unrecorded?
    ensures InOrder(Next(s, step))
  {
    match step
    case Append(e) =>
      AppendKeepsOrder(s, e);
    case List =>
    case Begin(_, queried) =>
      NextBatch(s.log, |s.delivered|, queried);
    case End(k, ending) =>
      EndKeepsOrder(s, k, ending);
  }

  lemma EndKeepsOrder(s: State, k: nat, ending: Ending)
    requires InOrder(s) && Enabled(s, End(k, ending)) && !ending.Unrecorded?
    ensures InOrder(Next(s, End(k, ending)))
  {
    if ending.Acknowledged? {
      TakeMore(s.log, |s.delivered|, s.inFlight[0]);
    }
  }

  lemma {:induction false} RunKeepsOrder(s: State, steps: seq<Step>)
    requires InOrder(s) && Legal(s, steps) && Careful(s, steps) && ClockAdvances(s, steps)
    ensures InOrder(Run(s, steps))
    decreases |steps|
  {
    if steps != [] {
      StepKeepsOrder(s, steps[0]);
      RunKeepsOrder(Next(s, steps[0]), steps[1..]);
    }
  }

  /** One careful pass at a time and an advancing clock: what is delivered is a prefix of the log, so in order, without loss or duplicate. */
  lemma DeliveredIsPrefix(steps: seq<Step>)
    requires Legal(INITIAL, steps) && Careful(INITIAL, steps) && ClockAdvances(INITIAL, steps)
    ensures var s := Run(INITIAL, steps); s.delivered <= s.log
  {
    RunKeepsOrder(INITIAL, steps);
  }

  // ----- Where each hypothesis is needed -----

  /** Behind the cursor, undelivered, and in no batch. */
  ghost predicate Behind(s: State, e: Event) {
    && e.timestamp <= Cursor(s)
    && e !in s.delivered
    && (forall c | c in s.listed :: e.timestamp <= c)
    && (forall b | b in s.inFlight :: e !in b)
    && (forall b | b in s.inFlight && b != [] :: e.timestamp <= CursorAfter(b))
  }

  lemma StepLeavesBehind(s: State, step: Step, e: Event)
    requires Behind(s, e) && Enabled(s, step)
    ensures Behind(Next(s, step), e)
  {
    var s' := Next(s, step);
    match step
    case Append(_) =>
    case List =>
    case Begin(k, queried) =>
      var batch := Batch(queried, s.listed[k]);
      assert s.listed[k] in s.listed;
      BatchContents(queried, s.listed[k]);
      assert batch != [] ==> batch[|batch| - 1] in batch;
      assert forall c | c in s'.listed :: c in s.listed;
    case End(k, _) =>
      assert s.inFlight[k] in s.inFlight;
      forall b | b in s'.inFlight
        ensures b in s.inFlight
      {
      }
  }

  /** An event stamped at or below the cursor, such as two events in one millisecond with a delivery between them, is never delivered. */
  lemma {:induction false} LateEventIsLost(s: State, steps: seq<Step>, e: Event)
    requires Behind(s, e) && Legal(s, steps)
    ensures e !in Run(s, steps).delivered
    decreases |steps|
  {
    if steps != [] {
      StepLeavesBehind(s, steps[0], e);
      LateEventIsLost(Next(s, steps[0]), steps[1..], e);
    }
  }

  lemma RunStep(s: State, steps: seq<Step>)
    requires steps != [] && Enabled(s, steps[0]) && Legal(Next(s, steps[0]), steps[1..])
    ensures Legal(s, steps) && Run(s, steps) == Run(Next(s, steps[0]), steps[1..])
  {
  }

  /** Some continuation delivers the event. */
  ghost predicate CanDeliver(s: State, e: Event) {
    exists steps :: Legal(s, steps) && e in Run(s, steps).delivered
  }

  lemma CanDeliverAfter(s: State, step: Step, e: Event)
    requires Enabled(s, step) && CanDeliver(Next(s, step), e)
    ensures CanDeliver(s, e)
  {
    var steps :| Legal(Next(s, step), steps) && e in Run(Next(s, step), steps).delivered;
    assert ([step] + steps)[1..] == steps;
    RunStep(s, [step] + steps);
  }

  /** An event in a batch whose session is running is delivered if the session succeeds. */
  lemma InFlightIsDeliverable(s: State, k: nat, e: Event)
    requires k < |s.inFlight| && e in s.inFlight[k]
    ensures CanDeliver(s, e)
  {
    var s' := Next(s, End(k, Acknowledged));
    assert Legal(s', []) && e in Run(s', []).delivered;
    CanDeliverAfter(s, End(k, Acknowledged), e);
  }

  /** An event after the cursor a pass has listed is in the batch it will query. */
  lemma ListedIsDeliverable(s: State, k: nat, e: Event)
    requires k < |s.listed| && e in s.log && e.timestamp > s.listed[k]
    ensures CanDeliver(s, e)
  {
    var begin := Begin(k, s.log);
    BatchContents(s.log, s.listed[k]);
    InFlightIsDeliverable(Next(s, begin), |s.inFlight|, e);
    CanDeliverAfter(s, begin, e);
  }

  lemma NewerIsDeliverable(s: State, e: Event)
    requires e in s.log && e.timestamp > Cursor(s)
    ensures CanDeliver(s, e)
  {
    ListedIsDeliverable(Next(s, List), |s.listed|, e);
    CanDeliverAfter(s, List, e);
  }

  /**
   * An undelivered event of the log can still be delivered if and only if it is in a running batch, or stamped after the
   * cursor, after a cursor a pass has listed, or after the end of a running batch, to which the cursor may move back.
   */
  lemma {:induction false} DeliverableIff(s: State, e: Event)
    requires e in s.log && e !in s.delivered && forall b | b in s.inFlight :: b != []
    ensures CanDeliver(s, e) <==> !Behind(s, e)
  {
    if Behind(s, e) {
      forall steps | Legal(s, steps)
        ensures e !in Run(s, steps).delivered
      {
        LateEventIsLost(s, steps, e);
      }
    } else if e.timestamp > Cursor(s) {
      NewerIsDeliverable(s, e);
    } else if k :| 0 <= k < |s.listed| && e.timestamp > s.listed[k] {
      ListedIsDeliverable(s, k, e);
    } else if k :| 0 <= k < |s.inFlight| && e in s.inFlight[k] {
      InFlightIsDeliverable(s, k, e);
    } else {
      var b :| b in s.inFlight && e.timestamp > CursorAfter(b);
      var k :| 0 <= k < |s.inFlight| && s.inFlight[k] == b;
      NewerIsDeliverable(Next(s, End(k, Acknowledged)), e);
      CanDeliverAfter(s, End(k, Acknowledged), e);
    }
  }

  /** With no pass under way, a new event can ever be delivered if and only if it is stamped after the cursor. */
  lemma {:induction false} DeliverableIffAfterCursor(s: State, e: Event)
    requires Idle(s) && e !in s.delivered
    ensures CanDeliver(Next(s, Append(e)), e) <==> e.timestamp > Cursor(s)
  {
    DeliverableIff(Next(s, Append(e)), e);
  }

  /** Some continuation leaves the event at or below the cursor, undelivered. */
  ghost predicate CanSkip(s: State, e: Event) {
    exists steps :: Legal(s, steps) && e !in Run(s, steps).delivered && e.timestamp <= Cursor(Run(s, steps))
  }

  lemma CanSkipNow(s: State, e: Event)
    requires e !in s.delivered && e.timestamp <= Cursor(s)
    ensures CanSkip(s, e)
  {
    assert Legal(s, []) && Run(s, []) == s;
  }

  lemma CanSkipAfter(s: State, step: Step, e: Event)
    requires Enabled(s, step) && CanSkip(Next(s, step), e)
    ensures CanSkip(s, e)
  {
    var s' := Next(s, step);
    var steps :| Legal(s', steps) && e !in Run(s', steps).delivered && e.timestamp <= Cursor(Run(s', steps));
    assert ([step] + steps)[1..] == steps;
    RunStep(s, [step] + steps);
  }

  /** A running batch that ends after the event without holding it. */
  lemma BatchSkips(s: State, k: nat, e: Event)
    requires k < |s.inFlight| && s.inFlight[k] != [] && e !in s.inFlight[k] && e.timestamp <= CursorAfter(s.inFlight[k])
    requires e !in s.delivered
    ensures CanSkip(s, e)
  {
    CanSkipNow(Next(s, End(k, Acknowledged)), e);
    CanSkipAfter(s, End(k, Acknowledged), e);
  }

  /** A pass that listed a later cursor, once the log has an event after that. */
  lemma ListingSkips(s: State, k: nat, e: Event)
    requires k < |s.listed| && e.timestamp <= s.listed[k] && e !in s.delivered
    ensures CanSkip(s, e)
  {
    var x := Event(s.listed[k] + 1, "", "");
    var s1 := Next(s, Append(x));
    var begin := Begin(k, s1.log);
    var batch := Batch(s1.log, s.listed[k]);
    BatchContents(s1.log, s.listed[k]);
    assert x in s1.log && x in batch && batch[|batch| - 1] in batch;
    BatchSkips(Next(s1, begin), |s.inFlight|, e);
    CanSkipAfter(s1, begin, e);
    CanSkipAfter(s, Append(x), e);
  }

  /** Delivered, or ahead of the cursor, of every cursor listed and of every running batch that does not hold it. */
  ghost predicate Ahead(s: State, e: Event) {
    && e in s.log
    && (e in s.delivered
        || (&& e.timestamp > Cursor(s)
            && (forall c | c in s.listed :: e.timestamp > c)
            && forall b | b in s.inFlight && b != [] :: e in b || e.timestamp > CursorAfter(b)))
  }

  lemma StepKeepsAhead(s: State, step: Step, e: Event)
    requires Ahead(s, e) && Enabled(s, step)
    ensures Ahead(Next(s, step), e)
  {
    var s' := Next(s, step);
    match step
    case Append(_) =>
    case List =>
    case Begin(k, queried) =>
      BatchContents(queried, s.listed[k]);
      SameContents(queried, s.log);
      assert s.listed[k] in s.listed;
      assert forall c | c in s'.listed :: c in s.listed;
    case End(k, _) =>
      assert s.inFlight[k] in s.inFlight;
      assert forall b | b in s'.inFlight :: b in s.inFlight;
  }

  lemma {:induction false} AheadIsNotSkipped(s: State, steps: seq<Step>, e: Event)
    requires Ahead(s, e) && Legal(s, steps)
    ensures e in Run(s, steps).delivered || e.timestamp > Cursor(Run(s, steps))
    decreases |steps|
  {
    if steps != [] {
      StepKeepsAhead(s, steps[0], e);
      AheadIsNotSkipped(Next(s, steps[0]), steps[1..], e);
    }
  }

  /** A new event can be skipped, whatever happens next, if and only if its stamp is not past all that has been taken and read. */
  lemma {:induction false} SkippableIffNotFresh(s: State, e: Event)
    requires e !in s.delivered && forall b | b in s.inFlight :: b != [] && e !in b
    ensures CanSkip(Next(s, Append(e)), e) <==> !Fresh(s, e)
  {
    var s' := Next(s, Append(e));
    if Fresh(s, e) {
      forall steps | Legal(s', steps)
        ensures e in Run(s', steps).delivered || e.timestamp > Cursor(Run(s', steps))
      {
        AheadIsNotSkipped(s', steps, e);
      }
    } else if e.timestamp <= Cursor(s) {
      CanSkipNow(s', e);
    } else if k :| 0 <= k < |s.listed| && e.timestamp <= s.listed[k] {
      ListingSkips(s', k, e);
    } else {
      var b :| b in s.inFlight && e.timestamp <= CursorAfter(b);
      var k :| 0 <= k < |s.inFlight| && s.inFlight[k] == b;
      BatchSkips(s', k, e);
    }
  }

  // ----- Exactly when an event is delivered twice -----

  ghost predicate Repeats(events: seq<Event>) {
    exists i, j :: 0 <= i < j < |events| && events[i] == events[j]
  }

  lemma AppearsTwice(a: seq<Event>, b: seq<Event>, c: seq<Event>, e: Event)
    requires e in b && e in c
    ensures Repeats(a + b + c)
  {
    var i :| 0 <= i < |b| && b[i] == e;
    var j :| 0 <= j < |c| && c[j] == e;
    assert (a + b + c)[|a| + i] == (a + b + c)[|a| + |b| + j];
  }

  /** No step starts a pass. */
  predicate NoNewPass(steps: seq<Step>) {
    forall step | step in steps :: !step.List?
  }

  /** The passes under way can deliver some event twice, whatever is appended meanwhile, without another pass starting. */
  ghost predicate CanRepeat(s: State) {
    exists steps :: NoNewPass(steps) && Legal(s, steps) && ClockAdvances(s, steps) && Repeats(Run(s, steps).delivered)
  }

  lemma CanRepeatAfter(s: State, step: Step)
    requires Enabled(s, step) && !step.List? && CanRepeat(Next(s, step))
    requires step.Append? ==> step.event.timestamp > Reached(s.log, |s.log|)
    ensures CanRepeat(s)
  {
    var s' := Next(s, step);
    var steps :| NoNewPass(steps) && Legal(s', steps) && ClockAdvances(s', steps) && Repeats(Run(s', steps).delivered);
    assert ([step] + steps)[1..] == steps;
    RunStep(s, [step] + steps);
  }

  lemma CanRepeatNow(s: State)
    requires Repeats(s.delivered)
    ensures CanRepeat(s)
  {
    assert NoNewPass([]) && Legal(s, []) && ClockAdvances(s, []) && Run(s, []) == s;
  }

  /** Two batches in flight that share an event. */
  lemma SharedEventRepeats(s: State, e: Event)
    requires |s.inFlight| == 2 && e in s.inFlight[0] && e in s.inFlight[1]
    ensures CanRepeat(s)
  {
    var end := End(0, Acknowledged);
    var s1 := Next(s, end);
    var s2 := Next(s1, end);
    assert s1.inFlight == [s.inFlight[1]];
    AppearsTwice(s.delivered, s.inFlight[0], s.inFlight[1], e);
    CanRepeatNow(s2);
    CanRepeatAfter(s1, end);
    CanRepeatAfter(s, end);
  }

  /** The batch of a cursor at which delivery stands starts with the first undelivered event. */
  lemma BatchStartsUndelivered(log: seq<Event>, k: nat)
    requires Increasing(log) && (forall e | e in log :: e.timestamp > 0) && k < |log|
    ensures log[k] in Batch(log, Reached(log, k))
  {
    BatchContents(log, Reached(log, k));
    assert log[k] in log;
  }

  lemma OverlapRepeats(s: State)
    requires InOrder(s) && |s.delivered| < |s.log| && !Idle(s)
    ensures CanRepeat(Next(s, List))
  {
    var s1 := Next(s, List);
    var e := s.log[|s.delivered|];
    var begin := Begin(0, s.log);
    BatchStartsUndelivered(s.log, |s.delivered|);
    var s2 := Next(s1, begin);
    if s.listed != [] {
      assert s2.listed == [Cursor(s)];
      var s3 := Next(s2, begin);
      SharedEventRepeats(s3, e);
      CanRepeatAfter(s2, begin);
    } else {
      assert s.inFlight[0][0] == e;
      SharedEventRepeats(s2, e);
    }
    CanRepeatAfter(s1, begin);
  }

  /** The same with nothing left to deliver: an event may still come before the log is queried. */
  lemma OverlapRepeatsLater(s: State)
    requires InOrder(s) && |s.delivered| == |s.log| && !Idle(s)
    ensures CanRepeat(Next(s, List))
  {
    var append := Append(Event(Reached(s.log, |s.log|) + 1, "", ""));
    AppendKeepsOrder(s, append.event);
    OverlapRepeats(Next(s, append));
    assert Next(Next(s, List), append) == Next(Next(s, append), List);
    CanRepeatAfter(Next(s, List), append);
  }

  /** At most one pass is under way, or it has just ended. */
  ghost predicate OnePass(s: State) {
    && Increasing(s.log) && (forall e | e in s.log :: e.timestamp > 0)
    && |s.delivered| <= |s.log| && s.delivered == s.log[..|s.delivered|]
    && (Idle(s) || InOrder(s))
  }

  lemma AppendKeepsOnePass(s: State, e: Event)
    requires OnePass(s) && e.timestamp > Reached(s.log, |s.log|)
    ensures OnePass(Next(s, Append(e)))
  {
    if InOrder(s) {
      AppendKeepsOrder(s, e);
    } else {
      assert (s.log + [e])[..|s.delivered|] == s.log[..|s.delivered|];
      assert s.log != [] ==> s.log[|s.log| - 1] in s.log;
    }
  }

  lemma StepKeepsOnePass(s: State, step: Step)
    requires OnePass(s) && Enabled(s, step) && !step.List?
    requires step.Append? ==> step.event.timestamp > Reached(s.log, |s.log|)
    ensures OnePass(Next(s, step))
  {
    if step.Append? {
      AppendKeepsOnePass(s, step.event);
    } else if step.End? && step.ending.Unrecorded? {
      TakeMore(s.log, |s.delivered|, s.inFlight[0]);
    } else {
      StepKeepsOrder(s, step);
    }
  }

  lemma {:induction false} OnePassRepeatsNothing(s: State, steps: seq<Step>)
    requires OnePass(s) && NoNewPass(steps) && Legal(s, steps) && ClockAdvances(s, steps)
    ensures !Repeats(Run(s, steps).delivered)
    decreases |steps|
  {
    if steps == [] {
      var k := |s.delivered|;
      assert forall i | 0 <= i < k :: s.delivered[i] == s.log[i];
    } else {
      assert steps[0] in steps;
      StepKeepsOnePass(s, steps[0]);
      OnePassRepeatsNothing(Next(s, steps[0]), steps[1..]);
    }
  }

  /** A pass that starts can lead to an event delivered twice, before any other pass starts, if and only if one is under way. */
  lemma {:induction false} OverlapDuplicatesIff(s: State)
    requires InOrder(s)
    ensures CanRepeat(Next(s, List)) <==> !Idle(s)
  {
    if Idle(s) {
      forall steps | NoNewPass(steps) && Legal(Next(s, List), steps) && ClockAdvances(Next(s, List), steps)
        ensures !Repeats(Run(Next(s, List), steps).delivered)
      {
        OnePassRepeatsNothing(Next(s, List), steps);
      }
    } else if |s.delivered| < |s.log| {
      OverlapRepeats(s);
    } else {
      OverlapRepeatsLater(s);
    }
  }

  /** After a session has ended, the next pass alone can deliver an event again if and only if the update was lost. */
  lemma {:induction false} LostUpdateDuplicatesIff(s: State, ending: Ending)
    requires InOrder(s) && s.inFlight != []
    ensures CanRepeat(Next(Next(s, End(0, ending)), List)) <==> ending.Unrecorded?
  {
    var s1 := Next(s, End(0, ending));
    var s2 := Next(s1, List);
    if ending.Unrecorded? {
      LostUpdateRepeats(s);
    } else {
      StepKeepsOrder(s, End(0, ending));
      forall steps | NoNewPass(steps) && Legal(s2, steps) && ClockAdvances(s2, steps)
        ensures !Repeats(Run(s2, steps).delivered)
      {
        OnePassRepeatsNothing(s2, steps);
      }
    }
  }

  lemma LostUpdateRepeats(s: State)
    requires InOrder(s) && s.inFlight != []
    ensures CanRepeat(Next(Next(s, End(0, Unrecorded)), List))
  {
    var k := |s.delivered|;
    var s1 := Next(s, End(0, Unrecorded));
    var s2 := Next(s1, List);
    var begin, end := Begin(0, s.log), End(0, Acknowledged);
    var s3 := Next(s2, begin);
    BatchStartsUndelivered(s.log, k);
    var s4 := Next(s3, end);
    assert s.inFlight[0][0] == s.log[k];
    AppearsTwice(s.delivered, s.inFlight[0], Batch(s.log, Cursor(s)), s.log[k]);
    CanRepeatNow(s4);
    CanRepeatAfter(s3, end);
    CanRepeatAfter(s2, begin);
  }

  /** From the start: an event, two passes that list the subscription before either delivers, and the event arrives twice. */
  lemma OverlapDuplicates(e: Event)
    requires e.timestamp > 0
    ensures var steps := [Append(e), List, List];
            Legal(INITIAL, steps) && CanRepeat(Run(INITIAL, steps))
  {
    var s1 := Next(INITIAL, Append(e));
    var s2 := Next(s1, List);
    var s3 := Next(s2, List);
    assert s1.log == [e];
    RunStep(s2, [List]);
    RunStep(s1, [List, List]);
    RunStep(INITIAL, [Append(e), List, List]);
    OverlapDuplicatesIff(s2);
  }

  // ----- The delivery loop -----

  /** One subscriber's turn: what the query returned and how the callback session ended. */
  datatype Turn = Turn(subscription: string, queried: seq<Event>, ending: Ending)

  function CursorAfterTurn(lastDeliveredAt: Option<int>, turn: Turn): Option<int> {
    Settled(lastDeliveredAt, Batch(turn.queried, lastDeliveredAt.GetOr(0)), turn.ending)
  }

  /** A turn is the rest of a pass: it queries with the cursor listed, and ends the batch it takes. */
  lemma TurnIsBeginThenEnd(s: State, turn: Turn)
    requires s.listed == [Cursor(s)] && s.inFlight == [] && multiset(turn.queried) == multiset(s.log)
    requires Batch(turn.queried, Cursor(s)) != []
    ensures var s' := Next(s, Begin(0, turn.queried));
            && Enabled(s', End(0, turn.ending))
            && Next(s', End(0, turn.ending)).lastDeliveredAt == CursorAfterTurn(s.lastDeliveredAt, turn)
  {
    var s' := Next(s, Begin(0, turn.queried));
    assert s'.inFlight[0] == Batch(turn.queried, Cursor(s));
  }

  /** The cursors after the turns: each is computed from the snapshot listed at the start, and written when it moves. */
  function AfterTurns(snapshot: map<string, Option<int>>, turns: seq<Turn>): (r: map<string, Option<int>>)
    requires forall t | t in turns :: t.subscription in snapshot
    ensures r.Keys == snapshot.Keys
  {
    if turns == [] then snapshot
    else
      var before := AfterTurns(snapshot, turns[..|turns| - 1]);
      var turn := turns[|turns| - 1];
      var cursor := snapshot[turn.subscription];
      if turn.ending.Acknowledged? && Batch(turn.queried, cursor.GetOr(0)) != [] then
        before[turn.subscription := CursorAfterTurn(cursor, turn)]
      else
        before
  }

  /** With distinct subscriptions, each cursor moves by its own turn only, and the others stay. */
  lemma {:induction false} TurnsAreIndependent(snapshot: map<string, Option<int>>, turns: seq<Turn>, id: string)
    requires id in snapshot && forall t | t in turns :: t.subscription in snapshot
    requires forall i, j | 0 <= i < j < |turns| :: turns[i].subscription != turns[j].subscription
    ensures forall t | t in turns && t.subscription == id :: AfterTurns(snapshot, turns)[id] == CursorAfterTurn(snapshot[id], t)
    ensures (forall t | t in turns :: t.subscription != id) ==> AfterTurns(snapshot, turns)[id] == snapshot[id]
  {
    if turns != [] {
      var earlier := turns[..|turns| - 1];
      TurnsAreIndependent(snapshot, earlier, id);
      assert forall t | t in turns :: t in earlier || t == turns[|turns| - 1];
    }
  }

  class SubscriptionStore {
    var lastDeliveredAt: map<string, Option<int>>

    /** One pass over a task's subscribers. */
    method DeliverAllGranularityCallbacks(turns: seq<Turn>)
      requires forall t | t in turns :: t.subscription in lastDeliveredAt
      modifies this
      ensures lastDeliveredAt == AfterTurns(old(lastDeliveredAt), turns)
    {
      var snapshot := lastDeliveredAt;
      for k := 0 to |turns|
        invariant lastDeliveredAt == AfterTurns(snapshot, turns[..k])
      {
        var turn := turns[k];
        assert turns[..k + 1][..k] == turns[..k];
        var newEvents := Batch(turn.queried, snapshot[turn.subscription].GetOr(0));
        if newEvents == [] {
          continue;
        }
        if turn.ending.Acknowledged? {
          lastDeliveredAt := lastDeliveredAt[turn.subscription := Some(CursorAfter(newEvents))];
        }
      }
      assert turns[..|turns|] == turns;
    }
  }
}
