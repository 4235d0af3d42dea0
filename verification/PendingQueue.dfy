/** Pending requests in insertion order, as a JavaScript Map keeps them: what both IPC queues search. */
module PendingQueue {
  import opened Wrappers

  type Id = nat

  datatype Request<P> = Request(id: Id, payload: P)

  function PendingIds<P(==)>(pending: seq<Request<P>>): set<Id> {
    set r | r in pending :: r.id
  }

  /** Position of the first request that is not claimed; the length when there is none. */
  function FirstUnclaimed<P(==)>(pending: seq<Request<P>>, claimed: set<Id>): (i: nat)
    ensures i <= |pending|
    ensures i < |pending| ==> pending[i].id !in claimed
    ensures forall j | 0 <= j < i :: pending[j].id in claimed
  {
    if pending == [] || pending[0].id !in claimed then 0 else 1 + FirstUnclaimed(pending[1..], claimed)
  }

  /** Position of the request with an id; the length when there is none. */
  function Find<P(==)>(pending: seq<Request<P>>, id: Id): (i: nat)
    ensures i <= |pending|
    ensures i < |pending| ==> pending[i].id == id
    ensures forall j | 0 <= j < i :: pending[j].id != id
  {
    if pending == [] || pending[0].id == id then 0 else 1 + Find(pending[1..], id)
  }

  /** The list lost the request `r` and nothing else, or nothing at all. */
  ghost predicate Removed<P>(before: seq<Request<P>>, after: seq<Request<P>>, r: Option<Request<P>>) {
    if r.None? then after == before
    else exists i | 0 <= i < |before| :: before[i] == r.value && after == before[..i] + before[i + 1..]
  }

  /** A request `r` moved from pending to claimed, or nothing changed. */
  ghost predicate HandedOut<P>(pending: seq<Request<P>>, claimed: set<Id>, pending': seq<Request<P>>, claimed': set<Id>,
                               r: Option<Request<P>>) {
    Removed(pending, pending', r) && claimed' == claimed + if r.Some? then {r.value.id} else {}
  }

  lemma FindPresent<P>(pending: seq<Request<P>>, id: Id)
    ensures Find(pending, id) < |pending| <==> id in PendingIds(pending)
  {
    if id in PendingIds(pending) {
      var r :| r in pending && r.id == id;
      var j :| 0 <= j < |pending| && pending[j] == r;
    }
  }
}
