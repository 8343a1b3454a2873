/**
 * The deletion pass: one delete request per confirmed candidate, in order,
 * with a tally of successes and failures. A refused request is counted and
 * the pass goes on; a request whose transport raises ends the run, because
 * the error handler then reads a `response` that was never bound.
 */
module Deletion {
  import opened Wrappers
  import opened Json
  import opened Selection

  /** How one delete request ends. */
  datatype Answer =
    | Accepted   // any final status below 400: `raise_for_status` is silent and the request reports success
    | Refused    // an error status: `raise_for_status` raises, the handler reports failure
    | Raised     // `requests.delete` itself raises: the handler's `response is not None` raises UnboundLocalError, which nothing catches

  /** The server's answer to a delete request for `id`, given the ids whose deletion was requested before it. */
  type Reply = (seq<Value>, Value) -> Answer

  /** The internal ids of the candidates, in order. */
  function IdsOf(candidates: seq<Candidate>): seq<Value>
  {
    seq(|candidates|, k requires 0 <= k < |candidates| => candidates[k].idForApis)
  }

  /** The number of the first `n` requests in `ids` that the server accepts. */
  function Successes(accepts: Reply, ids: seq<Value>, n: nat): nat
    requires n <= |ids|
  {
    if n == 0 then 0
    else Successes(accepts, ids, n - 1) + (if accepts(ids[..n - 1], ids[n - 1]).Accepted? then 1 else 0)
  }

  /** The positions among the first `n` requests that do not succeed. */
  function Failures(accepts: Reply, ids: seq<Value>, n: nat): set<nat>
    requires n <= |ids|
  {
    set i: nat | i < n && !accepts(ids[..i], ids[i]).Accepted?
  }

  /** The unsuccessful requests are counted exactly: each one is a failure, and nothing else is. */
  lemma {:induction false} FailuresCounted(accepts: Reply, ids: seq<Value>, n: nat)
    requires n <= |ids|
    ensures n - Successes(accepts, ids, n) == |Failures(accepts, ids, n)|
  {
    if n > 0 {
      FailuresCounted(accepts, ids, n - 1);
      var before := Failures(accepts, ids, n - 1);
      if accepts(ids[..n - 1], ids[n - 1]).Accepted? {
        assert Failures(accepts, ids, n) == before;
      } else {
        assert Failures(accepts, ids, n) == before + {n - 1};
        assert n - 1 !in before;
      }
    }
  }

  /** The first request at or after `from` whose transport raises. */
  function FirstRaised(accepts: Reply, ids: seq<Value>, from: nat): (r: Option<nat>)
    requires from <= |ids|
    decreases |ids| - from
    ensures r.Some? ==> from <= r.value < |ids| && accepts(ids[..r.value], ids[r.value]).Raised?
    ensures r.Some? ==> forall j :: from <= j < r.value ==> !accepts(ids[..j], ids[j]).Raised?
    ensures r.None? ==> forall j :: from <= j < |ids| ==> !accepts(ids[..j], ids[j]).Raised?
  {
    if from == |ids| then None
    else if accepts(ids[..from], ids[from]).Raised? then Some(from)
    else FirstRaised(accepts, ids, from + 1)
  }

  /** The number of requests that get an answer: all of them, or those before the one that raises. */
  function Answered(accepts: Reply, ids: seq<Value>): (n: nat)
    ensures n <= |ids|
  {
    match FirstRaised(accepts, ids, 0)
    case Some(k) => k
    case None => |ids|
  }

  lemma FirstRaisedAt(accepts: Reply, ids: seq<Value>, i: nat)
    requires i < |ids| && accepts(ids[..i], ids[i]).Raised?
    requires forall j :: 0 <= j < i ==> !accepts(ids[..j], ids[j]).Raised?
    ensures FirstRaised(accepts, ids, 0) == Some(i) && Answered(accepts, ids) == i
  {
  }

  lemma NoneRaised(accepts: Reply, ids: seq<Value>)
    requires forall j :: 0 <= j < |ids| ==> !accepts(ids[..j], ids[j]).Raised?
    ensures FirstRaised(accepts, ids, 0) == None && Answered(accepts, ids) == |ids|
  {
  }

  /**
   * The deletion loop: candidates are requested one at a time, in list
   * order, each answer incrementing exactly one of the two counters, until
   * a request raises. `raised` names that request; it was attempted (it
   * may not have reached the server), and the tally is never reached.
   */
  method DeleteAll(accepts: Reply, candidates: seq<Candidate>)
    returns (deleted: nat, failed: nat, attempted: seq<Value>, raised: Option<nat>)
    ensures raised == FirstRaised(accepts, IdsOf(candidates), 0)
    ensures raised.None? ==> attempted == IdsOf(candidates)
    ensures raised.Some? ==> attempted == IdsOf(candidates)[..raised.value + 1]
    ensures deleted == Successes(accepts, IdsOf(candidates), Answered(accepts, IdsOf(candidates)))
    ensures deleted + failed == Answered(accepts, IdsOf(candidates))
    ensures failed == |Failures(accepts, IdsOf(candidates), Answered(accepts, IdsOf(candidates)))|
  {
    deleted, failed, attempted, raised := 0, 0, [], None;
    ghost var ids := IdsOf(candidates);
    ghost var answered := |candidates|;
    for i := 0 to |candidates|
      invariant raised.None?
      invariant attempted == ids[..i]
      invariant forall j :: 0 <= j < i ==> !accepts(ids[..j], ids[j]).Raised?
      invariant deleted == Successes(accepts, ids, i)
      invariant deleted + failed == i
    {
      var id := candidates[i].idForApis;
      var answer := accepts(attempted, id);
      attempted := attempted + [id];
      if answer.Raised? {
        FirstRaisedAt(accepts, ids, i);
        raised, answered := Some(i), i;
        break;
      }
      if answer.Accepted? {
        deleted := deleted + 1;
      } else {
        failed := failed + 1;
      }
    }
    if raised.None? {
      assert attempted == ids;
      NoneRaised(accepts, ids);
    }
    FailuresCounted(accepts, ids, answered);
  }
}
