/**
 * Ordered endpoint fallback: try each configured endpoint in turn, keep the
 * first that succeeds, and otherwise keep the error of the last attempt. The
 * ActiveMQ adapter uses it to dial its broker URLs and to reach its console
 * URLs for the queue census.
 */
module Fallback {
  import opened Wrappers

  /** The outcome of one attempt against one endpoint. */
  datatype Attempt<+T> = Success(value: T) | Failure(error: string)

  /**
   * The index of the endpoint the loop stops at when it starts at `i`: the
   * first success from `i` on, or the last endpoint when all of them fail.
   */
  function LastTriedFrom<T>(endpoints: seq<string>, attempt: string -> Attempt<T>, i: nat): (k: nat)
    requires i < |endpoints|
    ensures i <= k < |endpoints|
    ensures forall j :: i <= j < k ==> attempt(endpoints[j]).Failure?
    ensures attempt(endpoints[k]).Success? || k == |endpoints| - 1
    decreases |endpoints| - i
  {
    if attempt(endpoints[i]).Success? || i == |endpoints| - 1 then i
    else LastTriedFrom(endpoints, attempt, i + 1)
  }

  /** The outcome the loop keeps: None when there is nothing to try. */
  function FirstSuccess<T>(endpoints: seq<string>, attempt: string -> Attempt<T>): (r: Option<Attempt<T>>)
    ensures |endpoints| == 0 <==> r.None?
    ensures r.Some? && r.value.Failure? ==>
      r.value == attempt(endpoints[|endpoints| - 1]) &&
      forall j :: 0 <= j < |endpoints| ==> attempt(endpoints[j]).Failure?
    ensures r.Some? && r.value.Success? ==>
      exists j :: 0 <= j < |endpoints| && r.value == attempt(endpoints[j]) &&
        forall i :: 0 <= i < j ==> attempt(endpoints[i]).Failure?
  {
    if |endpoints| == 0 then None
    else
      var k := LastTriedFrom(endpoints, attempt, 0);
      Some(attempt(endpoints[k]))
  }

  /**
   * The loop `for _, u := range endpoints { r, err = attempt(u); if err == nil { break } }`.
   * `r` is None when there was nothing to try (both results stay nil). Otherwise
   * `last` is the index of the last endpoint tried and `r` its outcome: the first
   * success, or the last failure when every endpoint failed.
   */
  method TryInOrder<T>(endpoints: seq<string>, attempt: string -> Attempt<T>) returns (r: Option<Attempt<T>>, last: nat)
    ensures r == FirstSuccess(endpoints, attempt)
    ensures r.Some? ==> last == LastTriedFrom(endpoints, attempt, 0)
  {
    r, last := None, 0;
    var i := 0;
    while i < |endpoints|
      invariant 0 <= i <= |endpoints|
      invariant i == 0 <==> r.None?
      invariant r.Some? ==> last == i - 1 && r.value == attempt(endpoints[last])
      invariant forall j :: 0 <= j < i ==> attempt(endpoints[j]).Failure?
    {
      var outcome := attempt(endpoints[i]);
      r, last := Some(outcome), i;
      if outcome.Success? {
        return;
      }
      i := i + 1;
    }
  }
}
