/** The shape shared by the two allow-list guards of the state managers:
    every request read in one step is checked against the allow-list of the
    state that is committed at the start of the step, and each accepted
    request overwrites the pending next state. */
module Guard {

  import opened Wrappers

  /** No request of the queue is in the allow-list. */
  ghost predicate NoneAccepted<T>(allowed: seq<T>, requests: seq<T>)
  {
    forall i :: 0 <= i < |requests| ==> requests[i] !in allowed
  }

  /** `t` is the target of an accepted request after which no request is accepted. */
  ghost predicate IsLastAccepted<T>(allowed: seq<T>, requests: seq<T>, t: T)
  {
    exists i :: 0 <= i < |requests| && requests[i] == t && t in allowed &&
      forall j :: i < j < |requests| ==> requests[j] !in allowed
  }

  /** What reading a queue does to the pending slot: unchanged when nothing
      is accepted, otherwise the last accepted target. */
  ghost predicate Reads<T>(allowed: seq<T>, requests: seq<T>, pending: Option<T>, r: Option<T>)
  {
    && (NoneAccepted(allowed, requests) ==> r == pending)
    && (!NoneAccepted(allowed, requests) ==> r.Some? && IsLastAccepted(allowed, requests, r.value))
  }

  /** The pending next state after reading `requests` in order, starting from
      the pending value `pending` that the step found. */
  function Apply<T(==)>(allowed: seq<T>, requests: seq<T>, pending: Option<T>): (r: Option<T>)
    ensures Reads(allowed, requests, pending, r)
    decreases |requests|
  {
    if |requests| == 0 then pending
    else
      var head := requests[0];
      var r := Apply(allowed, requests[1..], if head in allowed then Some(head) else pending);
      ReadsHead(allowed, requests, pending, r);
      r
  }

  /** Reading a non-empty queue is reading its head, then its tail. */
  lemma ReadsHead<T>(allowed: seq<T>, requests: seq<T>, pending: Option<T>, r: Option<T>)
    requires |requests| > 0
    requires Reads(allowed, requests[1..], if requests[0] in allowed then Some(requests[0]) else pending, r)
    ensures Reads(allowed, requests, pending, r)
  {
    var head, tail := requests[0], requests[1..];
    assert forall i :: 0 <= i < |tail| ==> tail[i] == requests[i + 1];
    if NoneAccepted(allowed, tail) {
      if head in allowed {
        forall j | 0 < j < |requests| ensures requests[j] !in allowed {
          assert requests[j] == tail[j - 1];
        }
        assert IsLastAccepted(allowed, requests, head);
      }
    } else {
      var i :| 0 <= i < |tail| && tail[i] == r.value && r.value in allowed &&
        forall j :: i < j < |tail| ==> tail[j] !in allowed;
      assert requests[i + 1] == r.value;
      forall j | i + 1 < j < |requests| ensures requests[j] !in allowed {
        assert requests[j] == tail[j - 1];
      }
      assert !NoneAccepted(allowed, requests) by { assert requests[i + 1] in allowed; }
    }
  }
}
