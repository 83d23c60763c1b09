/** The candidate-read circuit breaker (internal/clients/dualclient/circuitbreaker.go).

    The breaker is a small mutable object; its meaning is a pure function of the history of
    calls made on it.  Every method holds the breaker's mutex for its whole body, so a
    concurrent execution is some sequence of calls, and the clock is read inside the lock. */
module CircuitBreakers {
  import opened Wrappers

  const DEFAULT_THRESHOLD := 5
  const DEFAULT_BACKOFF := 60_000_000_000 // nanoseconds

  datatype Call = Success | Failure(at: int) | Query(at: int)

  /** Failures recorded since the last success. */
  function TrailingFailures(h: seq<Call>): nat {
    if h == [] then 0
    else
      match h[|h| - 1]
      case Success => 0
      case Failure(_) => TrailingFailures(h[..|h| - 1]) + 1
      case Query(_) => TrailingFailures(h[..|h| - 1])
  }

  function LastFailure(h: seq<Call>): int
    requires TrailingFailures(h) > 0
  {
    match h[|h| - 1]
    case Failure(at) => at
    case Query(_) => LastFailure(h[..|h| - 1])
  }

  /** The breaker's meaning: candidate reads are suppressed at time t. */
  predicate Suppressed(h: seq<Call>, threshold: nat, backoff: int, t: int)
    requires threshold > 0
  {
    TrailingFailures(h) >= threshold && t <= LastFailure(h) + backoff
  }

  /** No call in the history was made later than t (a monotone clock). */
  predicate NotAfter(h: seq<Call>, t: int) {
    forall i :: 0 <= i < |h| && !h[i].Success? ==> h[i].at <= t
  }

  /** Some query since the last failure already found the backoff window over. */
  predicate SeenExpired(h: seq<Call>, backoff: int)
    requires TrailingFailures(h) > 0
  {
    h[|h| - 1].Query? &&
    (h[|h| - 1].at > LastFailure(h) + backoff || SeenExpired(h[..|h| - 1], backoff))
  }

  lemma {:induction false} SeenExpiredIsOver(h: seq<Call>, backoff: int, t: int)
    requires TrailingFailures(h) > 0 && SeenExpired(h, backoff) && NotAfter(h, t)
    ensures t > LastFailure(h) + backoff
  {
    if h[|h| - 1].at <= LastFailure(h) + backoff {
      SeenExpiredIsOver(h[..|h| - 1], backoff, t);
    }
  }

  class CircuitBreaker {
    const threshold: nat
    const backoff: int
    var consecutiveFailures: nat
    var openUntil: Option<int>
    ghost var history: seq<Call>

    ghost predicate Valid()
      reads this
    {
      && threshold > 0 && backoff > 0
      && consecutiveFailures == TrailingFailures(history)
      && (consecutiveFailures < threshold ==> openUntil == None)
      && (consecutiveFailures >= threshold ==>
            || openUntil == Some(LastFailure(history) + backoff)
            || (openUntil == None && SeenExpired(history, backoff)))
    }

    constructor (threshold: int, backoff: int)
      ensures Valid() && history == []
      ensures this.threshold == if threshold <= 0 then DEFAULT_THRESHOLD else threshold
      ensures this.backoff == if backoff <= 0 then DEFAULT_BACKOFF else backoff
    {
      this.threshold := if threshold <= 0 then DEFAULT_THRESHOLD else threshold;
      this.backoff := if backoff <= 0 then DEFAULT_BACKOFF else backoff;
      consecutiveFailures := 0;
      openUntil := None;
      history := [];
    }

    method RecordSuccess()
      requires Valid()
      modifies this
      ensures Valid() && history == old(history) + [Success]
    {
      consecutiveFailures := 0;
      openUntil := None;
      history := history + [Success];
    }

    /** Returns true on every failure at or above the threshold, not only on the first one. */
    method RecordFailure(now: int) returns (tripped: bool)
      requires Valid()
      modifies this
      ensures Valid() && history == old(history) + [Failure(now)]
      ensures tripped == (TrailingFailures(history) >= threshold)
    {
      ghost var before := history;
      consecutiveFailures := consecutiveFailures + 1;
      history := history + [Failure(now)];
      assert history[..|history| - 1] == before;
      if consecutiveFailures >= threshold {
        openUntil := Some(now + backoff);
        return true;
      }
      return false;
    }

    /** The clearing write below is invisible: the answer is the pure function of the history. */
    method IsOpen(now: int) returns (open: bool)
      requires Valid() && NotAfter(history, now)
      modifies this
      ensures Valid() && history == old(history) + [Query(now)]
      ensures open == Suppressed(old(history), threshold, backoff, now)
    {
      ghost var before := history;
      history := history + [Query(now)];
      assert history[..|history| - 1] == before;
      if openUntil.None? {
        if consecutiveFailures >= threshold {
          SeenExpiredIsOver(before, backoff, now);
        }
        return false;
      }
      if now > openUntil.value {
        openUntil := None;
        return false;
      }
      return true;
    }

    method FailureCount() returns (n: nat)
      requires Valid()
      ensures n == TrailingFailures(history)
    {
      n := consecutiveFailures;
    }
  }

  function CountFailures(h: seq<Call>): nat {
    if h == [] then 0
    else CountFailures(h[..|h| - 1]) + if h[|h| - 1].Failure? then 1 else 0
  }

  /** TrailingFailures against an independent reading: split the history after its last success;
      the failures of the second part are the run, and the last of them is LastFailure. */
  lemma {:induction false} TrailingRun(h: seq<Call>) returns (cut: nat)
    ensures cut <= |h|
    ensures cut > 0 ==> h[cut - 1].Success?
    ensures forall i :: cut <= i < |h| ==> !h[i].Success?
    ensures CountFailures(h[cut..]) == TrailingFailures(h)
    ensures TrailingFailures(h) > 0 ==>
              exists i :: cut <= i < |h| && h[i] == Failure(LastFailure(h)) && forall j :: i < j < |h| ==> h[j].Query?
  {
    if h == [] || h[|h| - 1].Success? {
      return |h|;
    }
    var front := h[..|h| - 1];
    cut := TrailingRun(front);
    assert h[cut..][..|h[cut..]| - 1] == front[cut..] && h[cut..][|h[cut..]| - 1] == h[|h| - 1];
    if h[|h| - 1].Failure? {
      assert h[|h| - 1] == Failure(LastFailure(h));
    } else if TrailingFailures(h) > 0 {
      var i :| cut <= i < |front| && front[i] == Failure(LastFailure(front)) &&
               forall j :: i < j < |front| ==> front[j].Query?;
      assert h[i] == Failure(LastFailure(h));
    }
  }

  /** Asking never changes a later answer, wherever the question sits in the history. */
  lemma {:induction false} QueriesAreInvisible(before: seq<Call>, q: int, after: seq<Call>)
    ensures TrailingFailures(before + [Query(q)] + after) == TrailingFailures(before + after)
    ensures TrailingFailures(before + after) > 0 ==>
              LastFailure(before + [Query(q)] + after) == LastFailure(before + after)
    ensures forall threshold: nat, backoff, t :: threshold > 0 ==>
              Suppressed(before + [Query(q)] + after, threshold, backoff, t) ==
              Suppressed(before + after, threshold, backoff, t)
  {
    var long, short := before + [Query(q)] + after, before + after;
    if after == [] {
      assert long[..|long| - 1] == before && short == before;
    } else {
      var init := after[..|after| - 1];
      QueriesAreInvisible(before, q, init);
      assert long[..|long| - 1] == before + [Query(q)] + init;
      assert short[..|short| - 1] == before + init;
    }
  }

  /** Once a read is let through, every later question is answered "not open" until the next
      failure, not just one of them. */
  lemma {:induction false} StaysHalfOpenUntilFailure(h: seq<Call>, more: seq<Call>, threshold: nat, backoff: int,
                                                     t: int, later: int)
    requires threshold > 0 && t <= later
    requires !Suppressed(h, threshold, backoff, t)
    requires forall i :: 0 <= i < |more| ==> !more[i].Failure?
    ensures !Suppressed(h + more, threshold, backoff, later)
  {
    if more == [] {
      assert h + more == h;
    } else {
      var init := more[..|more| - 1];
      StaysHalfOpenUntilFailure(h, init, threshold, backoff, t, later);
      assert (h + more)[..|h + more| - 1] == h + init;
    }
  }

  /** One failed trial re-opens the circuit for a full window, however many questions were asked
      in between, and the window ends exactly backoff after that failure. */
  lemma {:induction false} FailedTrialReopens(h: seq<Call>, questions: seq<Call>, failedAt: int, threshold: nat,
                                              backoff: int, t: int)
    requires threshold > 0 && TrailingFailures(h) >= threshold
    requires forall i :: 0 <= i < |questions| ==> questions[i].Query?
    ensures TrailingFailures(h + questions) == TrailingFailures(h)
    ensures Suppressed(h + questions + [Failure(failedAt)], threshold, backoff, t) <==> t <= failedAt + backoff
  {
    var whole := h + questions + [Failure(failedAt)];
    assert whole[..|whole| - 1] == h + questions;
    if questions == [] {
      assert h + questions == h;
    } else {
      var init := questions[..|questions| - 1];
      FailedTrialReopens(h, init, failedAt, threshold, backoff, t);
      assert (h + questions)[..|h + questions| - 1] == h + init;
    }
  }
}
