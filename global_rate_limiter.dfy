/**
 * The limiter on token creation (gadm-api/handlers/create-token-rate-limiter.go):
 * a request passes only when at least `interval` has elapsed since the last one
 * that passed. Instants are integer nanoseconds; `ZeroTime` stands for Go's
 * zero `time.Time`, the value `lastRequest` holds before the first request.
 */
module GlobalLimiter {

  const ZeroTime: int := 0

  /** The admission test of `IsAllowed`. */
  predicate Admits(lastRequest: int, interval: int, now: int)
  {
    lastRequest == ZeroTime || now - lastRequest >= interval
  }

  /** `GlobalRateLimiter` */
  class GlobalRateLimiter {
    var lastRequest: int
    const interval: int

    /** `NewGlobalRateLimiter` */
    constructor (interval: int)
      ensures this.interval == interval && lastRequest == ZeroTime
    {
      this.interval := interval;
      lastRequest := ZeroTime;
    }

    /** `IsAllowed`: an admitted request becomes the last request; a refused one changes nothing. */
    method IsAllowed(now: int) returns (allowed: bool)
      modifies this
      ensures allowed <==> Admits(old(lastRequest), interval, now)
      ensures lastRequest == if allowed then now else old(lastRequest)
    {
      if lastRequest == ZeroTime || now - lastRequest >= interval {
        lastRequest := now;
        return true;
      }
      return false;
    }
  }

  /** The instants, in order, of the requests among `times` that the limiter admits. */
  function Admitted(lastRequest: int, interval: int, times: seq<int>): seq<int>
    decreases |times|
  {
    if times == [] then []
    else if Admits(lastRequest, interval, times[0]) then [times[0]] + Admitted(times[0], interval, times[1..])
    else Admitted(lastRequest, interval, times[1..])
  }

  /**
   * Any two consecutive admitted requests are at least `interval` apart, and
   * the first is at least `interval` after an earlier admitted one.
   */
  lemma {:induction false} AdmittedAreSpaced(lastRequest: int, interval: int, times: seq<int>)
    requires forall i :: 0 <= i < |times| ==> times[i] != ZeroTime
    ensures var a := Admitted(lastRequest, interval, times);
      && (forall k :: 0 < k < |a| ==> a[k] - a[k - 1] >= interval)
      && (lastRequest != ZeroTime && |a| > 0 ==> a[0] - lastRequest >= interval)
    decreases |times|
  {
    if times != [] {
      if Admits(lastRequest, interval, times[0]) {
        AdmittedAreSpaced(times[0], interval, times[1..]);
      } else {
        AdmittedAreSpaced(lastRequest, interval, times[1..]);
      }
    }
  }

  /** The first request ever is admitted, whatever the interval. */
  lemma FirstRequestAdmitted(interval: int, times: seq<int>)
    requires times != []
    ensures Admitted(ZeroTime, interval, times) != [] && Admitted(ZeroTime, interval, times)[0] == times[0]
  {
  }
}
