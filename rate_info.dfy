/**
 * The per-token record of the access-token cache
 * (gadm-api/access-token-cache/token-rate-info.go): a creation instant and a
 * sliding window of recent hit instants.
 *
 * Instants are integer nanoseconds on one clock. The clock reading `now` is a
 * parameter, and the token lifetime (`createdAt.AddDate(0, 3, 0)`, calendar
 * arithmetic) is the parameter `addLifetime`, which maps a creation instant to
 * the instant the token stops being valid.
 */
module RateInfo {

  type Instant = int

  /** RATE_LIMIT_DURATION: one second, in nanoseconds. */
  const RateLimitDuration: int := 1_000_000_000

  /** NUM_HITS_PER_RATE_LIMIT */
  const NumHitsPerRateLimit: nat := 10

  /** The `error` values the cache hands back; `Ok` stands for a nil error. */
  datatype Outcome = Ok | TokenExpired | RateLimitExceeded | LookupFailed(err: string)

  /** `isExpired`: the end of the token's lifetime lies strictly before `now`. */
  predicate IsExpired(createdAt: Instant, now: Instant, addLifetime: Instant -> Instant)
  {
    addLifetime(createdAt) < now
  }

  /** An entry is stale at `now` when its age strictly exceeds the window. */
  predicate IsStale(hit: Instant, now: Instant)
  {
    now - hit > RateLimitDuration
  }

  /**
   * The number of leading entries the trimming loop skips: it stops at the
   * first entry that is not stale, whatever follows it.
   */
  function StaleCount(history: seq<Instant>, now: Instant): (k: nat)
    ensures k <= |history|
    ensures forall j :: 0 <= j < k ==> IsStale(history[j], now)
    ensures k < |history| ==> !IsStale(history[k], now)
  {
    if history == [] || !IsStale(history[0], now) then 0
    else 1 + StaleCount(history[1..], now)
  }

  /** The window after trimming: the history without its stale prefix. */
  function Trim(history: seq<Instant>, now: Instant): seq<Instant>
  {
    history[StaleCount(history, now)..]
  }

  /** The result of one hit and the history it leaves behind. */
  datatype Step = Step(outcome: Outcome, history: seq<Instant>)

  /** What `handleHit` does to a record with this history and creation instant. */
  function Hit(history: seq<Instant>, createdAt: Instant, now: Instant, addLifetime: Instant -> Instant): Step
  {
    if IsExpired(createdAt, now, addLifetime) then Step(TokenExpired, history)
    else
      var kept := Trim(history, now);
      if |kept| >= NumHitsPerRateLimit then Step(RateLimitExceeded, kept)
      else Step(Ok, kept + [now])
  }

  /** `TokenRateInfo`: one token's creation instant and hit history. */
  class TokenRateInfo {
    var hitHistory: seq<Instant>
    const createdAt: Instant

    /** `newTokenRateInfo` */
    constructor (createdAt: Instant)
      ensures this.createdAt == createdAt && hitHistory == []
    {
      this.createdAt := createdAt;
      hitHistory := [];
    }

    /**
     * `handleHit`: refuse an expired token, drop the stale prefix of the
     * history, refuse the hit when the window is full, otherwise record `now`.
     */
    method HandleHit(now: Instant, addLifetime: Instant -> Instant) returns (r: Outcome)
      modifies this
      ensures Step(r, hitHistory) == Hit(old(hitHistory), createdAt, now, addLifetime)
    {
      if IsExpired(createdAt, now, addLifetime) {
        return TokenExpired;
      }

      var i := 0;
      while i < |hitHistory|
        invariant 0 <= i <= |hitHistory|
        invariant forall j :: 0 <= j < i ==> IsStale(hitHistory[j], now)
      {
        if IsStale(hitHistory[i], now) {
          i := i + 1;
          continue;
        }
        break;
      }
      hitHistory := hitHistory[i..];

      if |hitHistory| >= NumHitsPerRateLimit {
        return RateLimitExceeded;
      }

      hitHistory := hitHistory + [now];
      return Ok;
    }
  }

  /** Ascending order of a hit history. */
  predicate Sorted(s: seq<Instant>)
  {
    forall i, j :: 0 <= i <= j < |s| ==> s[i] <= s[j]
  }

  lemma HitWhenExpired(history: seq<Instant>, createdAt: Instant, now: Instant, addLifetime: Instant -> Instant)
    requires IsExpired(createdAt, now, addLifetime)
    ensures Hit(history, createdAt, now, addLifetime) == Step(TokenExpired, history)
  {
  }

  /** Trimming keeps a suffix, drops only stale entries and keeps an entry whose age equals the window. */
  lemma TrimDropsOnlyStalePrefix(history: seq<Instant>, now: Instant)
    ensures exists k :: 0 <= k <= |history| && Trim(history, now) == history[k..]
    ensures forall j :: 0 <= j < |history| - |Trim(history, now)| ==> now - history[j] > RateLimitDuration
    ensures |Trim(history, now)| > 0 ==> now - Trim(history, now)[0] <= RateLimitDuration
  {
    var k := StaleCount(history, now);
    assert Trim(history, now) == history[k..];
  }

  lemma HitRejectsWhenWindowFull(history: seq<Instant>, createdAt: Instant, now: Instant, addLifetime: Instant -> Instant)
    requires !IsExpired(createdAt, now, addLifetime)
    requires |Trim(history, now)| >= NumHitsPerRateLimit
    ensures Hit(history, createdAt, now, addLifetime) == Step(RateLimitExceeded, Trim(history, now))
  {
  }

  lemma HitAppendsNow(history: seq<Instant>, createdAt: Instant, now: Instant, addLifetime: Instant -> Instant)
    requires !IsExpired(createdAt, now, addLifetime)
    requires |Trim(history, now)| < NumHitsPerRateLimit
    ensures var s := Hit(history, createdAt, now, addLifetime);
      s.outcome == Ok && s.history == Trim(history, now) + [now]
      && |s.history| == |Trim(history, now)| + 1 && s.history[|s.history| - 1] == now
  {
  }

  /** The window never holds more than NUM_HITS_PER_RATE_LIMIT entries. */
  lemma HitKeepsCap(history: seq<Instant>, createdAt: Instant, now: Instant, addLifetime: Instant -> Instant)
    requires |history| <= NumHitsPerRateLimit
    ensures |Hit(history, createdAt, now, addLifetime).history| <= NumHitsPerRateLimit
  {
  }

  /** With a clock that does not run backwards, the history stays ascending. */
  lemma HitKeepsSorted(history: seq<Instant>, createdAt: Instant, now: Instant, addLifetime: Instant -> Instant)
    requires Sorted(history)
    requires forall j :: 0 <= j < |history| ==> history[j] <= now
    ensures var h := Hit(history, createdAt, now, addLifetime).history;
      Sorted(h) && forall j :: 0 <= j < |h| ==> h[j] <= now
  {
    var kept := Trim(history, now);
    TrimKeepsSorted(history, now);
    if Hit(history, createdAt, now, addLifetime).history == kept + [now] {
      AppendKeepsSorted(kept, now);
    }
  }

  lemma TrimKeepsSorted(history: seq<Instant>, now: Instant)
    requires Sorted(history)
    requires forall j :: 0 <= j < |history| ==> history[j] <= now
    ensures var kept := Trim(history, now);
      Sorted(kept) && forall j :: 0 <= j < |kept| ==> kept[j] <= now
  {
    var kept := Trim(history, now);
    var k := StaleCount(history, now);
    assert forall j :: 0 <= j < |kept| ==> kept[j] == history[k + j];
  }

  lemma AppendKeepsSorted(kept: seq<Instant>, now: Instant)
    requires Sorted(kept)
    requires forall j :: 0 <= j < |kept| ==> kept[j] <= now
    ensures var h := kept + [now];
      Sorted(h) && forall j :: 0 <= j < |h| ==> h[j] <= now
  {
  }
}
