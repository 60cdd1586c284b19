/** Properties of the access-token cache, stated over its value view. */
module CacheProps {
  import opened Wrappers
  import opened RateInfo
  import opened RateInfoRuns
  import opened Cache

  /**
   * The map only grows: no token is removed, a stored token keeps its
   * creation instant, and every other token's record is untouched.
   */
  lemma HandleHitOnlyGrows(records: map<string, Record>, token: string, answer: Result<Instant, string>, now: Instant, addLifetime: Instant -> Instant)
    ensures var after := HandleHitSpec(records, token, answer, now, addLifetime).records;
      && records.Keys <= after.Keys
      && after.Keys <= records.Keys + {token}
      && (forall t :: t in records ==> after[t].createdAt == records[t].createdAt)
      && (forall t :: t in records && t != token ==> after[t] == records[t])
  {
  }

  /** A stored token: its record handles the hit whatever the lookup would answer. */
  lemma StoredTokenIgnoresLookup(records: map<string, Record>, token: string, answer: Result<Instant, string>, now: Instant, addLifetime: Instant -> Instant)
    requires token in records
    ensures HandleHitSpec(records, token, answer, now, addLifetime).outcome
      == Hit(records[token].hitHistory, records[token].createdAt, now, addLifetime).outcome
  {
  }

  /** An unknown token whose lookup fails: that error comes back and nothing is stored. */
  lemma LookupErrorPassedThrough(records: map<string, Record>, token: string, e: string, now: Instant, addLifetime: Instant -> Instant)
    requires token !in records
    ensures HandleHitSpec(records, token, Failure(e), now, addLifetime) == CacheStep(LookupFailed(e), records)
  {
  }

  /** A failed lookup is not remembered: the next call is a first-time registration. */
  lemma LookupFailureNotCached(records: map<string, Record>, token: string, e: string, answer: Result<Instant, string>, now: Instant, later: Instant, addLifetime: Instant -> Instant)
    requires token !in records
    ensures var first := HandleHitSpec(records, token, Failure(e), now, addLifetime);
      HandleHitSpec(first.records, token, answer, later, addLifetime) == HandleHitSpec(records, token, answer, later, addLifetime)
  {
  }

  /** An unknown token found already expired: refused, and nothing is stored. */
  lemma ExpiredTokenNotInserted(records: map<string, Record>, token: string, createdAt: Instant, now: Instant, addLifetime: Instant -> Instant)
    requires token !in records
    requires IsExpired(createdAt, now, addLifetime)
    ensures HandleHitSpec(records, token, Success(createdAt), now, addLifetime) == CacheStep(TokenExpired, records)
  {
  }

  /** An unknown, unexpired token: a new record is stored and its first hit succeeds. */
  lemma FirstHitRegistered(records: map<string, Record>, token: string, createdAt: Instant, now: Instant, addLifetime: Instant -> Instant)
    requires token !in records
    requires !IsExpired(createdAt, now, addLifetime)
    ensures HandleHitSpec(records, token, Success(createdAt), now, addLifetime)
      == CacheStep(Ok, records[token := Record(createdAt, [now])])
  {
    assert StaleCount([], now) == 0;
    assert Trim([], now) + [now] == [now];
    assert Hit([], createdAt, now, addLifetime) == Step(Ok, [now]);
  }

  /**
   * The race: when the token was stored while the lookup ran, the stored
   * record handles the hit and the freshly looked-up instant is discarded.
   */
  lemma RaceKeepsStoredRecord(records: map<string, Record>, token: string, createdAt: Instant, now: Instant, addLifetime: Instant -> Instant)
    requires token in records
    ensures var step := CompleteMissSpec(records, token, createdAt, now, addLifetime);
      && step == HitExisting(records, token, now, addLifetime)
      && step.records[token].createdAt == records[token].createdAt
  {
  }

  /** Every window in the map stays within the cap. */
  lemma HandleHitKeepsCap(records: map<string, Record>, token: string, answer: Result<Instant, string>, now: Instant, addLifetime: Instant -> Instant)
    requires forall t :: t in records ==> |records[t].hitHistory| <= NumHitsPerRateLimit
    ensures var after := HandleHitSpec(records, token, answer, now, addLifetime).records;
      forall t :: t in after ==> |after[t].hitHistory| <= NumHitsPerRateLimit
  {
    if token in records {
      HitKeepsCap(records[token].hitHistory, records[token].createdAt, now, addLifetime);
    }
  }

  /** The outcomes of calls for one token at the instants `times`, and how many of them called the lookup. */
  datatype Burst = Burst(outcomes: seq<Outcome>, lookups: nat, records: map<string, Record>)

  function ReplayToken(records: map<string, Record>, token: string, answer: Result<Instant, string>, times: seq<Instant>, addLifetime: Instant -> Instant): (b: Burst)
    ensures |b.outcomes| == |times|
    decreases |times|
  {
    if times == [] then Burst([], 0, records)
    else
      var step := HandleHitSpec(records, token, answer, times[0], addLifetime);
      var rest := ReplayToken(step.records, token, answer, times[1..], addLifetime);
      Burst([step.outcome] + rest.outcomes, rest.lookups + (if token in records then 0 else 1), rest.records)
  }

  /** Calls on a stored token, at any instants, follow its record's window and never call the lookup. */
  lemma {:induction false} ReplayStoredToken(records: map<string, Record>, token: string, answer: Result<Instant, string>, times: seq<Instant>, addLifetime: Instant -> Instant)
    requires token in records
    ensures var b := ReplayToken(records, token, answer, times, addLifetime);
      b.lookups == 0
      && b.outcomes == Replay(records[token].hitHistory, records[token].createdAt, times, addLifetime).outcomes
    decreases |times|
  {
    if times != [] {
      var step := HandleHitSpec(records, token, answer, times[0], addLifetime);
      ReplayStoredToken(step.records, token, answer, times[1..], addLifetime);
      ReplayCons(records[token].hitHistory, records[token].createdAt, times, addLifetime);
    }
  }

  /**
   * Calls for a brand-new token whose lookup gives a creation instant not
   * expired at the first call: the lookup runs once, and the calls follow the
   * window of a new record.
   */
  lemma {:induction false} NewTokenReplay(records: map<string, Record>, token: string, createdAt: Instant, times: seq<Instant>, addLifetime: Instant -> Instant)
    requires token !in records
    requires times != [] && !IsExpired(createdAt, times[0], addLifetime)
    ensures var b := ReplayToken(records, token, Success(createdAt), times, addLifetime);
      b.lookups == 1 && b.outcomes == Replay([], createdAt, times, addLifetime).outcomes
  {
    var stored := records[token := Record(createdAt, [times[0]])];
    FirstHitRegistered(records, token, createdAt, times[0], addLifetime);
    ReplayStoredToken(stored, token, Success(createdAt), times[1..], addLifetime);
    assert stored[token] == Record(createdAt, [times[0]]);
    assert Hit([], createdAt, times[0], addLifetime) == Step(Ok, [times[0]]) by {
      assert StaleCount([], times[0]) == 0;
      assert Trim([], times[0]) + [times[0]] == [times[0]];
    }
    ReplayCons([], createdAt, times, addLifetime);
  }

  /**
   * The sliding window at the cache's entry point, for a stored token within
   * the cap: at any instant `t` at or after every call, the calls that
   * succeeded within RATE_LIMIT_DURATION before `t`, together with the stored
   * hits in that window, number at most NUM_HITS_PER_RATE_LIMIT.
   */
  lemma StoredTokenWindowBound(records: map<string, Record>, token: string, answer: Result<Instant, string>, times: seq<Instant>, t: Instant, addLifetime: Instant -> Instant)
    requires token in records && |records[token].hitHistory| <= NumHitsPerRateLimit
    requires forall j :: 0 <= j < |times| ==> times[j] <= t
    ensures InWindow(records[token].hitHistory, t)
      + OkInWindow(ReplayToken(records, token, answer, times, addLifetime).outcomes, times, t) <= NumHitsPerRateLimit
  {
    ReplayStoredToken(records, token, answer, times, addLifetime);
    WindowAdmitsAtMostCap(records[token].hitHistory, records[token].createdAt, times, t, addLifetime);
  }

  /**
   * The sliding window at the cache's entry point, for a brand-new token: of
   * the first `n` calls, at most NUM_HITS_PER_RATE_LIMIT of those within
   * RATE_LIMIT_DURATION before any `t` at or after all of them succeed.
   */
  lemma NewTokenWindowBound(records: map<string, Record>, token: string, createdAt: Instant, times: seq<Instant>, n: nat, t: Instant, addLifetime: Instant -> Instant)
    requires token !in records
    requires times != [] && !IsExpired(createdAt, times[0], addLifetime)
    requires n <= |times|
    requires forall j :: 0 <= j < n ==> times[j] <= t
    ensures OkInWindow(ReplayToken(records, token, Success(createdAt), times, addLifetime).outcomes[..n], times[..n], t)
      <= NumHitsPerRateLimit
  {
    NewTokenReplay(records, token, createdAt, times, addLifetime);
    NewRecordWindowBound(createdAt, times, n, t, addLifetime);
  }

  /**
   * Requests at one instant with a brand-new, unexpired token: the lookup runs
   * once, the first NUM_HITS_PER_RATE_LIMIT requests pass and every later one is
   * refused by the rate limit (for twenty requests: ten and ten).
   */
  lemma NewTokenBurst(records: map<string, Record>, token: string, createdAt: Instant, now: Instant, addLifetime: Instant -> Instant, n: nat)
    requires token !in records
    requires !IsExpired(createdAt, now, addLifetime)
    requires n > 0
    ensures var b := ReplayToken(records, token, Success(createdAt), Repeat(now, n), addLifetime);
      var passed := if n <= NumHitsPerRateLimit then n else NumHitsPerRateLimit;
      b.lookups == 1 && b.outcomes == Repeat(Ok, passed) + Repeat(RateLimitExceeded, n - passed)
  {
    assert Repeat(now, n)[0] == now;
    NewTokenReplay(records, token, createdAt, Repeat(now, n), addLifetime);
    assert Repeat(now, 0) == [];
    SameInstantBurst(createdAt, now, addLifetime, 0, n);
  }
}
