/**
 * Runs of successive hits on one record: the scenarios exercised by
 * gadm-api/access-token-cache/token-rate-info_test.go, stated for every
 * creation instant and clock reading rather than for the wall clock.
 */
module RateInfoRuns {
  import opened RateInfo

  /** The outcomes of hits at `times`, one after the other, and the final history. */
  datatype Run = Run(outcomes: seq<Outcome>, history: seq<Instant>)

  function Replay(history: seq<Instant>, createdAt: Instant, times: seq<Instant>, addLifetime: Instant -> Instant): (r: Run)
    ensures |r.outcomes| == |times|
    decreases |times|
  {
    if times == [] then Run([], history)
    else
      var s := Hit(history, createdAt, times[0], addLifetime);
      var rest := Replay(s.history, createdAt, times[1..], addLifetime);
      Run([s.outcome] + rest.outcomes, rest.history)
  }

  function Repeat<T>(x: T, n: nat): (r: seq<T>)
    ensures |r| == n
  {
    if n == 0 then [] else [x] + Repeat(x, n - 1)
  }

  /** One more copy may be added at either end. */
  lemma {:induction false} RepeatSnoc<T>(x: T, n: nat)
    ensures Repeat(x, n + 1) == Repeat(x, n) + [x]
    decreases n
  {
    if n > 0 {
      RepeatSnoc(x, n - 1);
    }
  }

  /** One more hit at the instant of all `k` earlier ones: none of them is stale. */
  lemma SameInstantStep(createdAt: Instant, now: Instant, addLifetime: Instant -> Instant, k: nat)
    requires !IsExpired(createdAt, now, addLifetime)
    ensures Hit(Repeat(now, k), createdAt, now, addLifetime)
      == if k < NumHitsPerRateLimit then Step(Ok, Repeat(now, k + 1)) else Step(RateLimitExceeded, Repeat(now, k))
  {
    var h := Repeat(now, k);
    assert StaleCount(h, now) == 0;
    assert Trim(h, now) == h;
    RepeatSnoc(now, k);
  }

  /** Replaying a nonempty sequence of hits: the first outcome, then the rest. */
  lemma ReplayCons(history: seq<Instant>, createdAt: Instant, times: seq<Instant>, addLifetime: Instant -> Instant)
    requires times != []
    ensures var s := Hit(history, createdAt, times[0], addLifetime);
      Replay(history, createdAt, times, addLifetime).outcomes
        == [s.outcome] + Replay(s.history, createdAt, times[1..], addLifetime).outcomes
  {
  }

  /** The outcomes of `n` hits at one instant when the window has room for `room` more. */
  function SameInstantOutcomes(room: nat, n: nat): (r: seq<Outcome>)
    ensures |r| == n
  {
    if n == 0 then []
    else if room > 0 then [Ok] + SameInstantOutcomes(room - 1, n - 1)
    else [RateLimitExceeded] + SameInstantOutcomes(0, n - 1)
  }

  /** While there is room the hits pass, and every later one is refused. */
  lemma {:induction false} SameInstantOutcomesSplit(room: nat, n: nat)
    ensures var passed := if n <= room then n else room;
      SameInstantOutcomes(room, n) == Repeat(Ok, passed) + Repeat(RateLimitExceeded, n - passed)
    decreases n
  {
    if n > 0 {
      if room > 0 {
        SameInstantOutcomesSplit(room - 1, n - 1);
        var passed := if n <= room then n else room;
        assert Repeat(Ok, passed) == [Ok] + Repeat(Ok, passed - 1);
      } else {
        SameInstantOutcomesSplit(0, n - 1);
        assert Repeat(Ok, 0) == [];
      }
    }
  }

  /** Hits at `now` on `k` earlier hits at `now` follow SameInstantOutcomes. */
  lemma {:induction false} SameInstantRun(createdAt: Instant, now: Instant, addLifetime: Instant -> Instant, k: nat, n: nat)
    requires !IsExpired(createdAt, now, addLifetime)
    requires k <= NumHitsPerRateLimit
    ensures Replay(Repeat(now, k), createdAt, Repeat(now, n), addLifetime).outcomes
      == SameInstantOutcomes(NumHitsPerRateLimit - k, n)
    decreases n
  {
    if n > 0 {
      var first := if k < NumHitsPerRateLimit then Ok else RateLimitExceeded;
      var next := if k < NumHitsPerRateLimit then k + 1 else k;
      assert Replay(Repeat(now, k), createdAt, Repeat(now, n), addLifetime).outcomes
        == [first] + Replay(Repeat(now, next), createdAt, Repeat(now, n - 1), addLifetime).outcomes by {
        var times := Repeat(now, n);
        SameInstantStep(createdAt, now, addLifetime, k);
        ReplayCons(Repeat(now, k), createdAt, times, addLifetime);
        assert times[0] == now && times[1..] == Repeat(now, n - 1);
      }
      SameInstantRun(createdAt, now, addLifetime, next, n - 1);
    }
  }

  /**
   * Starting from `k` hits at `now`, further hits at the same `now` succeed
   * until the window holds NUM_HITS_PER_RATE_LIMIT entries; every later one is
   * refused.
   */
  lemma {:induction false} SameInstantBurst(createdAt: Instant, now: Instant, addLifetime: Instant -> Instant, k: nat, n: nat)
    requires !IsExpired(createdAt, now, addLifetime)
    requires k <= NumHitsPerRateLimit
    ensures var free := if n <= NumHitsPerRateLimit - k then n else NumHitsPerRateLimit - k;
      Replay(Repeat(now, k), createdAt, Repeat(now, n), addLifetime).outcomes
        == Repeat(Ok, free) + Repeat(RateLimitExceeded, n - free)
  {
    SameInstantRun(createdAt, now, addLifetime, k, n);
    SameInstantOutcomesSplit(NumHitsPerRateLimit - k, n);
  }

  /** TestHandleHitRateLimitExceeded: ten hits at one instant pass, the eleventh is refused. */
  lemma TenHitsThenRateLimited(createdAt: Instant, now: Instant, addLifetime: Instant -> Instant)
    requires !IsExpired(createdAt, now, addLifetime)
    ensures Replay([], createdAt, Repeat(now, NumHitsPerRateLimit + 1), addLifetime).outcomes
      == Repeat(Ok, NumHitsPerRateLimit) + [RateLimitExceeded]
  {
    SameInstantBurst(createdAt, now, addLifetime, 0, NumHitsPerRateLimit + 1);
    assert Repeat(RateLimitExceeded, 1) == [RateLimitExceeded];
  }

  /** The entries of `s` inside the window at `t`: at most RATE_LIMIT_DURATION before it. */
  function InWindow(s: seq<Instant>, t: Instant): (c: nat)
    ensures c <= |s|
  {
    if s == [] then 0
    else (if t - s[0] <= RateLimitDuration then 1 else 0) + InWindow(s[1..], t)
  }

  /** The hits among `times` that succeeded (by `outcomes`) and lie inside the window at `t`. */
  function OkInWindow(outcomes: seq<Outcome>, times: seq<Instant>, t: Instant): nat
  {
    if outcomes == [] || times == [] then 0
    else
      var counted := if outcomes[0] == Ok && t - times[0] <= RateLimitDuration then 1 else 0;
      counted + OkInWindow(outcomes[1..], times[1..], t)
  }

  lemma {:induction false} InWindowSnoc(s: seq<Instant>, x: Instant, t: Instant)
    ensures InWindow(s + [x], t) == InWindow(s, t) + (if t - x <= RateLimitDuration then 1 else 0)
    decreases |s|
  {
    if s == [] {
      assert [x][1..] == [];
    } else {
      assert (s + [x])[1..] == s[1..] + [x];
      InWindowSnoc(s[1..], x, t);
    }
  }

  /**
   * Trimming at `now` drops only entries older than the window at `now`, so
   * they are outside the window at any later `t` too.
   */
  lemma {:induction false} TrimKeepsWindow(history: seq<Instant>, now: Instant, t: Instant)
    requires now <= t
    ensures InWindow(Trim(history, now), t) == InWindow(history, t)
    decreases |history|
  {
    if history != [] && IsStale(history[0], now) {
      var k := StaleCount(history[1..], now);
      assert history[1..][k..] == history[1 + k..];
      TrimKeepsWindow(history[1..], now, t);
    } else {
      assert history[0..] == history;
    }
  }

  /** A hit at `now <= t` adds one entry to the window at `t` exactly when it succeeds inside it. */
  lemma HitWindow(history: seq<Instant>, createdAt: Instant, now: Instant, t: Instant, addLifetime: Instant -> Instant)
    requires now <= t
    ensures var s := Hit(history, createdAt, now, addLifetime);
      InWindow(s.history, t)
        == InWindow(history, t) + (if s.outcome == Ok && t - now <= RateLimitDuration then 1 else 0)
  {
    if !IsExpired(createdAt, now, addLifetime) {
      TrimKeepsWindow(history, now, t);
      InWindowSnoc(Trim(history, now), now, t);
    }
  }

  /**
   * Replaying hits no later than `t`: the final window at `t` holds the
   * starting entries inside it plus exactly the successful hits inside it.
   */
  lemma {:induction false} ReplayWindow(history: seq<Instant>, createdAt: Instant, times: seq<Instant>, t: Instant, addLifetime: Instant -> Instant)
    requires forall j :: 0 <= j < |times| ==> times[j] <= t
    ensures var run := Replay(history, createdAt, times, addLifetime);
      InWindow(run.history, t) == InWindow(history, t) + OkInWindow(run.outcomes, times, t)
    decreases |times|
  {
    if times != [] {
      var s := Hit(history, createdAt, times[0], addLifetime);
      var rest := Replay(s.history, createdAt, times[1..], addLifetime);
      HitWindow(history, createdAt, times[0], t, addLifetime);
      ReplayWindow(s.history, createdAt, times[1..], t, addLifetime);
      var outcomes := [s.outcome] + rest.outcomes;
      assert outcomes[0] == s.outcome && outcomes[1..] == rest.outcomes;
    }
  }

  /** A window within the cap stays within it over any run. */
  lemma {:induction false} ReplayKeepsCap(history: seq<Instant>, createdAt: Instant, times: seq<Instant>, addLifetime: Instant -> Instant)
    requires |history| <= NumHitsPerRateLimit
    ensures |Replay(history, createdAt, times, addLifetime).history| <= NumHitsPerRateLimit
    decreases |times|
  {
    if times != [] {
      HitKeepsCap(history, createdAt, times[0], addLifetime);
      ReplayKeepsCap(Hit(history, createdAt, times[0], addLifetime).history, createdAt, times[1..], addLifetime);
    }
  }

  /**
   * The sliding window: on a record whose history is within the cap, the
   * hits of any run that succeed within RATE_LIMIT_DURATION before an instant
   * `t` at or after all of them, together with the stored entries inside
   * that window, number at most NUM_HITS_PER_RATE_LIMIT.
   */
  lemma WindowAdmitsAtMostCap(history: seq<Instant>, createdAt: Instant, times: seq<Instant>, t: Instant, addLifetime: Instant -> Instant)
    requires |history| <= NumHitsPerRateLimit
    requires forall j :: 0 <= j < |times| ==> times[j] <= t
    ensures InWindow(history, t) + OkInWindow(Replay(history, createdAt, times, addLifetime).outcomes, times, t)
      <= NumHitsPerRateLimit
  {
    ReplayWindow(history, createdAt, times, t, addLifetime);
    ReplayKeepsCap(history, createdAt, times, addLifetime);
  }

  /** The first `n` outcomes of a run are the outcomes of its first `n` hits. */
  lemma {:induction false} ReplayPrefix(history: seq<Instant>, createdAt: Instant, times: seq<Instant>, n: nat, addLifetime: Instant -> Instant)
    requires n <= |times|
    ensures Replay(history, createdAt, times[..n], addLifetime).outcomes
      == Replay(history, createdAt, times, addLifetime).outcomes[..n]
    decreases n
  {
    if n > 0 {
      var s := Hit(history, createdAt, times[0], addLifetime);
      var prefix := times[..n];
      assert prefix[0] == times[0] && prefix[1..] == times[1..][..n - 1];
      ReplayPrefix(s.history, createdAt, times[1..], n - 1, addLifetime);
      var rest := Replay(s.history, createdAt, times[1..], addLifetime).outcomes;
      assert ([s.outcome] + rest)[..n] == [s.outcome] + rest[..n - 1];
    } else {
      assert times[..0] == [];
    }
  }

  /**
   * On a new record, of the first `n` hits of any run, at most
   * NUM_HITS_PER_RATE_LIMIT of those within RATE_LIMIT_DURATION before an
   * instant `t` at or after all of them succeed.
   */
  lemma NewRecordWindowBound(createdAt: Instant, times: seq<Instant>, n: nat, t: Instant, addLifetime: Instant -> Instant)
    requires n <= |times|
    requires forall j :: 0 <= j < n ==> times[j] <= t
    ensures OkInWindow(Replay([], createdAt, times, addLifetime).outcomes[..n], times[..n], t) <= NumHitsPerRateLimit
  {
    ReplayPrefix([], createdAt, times, n, addLifetime);
    WindowAdmitsAtMostCap([], createdAt, times[..n], t, addLifetime);
  }

  /** Successive instants more than RATE_LIMIT_DURATION / NUM_HITS_PER_RATE_LIMIT apart. */
  predicate Spaced(times: seq<Instant>)
  {
    forall i :: 0 < i < |times| ==> times[i] - times[i - 1] > RateLimitDuration / NumHitsPerRateLimit
  }

  lemma {:induction false} SpacedGap(times: seq<Instant>, a: nat, b: nat)
    requires Spaced(times)
    requires a <= b < |times|
    ensures times[b] - times[a] >= (b - a) * 100_000_001
    decreases b - a
  {
    if a < b {
      SpacedGap(times, a, b - 1);
    }
  }

  /**
   * At a hit at a spaced instant, at most nine earlier hits are younger than
   * RATE_LIMIT_DURATION, so the trimmed window is never full.
   */
  lemma SpacedWindowNotFull(all: seq<Instant>, j: nat, i: nat)
    requires j <= i < |all|
    requires Spaced(all)
    ensures Trim(all[j..i], all[i]) == all[j + StaleCount(all[j..i], all[i])..i]
    ensures |Trim(all[j..i], all[i])| < NumHitsPerRateLimit
  {
    var h := all[j..i];
    var k := StaleCount(h, all[i]);
    if i - (j + k) >= NumHitsPerRateLimit {
      var m := i - NumHitsPerRateLimit;
      assert !IsStale(h[k], all[i]);
      assert h[k] == all[j + k];
      SpacedGap(all, m, i);
      SpacedGap(all, j + k, m);
      assert false;
    }
  }

  /** A hit in a spaced run drops the stale prefix and is admitted. */
  lemma SpacedStep(all: seq<Instant>, j: nat, i: nat, createdAt: Instant, addLifetime: Instant -> Instant)
    requires j <= i < |all|
    requires Spaced(all)
    requires !IsExpired(createdAt, all[i], addLifetime)
    ensures Hit(all[j..i], createdAt, all[i], addLifetime)
      == Step(Ok, all[j + StaleCount(all[j..i], all[i])..i + 1])
  {
    var k := StaleCount(all[j..i], all[i]);
    SpacedWindowNotFull(all, j, i);
    assert all[j + k..i] + [all[i]] == all[j + k..i + 1];
  }

  /** The first hit of a spaced suffix succeeds; the rest replays on the trimmed window. */
  lemma SpacedRunCons(all: seq<Instant>, j: nat, i: nat, createdAt: Instant, addLifetime: Instant -> Instant)
    requires j <= i < |all|
    requires Spaced(all)
    requires !IsExpired(createdAt, all[i], addLifetime)
    ensures var k := StaleCount(all[j..i], all[i]);
      Replay(all[j..i], createdAt, all[i..], addLifetime).outcomes
        == [Ok] + Replay(all[j + k..i + 1], createdAt, all[i + 1..], addLifetime).outcomes
  {
    SpacedStep(all, j, i, createdAt, addLifetime);
    var tail := all[i..];
    assert tail[0] == all[i] && tail[1..] == all[i + 1..];
    ReplayCons(all[j..i], createdAt, tail, addLifetime);
  }

  lemma {:induction false} SpacedSuffixRun(all: seq<Instant>, j: nat, i: nat, createdAt: Instant, addLifetime: Instant -> Instant)
    requires j <= i <= |all|
    requires Spaced(all)
    requires forall t :: t in all ==> !IsExpired(createdAt, t, addLifetime)
    ensures forall o :: o in Replay(all[j..i], createdAt, all[i..], addLifetime).outcomes ==> o == Ok
    decreases |all| - i
  {
    if i < |all| {
      var k := StaleCount(all[j..i], all[i]);
      assert all[i] in all;
      SpacedRunCons(all, j, i, createdAt, addLifetime);
      SpacedSuffixRun(all, j + k, i + 1, createdAt, addLifetime);
      var rest := Replay(all[j + k..i + 1], createdAt, all[i + 1..], addLifetime).outcomes;
      assert forall o :: o in rest ==> o == Ok;
      assert forall o :: o in [Ok] + rest ==> o == Ok;
    }
  }

  /** TestHandleHitRateLimitNotExceeded: any number of spaced hits all succeed. */
  lemma SpacedHitsAllSucceed(createdAt: Instant, times: seq<Instant>, addLifetime: Instant -> Instant)
    requires Spaced(times)
    requires forall t :: t in times ==> !IsExpired(createdAt, t, addLifetime)
    ensures forall o :: o in Replay([], createdAt, times, addLifetime).outcomes ==> o == Ok
  {
    assert times[0..0] == [] && times[0..] == times;
    SpacedSuffixRun(times, 0, 0, createdAt, addLifetime);
  }

  /**
   * The spacing must be strictly greater than a tenth of the window: after ten
   * hits exactly a tenth apart, the eleventh finds the oldest one aged exactly
   * RATE_LIMIT_DURATION, still in the window, and is refused.
   */
  lemma ExactTenthSpacingRefusesEleventh(createdAt: Instant, base: Instant, addLifetime: Instant -> Instant)
    requires !IsExpired(createdAt, base + RateLimitDuration, addLifetime)
    ensures var history := seq(10, i requires 0 <= i => base + i * 100_000_000);
      Hit(history, createdAt, base + RateLimitDuration, addLifetime).outcome == RateLimitExceeded
  {
    var history := seq(10, i requires 0 <= i => base + i * 100_000_000);
    assert !IsStale(history[0], base + RateLimitDuration);
    assert Trim(history, base + RateLimitDuration) == history;
  }
}
