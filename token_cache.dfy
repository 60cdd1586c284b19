/**
 * The access-token cache (gadm-api/access-token-cache/token-cache.go): a map
 * from token to its record, filled lazily from an external lookup of the
 * token's creation instant.
 *
 * Each method is one atomic step; the locks are not modelled. The second,
 * write-locked half of HandleHitForToken (re-probe, insert, first hit) is the
 * method CompleteMiss, so that what happens when another request inserted the
 * token while the lookup was running is stated by its contract.
 */
module Cache {
  import opened Wrappers
  import opened RateInfo

  /** The value view of a record: its creation instant and hit history. */
  datatype Record = Record(createdAt: Instant, hitHistory: seq<Instant>)

  /** The map after a call, and the call's result. */
  datatype CacheStep = CacheStep(outcome: Outcome, records: map<string, Record>)

  /**
   * The lookup passed to HandleHitForToken (`getTokenCreatedAtIfNotInCache`):
   * for each token, a creation instant or an opaque error. `calls` counts the
   * invocations.
   */
  class Lookup {
    const answer: string -> Result<Instant, string>
    ghost var calls: nat

    constructor (answer: string -> Result<Instant, string>)
      ensures this.answer == answer && calls == 0
    {
      this.answer := answer;
      calls := 0;
    }

    method Call(token: string) returns (r: Result<Instant, string>)
      modifies this
      ensures r == answer(token) && calls == old(calls) + 1
    {
      r := answer(token);
      calls := calls + 1;
    }
  }

  /** A hit handled by the record already stored for `token`. */
  function HitExisting(records: map<string, Record>, token: string, now: Instant, addLifetime: Instant -> Instant): CacheStep
    requires token in records
  {
    var rec := records[token];
    var s := Hit(rec.hitHistory, rec.createdAt, now, addLifetime);
    CacheStep(s.outcome, records[token := Record(rec.createdAt, s.history)])
  }

  /** The write-locked half of HandleHitForToken, given the looked-up creation instant. */
  function CompleteMissSpec(records: map<string, Record>, token: string, createdAt: Instant, now: Instant, addLifetime: Instant -> Instant): CacheStep
  {
    if token in records then HitExisting(records, token, now, addLifetime)
    else if IsExpired(createdAt, now, addLifetime) then CacheStep(TokenExpired, records)
    else
      var s := Hit([], createdAt, now, addLifetime);
      CacheStep(s.outcome, records[token := Record(createdAt, s.history)])
  }

  /** Storing an empty record and then hitting it is the insertion branch of CompleteMissSpec. */
  lemma {:induction false} InsertThenHit(records: map<string, Record>, token: string, createdAt: Instant, now: Instant, addLifetime: Instant -> Instant)
    requires token !in records && !IsExpired(createdAt, now, addLifetime)
    ensures HitExisting(records[token := Record(createdAt, [])], token, now, addLifetime)
      == CompleteMissSpec(records, token, createdAt, now, addLifetime)
  {
    var s := Hit([], createdAt, now, addLifetime);
    var stored := records[token := Record(createdAt, [])];
    assert stored[token] == Record(createdAt, []);
    OverwriteKey(records, token, Record(createdAt, []), Record(createdAt, s.history));
  }

  lemma OverwriteKey<K, V>(m: map<K, V>, k: K, first: V, second: V)
    ensures m[k := first][k := second] == m[k := second]
  {
  }

  /** The whole of HandleHitForToken, given what the lookup answers for `token`. */
  function HandleHitSpec(records: map<string, Record>, token: string, answer: Result<Instant, string>, now: Instant, addLifetime: Instant -> Instant): CacheStep
  {
    if token in records then HitExisting(records, token, now, addLifetime)
    else match answer
      case Failure(e) => CacheStep(LookupFailed(e), records)
      case Success(createdAt) => CompleteMissSpec(records, token, createdAt, now, addLifetime)
  }

  /** `TokenCache` */
  class TokenCache {
    var tokenToTokenRateInfo: map<string, TokenRateInfo>

    /** Distinct tokens own distinct records, and no window exceeds the cap. */
    ghost predicate Valid()
      reads this, tokenToTokenRateInfo.Values
    {
      && (forall t, u :: t in tokenToTokenRateInfo && u in tokenToTokenRateInfo && t != u ==>
            tokenToTokenRateInfo[t] != tokenToTokenRateInfo[u])
      && (forall t :: t in tokenToTokenRateInfo ==> |tokenToTokenRateInfo[t].hitHistory| <= NumHitsPerRateLimit)
    }

    ghost function Records(): map<string, Record>
      reads this, tokenToTokenRateInfo.Values
    {
      map t | t in tokenToTokenRateInfo :: Record(tokenToTokenRateInfo[t].createdAt, tokenToTokenRateInfo[t].hitHistory)
    }

    /** `NewTokenCache` */
    constructor ()
      ensures tokenToTokenRateInfo == map[] && Valid()
    {
      tokenToTokenRateInfo := map[];
    }

    /** `SetIfNotExpired`: store the record under `token` unless its token has expired. */
    method SetIfNotExpired(token: string, info: TokenRateInfo, now: Instant, addLifetime: Instant -> Instant) returns (r: Outcome)
      modifies this
      ensures r == (if IsExpired(info.createdAt, now, addLifetime) then TokenExpired else Ok)
      ensures tokenToTokenRateInfo ==
        if r == Ok then old(tokenToTokenRateInfo)[token := info] else old(tokenToTokenRateInfo)
    {
      if IsExpired(info.createdAt, now, addLifetime) {
        return TokenExpired;
      }
      tokenToTokenRateInfo := tokenToTokenRateInfo[token := info];
      return Ok;
    }

    /** The hit on the record stored for `token`; every other record is untouched. */
    method HitStored(token: string, now: Instant, addLifetime: Instant -> Instant) returns (r: Outcome)
      requires Valid() && token in tokenToTokenRateInfo
      modifies tokenToTokenRateInfo[token]
      ensures Valid()
      ensures CacheStep(r, Records()) == HitExisting(old(Records()), token, now, addLifetime)
    {
      var info := tokenToTokenRateInfo[token];
      ghost var before := Records();
      r := info.HandleHit(now, addLifetime);
      HitKeepsCap(old(info.hitHistory), info.createdAt, now, addLifetime);
      assert Records() == before[token := Record(info.createdAt, info.hitHistory)];
    }

    /**
     * Lines 48-53 of HandleHitForToken, for a token with no record: a new
     * record is stored unless the token has expired, and takes its first hit.
     */
    method AddRecord(token: string, createdAt: Instant, now: Instant, addLifetime: Instant -> Instant) returns (r: Outcome)
      requires Valid() && token !in tokenToTokenRateInfo
      modifies this
      ensures Valid()
      ensures CacheStep(r, Records()) == CompleteMissSpec(old(Records()), token, createdAt, now, addLifetime)
      ensures tokenToTokenRateInfo == old(tokenToTokenRateInfo)
        || (token in tokenToTokenRateInfo && fresh(tokenToTokenRateInfo[token])
            && tokenToTokenRateInfo == old(tokenToTokenRateInfo)[token := tokenToTokenRateInfo[token]])
    {
      ghost var before := Records();
      ghost var oldMap := tokenToTokenRateInfo;
      var info := new TokenRateInfo(createdAt);
      r := SetIfNotExpired(token, info, now, addLifetime);
      if r != Ok {
        assert Records() == before;
        return;
      }
      assert info !in oldMap.Values;
      assert Valid();
      assert Records() == before[token := Record(createdAt, [])];
      InsertThenHit(before, token, createdAt, now, addLifetime);
      r := HitStored(token, now, addLifetime);
    }

    /**
     * Lines 42-53 of HandleHitForToken: re-probe; a record that appeared in the
     * meantime handles the hit and the looked-up `createdAt` is discarded;
     * otherwise AddRecord stores a new one.
     */
    method CompleteMiss(token: string, createdAt: Instant, now: Instant, addLifetime: Instant -> Instant) returns (r: Outcome)
      requires Valid()
      modifies this, tokenToTokenRateInfo.Values
      ensures Valid()
      ensures CacheStep(r, Records()) == CompleteMissSpec(old(Records()), token, createdAt, now, addLifetime)
      ensures forall t :: t in old(tokenToTokenRateInfo) ==>
        t in tokenToTokenRateInfo && tokenToTokenRateInfo[t] == old(tokenToTokenRateInfo[t])
      ensures fresh(tokenToTokenRateInfo.Values - old(tokenToTokenRateInfo.Values))
    {
      if token in tokenToTokenRateInfo {
        r := HitStored(token, now, addLifetime);
        return;
      }
      r := AddRecord(token, createdAt, now, addLifetime);
    }

    /**
     * `HandleHitForToken`: a stored token's record handles the hit; otherwise
     * the lookup is called once, its error is returned as is, and on success
     * CompleteMiss finishes the call.
     */
    method HandleHitForToken(token: string, lookup: Lookup, now: Instant, addLifetime: Instant -> Instant) returns (r: Outcome)
      requires Valid()
      modifies this, tokenToTokenRateInfo.Values, lookup
      ensures Valid()
      ensures CacheStep(r, Records()) == HandleHitSpec(old(Records()), token, lookup.answer(token), now, addLifetime)
      ensures lookup.calls == old(lookup.calls) + if token in old(tokenToTokenRateInfo) then 0 else 1
      ensures forall t :: t in old(tokenToTokenRateInfo) ==>
        t in tokenToTokenRateInfo && tokenToTokenRateInfo[t] == old(tokenToTokenRateInfo[t])
      ensures fresh(tokenToTokenRateInfo.Values - old(tokenToTokenRateInfo.Values))
    {
      if token in tokenToTokenRateInfo {
        r := HitStored(token, now, addLifetime);
        return;
      }

      var answer := lookup.Call(token);
      if answer.Failure? {
        return LookupFailed(answer.error);
      }

      r := CompleteMiss(token, answer.value, now, addLifetime);
    }
  }
}
