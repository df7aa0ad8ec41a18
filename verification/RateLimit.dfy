/**
 * The per-key token bucket with eviction of idle buckets. Times are seconds,
 * tokens are reals; the clock is the caller's and is assumed not to run back
 * where a lemma says so.
 */
module RateLimit {
  const SWEEP_INTERVAL: real := 600.0
  const IDLE_LIMIT: real := 1800.0

  /** The effective settings of a limiter. */
  datatype Params = Params(ratePerMinute: int, burst: int) {
    predicate Valid() {
      ratePerMinute >= 1 && burst >= 1
    }

    function Rate(): real {
      ratePerMinute as real / 60.0
    }

    /** Tokens earned over `elapsed` seconds. */
    function Earned(elapsed: real): real {
      elapsed * Rate()
    }

    function Burst(): real {
      burst as real
    }
  }

  /** Non-positive settings fall back to 60 per minute and to a burst of one minute's worth. */
  function Configured(ratePerMinute: int, burst: int): (p: Params)
    ensures p.Valid()
    ensures p.ratePerMinute == if ratePerMinute >= 1 then ratePerMinute else 60
    ensures burst >= 1 ==> p.burst == burst
    ensures burst <= 0 ==> p.burst == p.ratePerMinute
  {
    var rate := if ratePerMinute <= 0 then 60 else ratePerMinute;
    Params(rate, if burst <= 0 then rate else burst)
  }

  datatype BucketState = BucketState(tokens: real, lastRefill: real) {
    /** Tokens in the bucket at `now`, after refilling. */
    function Level(p: Params, now: real): real {
      Min(p.Burst(), tokens + p.Earned(now - lastRefill))
    }
  }

  datatype LimiterState = LimiterState(buckets: map<string, BucketState>, lastSweep: real)

  function Min(x: real, y: real): real {
    if y < x then y else x
  }

  /** Tokens a key may draw on at `now`: a full bucket if it has none yet. */
  function Available(p: Params, s: LimiterState, key: string, now: real): real {
    if key in s.buckets then s.buckets[key].Level(p, now) else p.Burst()
  }

  function Idle(b: BucketState, now: real): bool {
    now - b.lastRefill > IDLE_LIMIT
  }

  function Swept(s: LimiterState, now: real): LimiterState {
    if now - s.lastSweep < SWEEP_INTERVAL then s
    else LimiterState(map k | k in s.buckets && !Idle(s.buckets[k], now) :: s.buckets[k], now)
  }

  /** One request: a new key is admitted outright, a known one if a whole token is available. */
  function Admits(p: Params, s: LimiterState, key: string, now: real): bool {
    key !in s.buckets || Available(p, s, key, now) >= 1.0
  }

  /** The bucket is refilled whether or not the request is admitted. */
  function Charged(p: Params, s: LimiterState, key: string, now: real): LimiterState {
    var left := Available(p, s, key, now) - (if Admits(p, s, key, now) then 1.0 else 0.0);
    s.(buckets := s.buckets[key := BucketState(left, now)])
  }

  /** With `evicting`, idle buckets may be dropped after an admitted request. */
  function Next(p: Params, s: LimiterState, key: string, now: real, evicting: bool): LimiterState {
    if evicting && Admits(p, s, key, now) then Swept(Charged(p, s, key, now), now)
    else Charged(p, s, key, now)
  }

  class Bucket {
    var tokens: real
    var lastRefill: real

    constructor (tokens: real, lastRefill: real)
      ensures this.tokens == tokens && this.lastRefill == lastRefill
    {
      this.tokens, this.lastRefill := tokens, lastRefill;
    }

    function State(): BucketState
      reads this
    {
      BucketState(tokens, lastRefill)
    }

    /** Refill, cap, and take one token if there is a whole one. */
    method Draw(params: Params, now: real) returns (ok: bool)
      modifies this
      ensures ok == (old(State()).Level(params, now) >= 1.0)
      ensures tokens == old(State()).Level(params, now) - (if ok then 1.0 else 0.0)
      ensures lastRefill == now
    {
      tokens := tokens + params.Earned(now - lastRefill);
      if tokens > params.Burst() {
        tokens := params.Burst();
      }
      lastRefill := now;
      if tokens < 1.0 {
        return false;
      }
      tokens := tokens - 1.0;
      return true;
    }
  }

  class Limiter {
    const params: Params
    var buckets: map<string, Bucket>
    var lastSweep: real

    /** No two keys share a bucket. */
    ghost predicate Valid()
      reads this
    {
      forall k, l :: k in buckets && l in buckets && buckets[k] == buckets[l] ==> k == l
    }

    ghost function State(): LimiterState
      reads this, buckets.Values
    {
      LimiterState(map k | k in buckets :: buckets[k].State(), lastSweep)
    }

    constructor (ratePerMinute: int, burst: int, now: real)
      ensures Valid() && params == Configured(ratePerMinute, burst)
      ensures State() == LimiterState(map[], now)
    {
      var rate := if ratePerMinute <= 0 then 60 else ratePerMinute;
      params := Params(rate, if burst <= 0 then rate else burst);
      buckets := map[];
      lastSweep := now;
    }

    method Allow(key: string, now: real) returns (ok: bool)
      requires Valid()
      modifies this, buckets.Values
      ensures Valid() && fresh(buckets.Values - old(buckets.Values))
      ensures ok == Admits(params, old(State()), key, now)
      ensures State() == Next(params, old(State()), key, now, true)
    {
      if key !in buckets {
        Open(key, now);
        MaybeSweep(now);
        return true;
      }
      ok := Draw(key, now);
      if ok {
        MaybeSweep(now);
      }
    }

    method Open(key: string, now: real)
      requires Valid() && key !in buckets
      modifies this
      ensures Valid() && fresh(buckets.Values - old(buckets.Values))
      ensures State() == Charged(params, old(State()), key, now)
    {
      var b := new Bucket(params.Burst() - 1.0, now);
      buckets := buckets[key := b];
      assert State().buckets == Charged(params, old(State()), key, now).buckets;
    }

    method Draw(key: string, now: real) returns (ok: bool)
      requires Valid() && key in buckets
      modifies buckets[key]
      ensures Valid() && ok == Admits(params, old(State()), key, now)
      ensures State() == Charged(params, old(State()), key, now)
    {
      ghost var before := State();
      assert before.buckets[key] == buckets[key].State();
      ok := buckets[key].Draw(params, now);
      assert State().buckets == Charged(params, before, key, now).buckets;
    }

    method MaybeSweep(now: real)
      requires Valid()
      modifies this
      ensures Valid() && buckets.Values <= old(buckets.Values)
      ensures State() == Swept(old(State()), now)
      ensures now - old(lastSweep) < 600.0 ==> lastSweep == old(lastSweep) && buckets == old(buckets)
      ensures now - old(lastSweep) >= 600.0 ==>
                && lastSweep == now
                && (forall k :: k in buckets ==> k in old(buckets) && buckets[k] == old(buckets)[k])
                && (forall k :: k in old(buckets) ==> (k in buckets <==> now - old(buckets[k].lastRefill) <= 1800.0))
    {
      if now - lastSweep < SWEEP_INTERVAL {
        return;
      }
      lastSweep := now;
      Evict(now);
      assert State().buckets == Swept(old(State()), now).buckets;
    }

    method Evict(now: real)
      modifies this`buckets
      ensures buckets.Keys <= old(buckets.Keys)
      ensures forall k :: k in buckets ==> buckets[k] == old(buckets)[k]
      ensures forall k :: k in old(buckets) ==> (k in buckets <==> !(now - old(buckets)[k].lastRefill > IDLE_LIMIT))
    {
      var pending := buckets.Keys;
      while pending != {}
        invariant pending <= buckets.Keys <= old(buckets).Keys
        invariant forall k :: k in buckets ==> buckets[k] == old(buckets)[k]
        invariant forall k :: k in old(buckets) && k !in pending ==>
                                (k in buckets <==> !(now - old(buckets)[k].lastRefill > IDLE_LIMIT))
        decreases pending
      {
        var k :| k in pending;
        pending := pending - {k};
        if now - buckets[k].lastRefill > IDLE_LIMIT {
          buckets := buckets - {k};
        }
      }
    }
  }
}
