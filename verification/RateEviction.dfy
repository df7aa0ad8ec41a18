/**
 * When dropping idle buckets cannot be noticed: exactly when half an hour of
 * silence refills a bucket, that is when burst <= 30 * ratePerMinute.
 */
module RateEviction {
  import opened RateLimit
  import opened RateLog

  /** The clock does not run back, from the limiter's creation on. */
  ghost predicate Ordered(start: real, reqs: seq<Request>) {
    && (forall i :: 0 <= i < |reqs| ==> start <= reqs[i].time)
    && (forall i, j :: 0 <= i <= j < |reqs| ==> reqs[i].time <= reqs[j].time)
  }

  /** No request sequence can tell the evicting limiter from one that keeps every bucket. */
  ghost predicate EvictionInvisible(p: Params) {
    forall start, reqs :: Ordered(start, reqs) ==>
      Answers(p, LimiterState(map[], start), reqs, true) == Answers(p, LimiterState(map[], start), reqs, false)
  }

  /** `swept` is `full` without some buckets that have been idle for over half an hour. */
  ghost predicate Trimmed(full: LimiterState, swept: LimiterState, now: real) {
    && (forall k :: k in swept.buckets ==> k in full.buckets && swept.buckets[k] == full.buckets[k])
    && (forall k :: k in full.buckets ==> full.buckets[k].tokens >= 0.0 && full.buckets[k].lastRefill <= now)
    && (forall k :: k in full.buckets && k !in swept.buckets ==> Idle(full.buckets[k], now))
  }

  lemma IdleRefills(p: Params, b: BucketState, now: real)
    requires p.Valid() && p.burst <= 30 * p.ratePerMinute
    requires b.tokens >= 0.0 && Idle(b, now)
    ensures b.Level(p, now) == p.Burst()
  {
    EarnedMonotone(p, IDLE_LIMIT, now - b.lastRefill);
    assert p.Earned(IDLE_LIMIT) == 30.0 * p.ratePerMinute as real;
  }

  lemma LevelNonNegative(p: Params, b: BucketState, now: real)
    requires p.Valid() && b.tokens >= 0.0 && b.lastRefill <= now
    ensures b.Level(p, now) >= 0.0
  {
    EarnedAdds(p, 0.0, 0.0);
    EarnedMonotone(p, 0.0, now - b.lastRefill);
  }

  lemma TrimmedLater(full: LimiterState, swept: LimiterState, now: real, later: real)
    requires Trimmed(full, swept, now) && now <= later
    ensures Trimmed(full, swept, later)
  {
    forall k | k in full.buckets && k !in swept.buckets
      ensures Idle(full.buckets[k], later)
    {
      assert Idle(full.buckets[k], now);
    }
  }

  lemma SweepTrims(full: LimiterState, swept: LimiterState, now: real)
    requires Trimmed(full, swept, now)
    ensures Trimmed(full, Swept(swept, now), now)
  {
  }

  lemma ChargeTrims(p: Params, full: LimiterState, swept: LimiterState, key: string, now: real)
    requires p.Valid() && p.burst <= 30 * p.ratePerMinute && Trimmed(full, swept, now)
    ensures Admits(p, full, key, now) == Admits(p, swept, key, now)
    ensures Trimmed(Charged(p, full, key, now), Charged(p, swept, key, now), now)
  {
    if key in full.buckets {
      LevelNonNegative(p, full.buckets[key], now);
      if key !in swept.buckets {
        IdleRefills(p, full.buckets[key], now);
      }
    }
    assert Available(p, full, key, now) == Available(p, swept, key, now);
  }

  lemma {:induction false} RunsAgree(p: Params, start: real, reqs: seq<Request>, now: real)
    requires p.Valid() && p.burst <= 30 * p.ratePerMinute && Ordered(start, reqs)
    requires start <= now && forall i :: 0 <= i < |reqs| ==> reqs[i].time <= now
    ensures Answers(p, LimiterState(map[], start), reqs, true) == Answers(p, LimiterState(map[], start), reqs, false)
    ensures Trimmed(After(p, LimiterState(map[], start), reqs, false), After(p, LimiterState(map[], start), reqs, true), now)
  {
    if reqs != [] {
      var n := |reqs| - 1;
      var r, s := reqs[n], LimiterState(map[], start);
      RunsAgree(p, start, reqs[..n], r.time);
      var full, swept := After(p, s, reqs[..n], false), After(p, s, reqs[..n], true);
      ChargeTrims(p, full, swept, r.key, r.time);
      SweepTrims(Charged(p, full, r.key, r.time), Charged(p, swept, r.key, r.time), r.time);
      TrimmedLater(After(p, s, reqs, false), After(p, s, reqs, true), r.time, now);
    }
  }

  // ---- the other direction: a burst too large to refill in half an hour ----

  function Repeat(r: Request, n: nat): (rs: seq<Request>)
    ensures |rs| == n
    ensures forall i :: 0 <= i < n ==> rs[i] == r
  {
    if n == 0 then [] else Repeat(r, n - 1) + [r]
  }

  lemma RunSplits(p: Params, s: LimiterState, reqs: seq<Request>, r: Request, evicting: bool)
    ensures After(p, s, reqs + [r], evicting) == Next(p, After(p, s, reqs, evicting), r.key, r.time, evicting)
    ensures Answers(p, s, reqs + [r], evicting)
            == Answers(p, s, reqs, evicting) + [Admits(p, After(p, s, reqs, evicting), r.key, r.time)]
  {
    assert (reqs + [r])[..|reqs|] == reqs;
  }

  /** The key can still draw `tokens` at `now`, and no sweep is due. */
  ghost predicate Stocked(p: Params, s: LimiterState, key: string, now: real, tokens: real, evicting: bool) {
    && Available(p, s, key, now) == tokens
    && (evicting ==> now - s.lastSweep < SWEEP_INTERVAL)
  }

  /** A state after `n` of `tokens` were taken from a key at one instant. */
  function Drained(s: LimiterState, r: Request, tokens: real, n: nat): LimiterState {
    if n == 0 then s else s.(buckets := s.buckets[r.key := BucketState(tokens - n as real, r.time)])
  }

  lemma DrainedStocked(p: Params, s: LimiterState, r: Request, tokens: real, n: nat, evicting: bool)
    requires p.Valid() && Stocked(p, s, r.key, r.time, tokens, evicting)
    ensures Stocked(p, Drained(s, r, tokens, n), r.key, r.time, tokens - n as real, evicting)
  {
    EarnedAdds(p, 0.0, 0.0);
    AvailableCapped(p, s, r.key, r.time);
  }

  lemma TakeOne(p: Params, s: LimiterState, r: Request, tokens: real, n: nat, evicting: bool)
    requires p.Valid() && Stocked(p, s, r.key, r.time, tokens, evicting) && tokens >= (n + 1) as real
    ensures Admits(p, Drained(s, r, tokens, n), r.key, r.time)
    ensures Next(p, Drained(s, r, tokens, n), r.key, r.time, evicting) == Drained(s, r, tokens, n + 1)
  {
    DrainedStocked(p, s, r, tokens, n, evicting);
    assert (n + 1) as real == n as real + 1.0;
  }

  lemma AvailableCapped(p: Params, s: LimiterState, key: string, now: real)
    ensures Available(p, s, key, now) <= p.Burst()
  {
  }

  /** `n` requests at one instant each take a token, as long as there are `n`. */
  lemma {:induction false} Drain(p: Params, s: LimiterState, reqs: seq<Request>, r: Request, n: nat, tokens: real, evicting: bool)
    requires p.Valid() && tokens >= n as real
    requires Stocked(p, After(p, s, reqs, evicting), r.key, r.time, tokens, evicting)
    ensures After(p, s, reqs + Repeat(r, n), evicting) == Drained(After(p, s, reqs, evicting), r, tokens, n)
  {
    if n == 0 {
      assert reqs + Repeat(r, 0) == reqs;
    } else {
      Drain(p, s, reqs, r, n - 1, tokens, evicting);
      TakeOne(p, After(p, s, reqs, evicting), r, tokens, n - 1, evicting);
      AppendOne(reqs, r, n);
      RunSplits(p, s, reqs + Repeat(r, n - 1), r, evicting);
    }
  }

  lemma AppendOne(reqs: seq<Request>, r: Request, n: nat)
    requires n > 0
    ensures reqs + Repeat(r, n) == (reqs + Repeat(r, n - 1)) + [r]
  {
  }

  /** Half a token's worth of time past half an hour. */
  function JustIdle(p: Params): real
    requires p.Valid()
  {
    IDLE_LIMIT + 30.0 / p.ratePerMinute as real
  }

  lemma JustIdleEarns(p: Params)
    requires p.Valid()
    ensures JustIdle(p) > IDLE_LIMIT
    ensures p.Earned(JustIdle(p)) == 30.0 * p.ratePerMinute as real + 0.5
  {
    var r := p.ratePerMinute as real;
    assert 30.0 / r > 0.0;
    assert (30.0 / r) * r == 30.0;
    assert (30.0 / r) * (r / 60.0) == ((30.0 / r) * r) / 60.0;
  }

  /** Drain a key, wait just over half an hour, let another key trigger the sweep, then spend what a refill gives. */
  function Probe(p: Params): seq<Request>
    requires p.Valid()
  {
    ProbeHead(p) + Repeat(Request("a", JustIdle(p)), 30 * p.ratePerMinute)
  }

  /** Half an hour after "a" spent its whole burst, "b" calls: the sweep forgets "a", without it "a" is still refilling. */
  lemma SweepForgets(p: Params, evicting: bool)
    requires p.Valid() && p.burst > 30 * p.ratePerMinute
    ensures var spent := LimiterState(map["a" := BucketState(0.0, 0.0)], 0.0);
            Stocked(p, Next(p, spent, "b", JustIdle(p), evicting), "a", JustIdle(p),
                    if evicting then p.Burst() else 30.0 * p.ratePerMinute as real + 0.5, evicting)
  {
    JustIdleEarns(p);
    var spent := LimiterState(map["a" := BucketState(0.0, 0.0)], 0.0);
    var charged := Charged(p, spent, "b", JustIdle(p));
    assert "b" !in spent.buckets;
    assert charged.buckets["a"] == BucketState(0.0, 0.0) && charged.lastSweep == 0.0;
    assert Idle(charged.buckets["a"], JustIdle(p));
  }

  function ProbeHead(p: Params): seq<Request>
    requires p.Valid()
  {
    Repeat(Request("a", 0.0), p.burst) + [Request("b", JustIdle(p))]
  }

  lemma ProbeWaits(p: Params, evicting: bool)
    requires p.Valid() && p.burst > 30 * p.ratePerMinute
    ensures Stocked(p, After(p, LimiterState(map[], 0.0), ProbeHead(p), evicting),
                    "a", JustIdle(p), if evicting then p.Burst() else 30.0 * p.ratePerMinute as real + 0.5, evicting)
  {
    var s, a, b := LimiterState(map[], 0.0), Request("a", 0.0), Request("b", JustIdle(p));
    var first := Repeat(a, p.burst);
    assert first == [] + first;
    Drain(p, s, [], a, p.burst, p.Burst(), evicting);
    RunSplits(p, s, first, b, evicting);
    assert Drained(s, a, p.Burst(), p.burst) == LimiterState(map["a" := BucketState(0.0, 0.0)], 0.0);
    SweepForgets(p, evicting);
  }

  lemma ProbeEnds(p: Params, evicting: bool)
    requires p.Valid() && p.burst > 30 * p.ratePerMinute
    ensures Admits(p, After(p, LimiterState(map[], 0.0), Probe(p), evicting), "a", JustIdle(p)) == evicting
  {
    var s, last := LimiterState(map[], 0.0), Request("a", JustIdle(p));
    var n := 30 * p.ratePerMinute;
    var tokens := if evicting then p.Burst() else n as real + 0.5;
    ProbeWaits(p, evicting);
    Drain(p, s, ProbeHead(p), last, n, tokens, evicting);
    DrainedStocked(p, After(p, s, ProbeHead(p), evicting), last, tokens, n, evicting);
    assert tokens - n as real >= 1.0 <==> evicting;
  }

  lemma ProbeDistinguishes(p: Params)
    requires p.Valid() && p.burst > 30 * p.ratePerMinute
    ensures var last := Request("a", JustIdle(p));
            Answers(p, LimiterState(map[], 0.0), Probe(p) + [last], true)
            != Answers(p, LimiterState(map[], 0.0), Probe(p) + [last], false)
  {
    var s, last := LimiterState(map[], 0.0), Request("a", JustIdle(p));
    ProbeEnds(p, true);
    ProbeEnds(p, false);
    RunSplits(p, s, Probe(p), last, true);
    RunSplits(p, s, Probe(p), last, false);
    var m := |Probe(p)|;
    assert Answers(p, s, Probe(p) + [last], true)[m] != Answers(p, s, Probe(p) + [last], false)[m];
  }

  /** Eviction is invisible exactly when half an hour refills a bucket. */
  lemma EvictionInvisibleIff(p: Params)
    requires p.Valid()
    ensures EvictionInvisible(p) <==> p.burst <= 30 * p.ratePerMinute
  {
    if p.burst <= 30 * p.ratePerMinute {
      forall start: real, reqs: seq<Request> | Ordered(start, reqs)
        ensures Answers(p, LimiterState(map[], start), reqs, true) == Answers(p, LimiterState(map[], start), reqs, false)
      {
        RunsAgree(p, start, reqs, if reqs == [] then start else reqs[|reqs| - 1].time);
      }
    } else {
      JustIdleEarns(p);
      ProbeDistinguishes(p);
      assert Ordered(0.0, Probe(p) + [Request("a", JustIdle(p))]);
    }
  }

  /** With such settings the limiter that runs in production, evicting, decides by the log rule. */
  lemma EvictingLimiterFollowsLogRule(p: Params, start: real, reqs: seq<Request>)
    requires p.Valid() && p.burst <= 30 * p.ratePerMinute && Ordered(start, reqs)
    ensures Answers(p, LimiterState(map[], start), reqs, true) == LogDecisions(p, reqs)
  {
    LimiterFollowsLogRule(p, start, reqs);
    RunsAgree(p, start, reqs, if reqs == [] then start else reqs[|reqs| - 1].time);
  }
}
