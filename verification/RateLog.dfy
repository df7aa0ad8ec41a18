/**
 * What a token bucket means: a rule stated on the request log alone. A
 * request passes exactly when no run of requests ending at it, of any length,
 * would exceed the burst plus what was earned over that run.
 */
module RateLog {
  import opened RateLimit

  datatype Request = Request(key: string, time: real)

  datatype Entry = Entry(time: real, admitted: bool)

  function Tally(admitted: bool): nat {
    if admitted then 1 else 0
  }

  /** Requests admitted among entries `i` and later. */
  function AdmittedSince(log: seq<Entry>, i: nat): nat {
    if i >= |log| then 0
    else AdmittedSince(log[..|log| - 1], i) + Tally(log[|log| - 1].admitted)
  }

  /** The time of request `i`, where the request being decided, at `now`, comes right after the log. */
  function TimeOf(log: seq<Entry>, now: real, i: nat): real {
    if i < |log| then log[i].time else now
  }

  /** What is left of the allowance of the requests from `i` up to the one at `now`. */
  function Allowance(p: Params, log: seq<Entry>, now: real, i: nat): real {
    p.Burst() + p.Earned(now - TimeOf(log, now, i)) - AdmittedSince(log, i) as real
  }

  /** The log rule. */
  ghost predicate Permitted(p: Params, log: seq<Entry>, now: real) {
    forall i :: 0 <= i <= |log| ==> Allowance(p, log, now, i) >= 1.0
  }

  /** The entries of one key, given the decisions taken so far. */
  function KeyLog(reqs: seq<Request>, decisions: seq<bool>, key: string): seq<Entry>
    requires |decisions| == |reqs|
  {
    if reqs == [] then []
    else
      var n := |reqs| - 1;
      KeyLog(reqs[..n], decisions[..n], key)
      + if reqs[n].key == key then [Entry(reqs[n].time, decisions[n])] else []
  }

  /** Deciding every request by the log rule. */
  ghost function LogDecisions(p: Params, reqs: seq<Request>): (ds: seq<bool>)
    ensures |ds| == |reqs|
  {
    if reqs == [] then []
    else
      var n := |reqs| - 1;
      var ds := LogDecisions(p, reqs[..n]);
      ds + [Permitted(p, KeyLog(reqs[..n], ds, reqs[n].key), reqs[n].time)]
  }

  /** The limiter's state after a sequence of requests. */
  function After(p: Params, s: LimiterState, reqs: seq<Request>, evicting: bool): LimiterState {
    if reqs == [] then s
    else
      var n := |reqs| - 1;
      Next(p, After(p, s, reqs[..n], evicting), reqs[n].key, reqs[n].time, evicting)
  }

  /** The limiter's answers to a sequence of requests. */
  function Answers(p: Params, s: LimiterState, reqs: seq<Request>, evicting: bool): (ds: seq<bool>)
    ensures |ds| == |reqs|
  {
    if reqs == [] then []
    else
      var n := |reqs| - 1;
      Answers(p, s, reqs[..n], evicting)
      + [Admits(p, After(p, s, reqs[..n], evicting), reqs[n].key, reqs[n].time)]
  }

  lemma EarnedAdds(p: Params, x: real, y: real)
    ensures p.Earned(x) + p.Earned(y) == p.Earned(x + y)
    ensures p.Earned(0.0) == 0.0
  {
  }

  lemma EarnedMonotone(p: Params, x: real, y: real)
    requires p.Valid() && x <= y
    ensures p.Earned(x) <= p.Earned(y)
  {
    assert p.Rate() >= 0.0;
    assert p.Earned(y) - p.Earned(x) == (y - x) * p.Rate();
  }

  /** Tokens in a bucket that has seen exactly `log`. */
  function Level(p: Params, log: seq<Entry>, now: real): real {
    if log == [] then p.Burst()
    else
      var r := log[|log| - 1];
      Min(p.Burst(), Level(p, log[..|log| - 1], r.time) - Tally(r.admitted) as real + p.Earned(now - r.time))
  }

  /** Appending an entry shifts every earlier allowance by what was spent and earned since. */
  lemma AllowanceShifts(p: Params, log: seq<Entry>, now: real, i: nat)
    requires log != [] && i < |log|
    ensures var r := log[|log| - 1];
            Allowance(p, log, now, i)
            == Allowance(p, log[..|log| - 1], r.time, i) - Tally(r.admitted) as real + p.Earned(now - r.time)
  {
    var n := |log| - 1;
    var r := log[n];
    EarnedAdds(p, now - r.time, r.time - TimeOf(log[..n], r.time, i));
    assert TimeOf(log, now, i) == TimeOf(log[..n], r.time, i);
  }

  /** The bucket level is the least allowance over all starting requests. */
  lemma {:induction false} LevelIsLeastAllowance(p: Params, log: seq<Entry>, now: real) returns (least: nat)
    ensures least <= |log| && Level(p, log, now) == Allowance(p, log, now, least)
    ensures forall i :: 0 <= i <= |log| ==> Level(p, log, now) <= Allowance(p, log, now, i)
  {
    var n := |log|;
    EarnedAdds(p, 0.0, 0.0);
    assert Allowance(p, log, now, n) == p.Burst();
    least := n;
    if log != [] {
      var r := log[n - 1];
      var inner := LevelIsLeastAllowance(p, log[..n - 1], r.time);
      forall i | 0 <= i < n
        ensures Level(p, log, now) <= Allowance(p, log, now, i)
      {
        AllowanceShifts(p, log, now, i);
      }
      AllowanceShifts(p, log, now, inner);
      if Level(p, log, now) != p.Burst() {
        least := inner;
      }
    }
  }

  lemma PermittedIffLevel(p: Params, log: seq<Entry>, now: real)
    ensures Permitted(p, log, now) <==> Level(p, log, now) >= 1.0
  {
    var least := LevelIsLeastAllowance(p, log, now);
  }

  /** The bucket of a key holds exactly what the key's log says. */
  ghost predicate Reflects(p: Params, s: LimiterState, key: string, log: seq<Entry>) {
    if log == [] then key !in s.buckets
    else
      var r := log[|log| - 1];
      && key in s.buckets
      && s.buckets[key] == BucketState(Level(p, log[..|log| - 1], r.time) - Tally(r.admitted) as real, r.time)
  }

  lemma ReflectsAvailable(p: Params, s: LimiterState, key: string, log: seq<Entry>, now: real)
    requires p.Valid() && Reflects(p, s, key, log)
    ensures Available(p, s, key, now) == Level(p, log, now)
    ensures Admits(p, s, key, now) <==> Permitted(p, log, now)
  {
    PermittedIffLevel(p, log, now);
  }

  /** One request extends the log of its own key and leaves every other key's bucket alone. */
  lemma ChargedReflects(p: Params, s: LimiterState, r: Request, key: string, log: seq<Entry>)
    requires p.Valid() && Reflects(p, s, key, log)
    ensures Reflects(p, Charged(p, s, r.key, r.time), key,
                     log + if r.key == key then [Entry(r.time, Admits(p, s, r.key, r.time))] else [])
  {
    if r.key == key {
      ReflectsAvailable(p, s, key, log, r.time);
      var log' := log + [Entry(r.time, Admits(p, s, key, r.time))];
      assert log'[..|log'| - 1] == log;
    } else {
      assert log + [] == log;
    }
  }

  lemma {:induction false} BucketsReflectLogs(p: Params, start: real, reqs: seq<Request>, key: string)
    requires p.Valid()
    ensures Answers(p, LimiterState(map[], start), reqs, false) == LogDecisions(p, reqs)
    ensures Reflects(p, After(p, LimiterState(map[], start), reqs, false), key,
                     KeyLog(reqs, LogDecisions(p, reqs), key))
  {
    if reqs != [] {
      var n := |reqs| - 1;
      var s, r := After(p, LimiterState(map[], start), reqs[..n], false), reqs[n];
      var ds := LogDecisions(p, reqs[..n]);
      BucketsReflectLogs(p, start, reqs[..n], key);
      BucketsReflectLogs(p, start, reqs[..n], r.key);
      ReflectsAvailable(p, s, r.key, KeyLog(reqs[..n], ds, r.key), r.time);
      ChargedReflects(p, s, r, key, KeyLog(reqs[..n], ds, key));
      assert LogDecisions(p, reqs)[..n] == ds;
    }
  }

  /** Without eviction the limiter decides every request exactly as the log rule does. */
  lemma LimiterFollowsLogRule(p: Params, start: real, reqs: seq<Request>)
    requires p.Valid()
    ensures Answers(p, LimiterState(map[], start), reqs, false) == LogDecisions(p, reqs)
  {
    BucketsReflectLogs(p, start, reqs, "");
  }

  /** Each entry of a key's log was decided by the rule on the entries before it. */
  lemma {:induction false} LogIsDecidedByRule(p: Params, reqs: seq<Request>, key: string, m: nat)
    requires m < |KeyLog(reqs, LogDecisions(p, reqs), key)|
    ensures var log := KeyLog(reqs, LogDecisions(p, reqs), key);
            log[m].admitted <==> Permitted(p, log[..m], log[m].time)
  {
    var n := |reqs| - 1;
    var ds := LogDecisions(p, reqs[..n]);
    assert LogDecisions(p, reqs)[..n] == ds;
    var before, log := KeyLog(reqs[..n], ds, key), KeyLog(reqs, LogDecisions(p, reqs), key);
    if m < |before| {
      LogIsDecidedByRule(p, reqs[..n], key, m);
      assert log[..m] == before[..m];
    } else {
      assert log[..m] == before;
    }
  }

  /** Admitted among entries `i..j` of a log. */
  function AdmittedBetween(log: seq<Entry>, i: nat, j: nat): nat
    requires j <= |log|
  {
    AdmittedSince(log[..j], i)
  }

  lemma {:induction false} WindowEarns(p: Params, reqs: seq<Request>, key: string, i: nat, j: nat, length: real)
    requires p.Valid() && length >= 0.0
    requires i <= j <= |KeyLog(reqs, LogDecisions(p, reqs), key)|
    requires var log := KeyLog(reqs, LogDecisions(p, reqs), key);
             forall a, b :: i <= a <= b < j ==> log[b].time - log[a].time <= length
    ensures AdmittedBetween(KeyLog(reqs, LogDecisions(p, reqs), key), i, j) as real <= p.Burst() + p.Earned(length)
    decreases j
  {
    var log := KeyLog(reqs, LogDecisions(p, reqs), key);
    EarnedAdds(p, 0.0, 0.0);
    EarnedMonotone(p, 0.0, length);
    if i < j {
      assert log[..j][..j - 1] == log[..j - 1];
      if log[j - 1].admitted {
        LogIsDecidedByRule(p, reqs, key, j - 1);
        assert Allowance(p, log[..j - 1], log[j - 1].time, i) >= 1.0;
        EarnedMonotone(p, log[j - 1].time - TimeOf(log[..j - 1], log[j - 1].time, i), length);
      } else {
        WindowEarns(p, reqs, key, i, j - 1, length);
      }
    }
  }

  /** Any stretch of a key's requests spanning `length` seconds admits at most the burst plus what that time earns. */
  lemma WindowBound(p: Params, reqs: seq<Request>, key: string, i: nat, j: nat, length: real)
    requires p.Valid() && length >= 0.0
    requires i <= j <= |KeyLog(reqs, LogDecisions(p, reqs), key)|
    requires var log := KeyLog(reqs, LogDecisions(p, reqs), key);
             forall a, b :: i <= a <= b < j ==> log[b].time - log[a].time <= length
    ensures AdmittedBetween(KeyLog(reqs, LogDecisions(p, reqs), key), i, j) as real
         <= p.burst as real + length * (p.ratePerMinute as real / 60.0)
  {
    WindowEarns(p, reqs, key, i, j, length);
    AllowanceIs(p, length);
  }

  lemma AllowanceIs(p: Params, elapsed: real)
    ensures p.Burst() + p.Earned(elapsed) == p.burst as real + elapsed * (p.ratePerMinute as real / 60.0)
  {
  }

  lemma Overdrawn(p: Params, log: seq<Entry>, now: real) returns (i: nat)
    requires !Permitted(p, log, now)
    ensures i <= |log|
    ensures AdmittedSince(log, i) as real + 1.0
              > p.burst as real + (now - TimeOf(log, now, i)) * (p.ratePerMinute as real / 60.0)
  {
    i :| 0 <= i <= |log| && Allowance(p, log, now, i) < 1.0;
    AllowanceIs(p, now - TimeOf(log, now, i));
  }

  /**
   * And nothing is refused without need: some stretch of the key's requests,
   * together with the refused one, would have been more than the burst and
   * what was earned over it.
   */
  lemma RefusalIsJustified(p: Params, reqs: seq<Request>, key: string, m: nat) returns (i: nat)
    requires p.Valid() && m < |KeyLog(reqs, LogDecisions(p, reqs), key)|
    requires !KeyLog(reqs, LogDecisions(p, reqs), key)[m].admitted
    ensures var log := KeyLog(reqs, LogDecisions(p, reqs), key);
            && i <= m
            && AdmittedBetween(log, i, m) as real + 1.0
                 > p.burst as real + (log[m].time - log[i].time) * (p.ratePerMinute as real / 60.0)
  {
    var log := KeyLog(reqs, LogDecisions(p, reqs), key);
    LogIsDecidedByRule(p, reqs, key, m);
    i := Overdrawn(p, log[..m], log[m].time);
    assert TimeOf(log[..m], log[m].time, i) == log[i].time;
  }
}
