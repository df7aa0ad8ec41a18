/** Throughput accounting over a whole run of samples. */
module Throughput {
  import opened Results
  import opened Sessions

  datatype Reading = Reading(at: real, down: nat, up: nat) {
    function Counter(upward: bool): nat {
      if upward then up else down
    }
  }

  const FRESH := Baseline(None, 0, 0, [])

  function After(rs: seq<Reading>): Baseline {
    if rs == [] then FRESH
    else
      var r := rs[|rs| - 1];
      Sampled(After(rs[..|rs| - 1]), r.at, r.down, r.up)
  }

  /** What the last sample of a run reported, in Mbps. */
  function Reported(rs: seq<Reading>, upward: bool): real
    requires rs != []
  {
    var r, b := rs[|rs| - 1], After(rs[..|rs| - 1]);
    Rate(b, r.at, if upward then b.up else b.down, r.Counter(upward))
  }

  /** All reported download values of a run, oldest first. */
  function AllReported(rs: seq<Reading>): seq<real> {
    if rs == [] then [] else AllReported(rs[..|rs| - 1]) + [Reported(rs, false)]
  }

  /** Reported rate times the time it covers, summed over a run. */
  function ReportedVolume(rs: seq<Reading>, upward: bool): real {
    if |rs| < 2 then 0.0
    else
      var n := |rs| - 1;
      ReportedVolume(rs[..n], upward) + Reported(rs, upward) * (rs[n].at - rs[n - 1].at)
  }

  /** Bytes a counter grew by, ignoring the steps where it fell. */
  function Growth(rs: seq<Reading>, upward: bool): nat {
    if |rs| < 2 then 0
    else
      Growth(rs[..|rs| - 1], upward) + Step(rs, upward)
  }

  ghost predicate Increasing(rs: seq<Reading>) {
    forall i, j :: 0 <= i < j < |rs| ==> rs[i].at < rs[j].at
  }

  lemma BaselineIsLastReading(rs: seq<Reading>)
    requires rs != []
    ensures var r := rs[|rs| - 1]; After(rs).at == Some(r.at) && After(rs).down == r.down && After(rs).up == r.up
  {
  }

  function Megabits(bytes: nat): real {
    bytes as real * 8.0 / 1000000.0
  }

  lemma RateTimesTime(bytes: nat, elapsed: real)
    requires elapsed > 0.0
    ensures Mbps(bytes, elapsed) * elapsed == Megabits(bytes)
  {
    var x := bytes as real * 8.0;
    assert (x / elapsed) * elapsed == x;
    assert x / elapsed / 1000000.0 * elapsed == (x / elapsed) * elapsed / 1000000.0;
  }

  /**
   * What one reported rate says: nothing without an earlier reading, without
   * elapsed time or for a counter that fell; otherwise Mbps times seconds is
   * eight bits for every byte, counted in millions.
   */
  lemma RateMeans(b: Baseline, now: real, before: nat, bytes: nat)
    ensures b.at.None? || now <= b.at.value || bytes < before ==> Rate(b, now, before, bytes) == 0.0
    ensures b.at.Some? && now > b.at.value && bytes >= before ==>
              Rate(b, now, before, bytes) * (now - b.at.value) * 1000000.0 == 8.0 * (bytes - before) as real
  {
    if b.at.Some? && now > b.at.value && bytes >= before {
      RateTimesTime(bytes - before, now - b.at.value);
    }
  }

  function Step(rs: seq<Reading>, upward: bool): nat
    requires |rs| >= 2
  {
    var n := |rs| - 1;
    var before, now := rs[n - 1].Counter(upward), rs[n].Counter(upward);
    if now >= before then now - before else 0
  }

  lemma ReportedStep(rs: seq<Reading>, upward: bool)
    requires Increasing(rs) && |rs| >= 2
    ensures var n := |rs| - 1;
            Reported(rs, upward) * (rs[n].at - rs[n - 1].at) == Megabits(Step(rs, upward))
  {
    var n := |rs| - 1;
    BaselineIsLastReading(rs[..n]);
    RateTimesTime(Step(rs, upward), rs[n].at - rs[n - 1].at);
  }

  lemma MegabitsAdd(x: nat, y: nat)
    ensures Megabits(x + y) == Megabits(x) + Megabits(y)
  {
    assert (x + y) as real == x as real + y as real;
  }

  /** The reported rates account for every byte of growth: the sum of Mbps times seconds is the growth in megabits. */
  lemma {:induction false} RatesTelescope(rs: seq<Reading>, upward: bool)
    requires Increasing(rs)
    ensures ReportedVolume(rs, upward) == Megabits(Growth(rs, upward)) == Growth(rs, upward) as real * 8.0 / 1000000.0
  {
    if |rs| >= 2 {
      RatesTelescope(rs[..|rs| - 1], upward);
      ReportedStep(rs, upward);
      MegabitsAdd(Growth(rs[..|rs| - 1], upward), Step(rs, upward));
    }
  }

  /** A counter that never falls is accounted from its first to its last reading. */
  lemma {:induction false} MonotoneGrowth(rs: seq<Reading>, upward: bool)
    requires rs != []
    requires forall i, j :: 0 <= i < j < |rs| ==> rs[i].Counter(upward) <= rs[j].Counter(upward)
    ensures Growth(rs, upward) == rs[|rs| - 1].Counter(upward) - rs[0].Counter(upward)
  {
    if |rs| >= 2 {
      MonotoneGrowth(rs[..|rs| - 1], upward);
    }
  }

  /** The history shown is always the newest sixteen download values, in order. */
  lemma {:induction false} HistoryIsNewest(rs: seq<Reading>)
    ensures |AllReported(rs)| == |rs|
    ensures After(rs).history == if |rs| > 16 then AllReported(rs)[|rs| - 16..] else AllReported(rs)
  {
    if rs != [] {
      HistoryIsNewest(rs[..|rs| - 1]);
    }
  }
}
