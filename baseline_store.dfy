/** The check-in database of `lib/db.ts`: the list of stored check-ins and
    the personal baseline, a running mean of every stored check-in's energy
    (`rms`) and self-reported stress. The JSON file behind it is not part of
    this model; the store is the in-memory object it caches. */
module BaselineStore {
  import opened Numeric

  /** Acoustic features submitted with a check-in. */
  datatype Features = Features(rms: real, zcr: real, speechRate: real, pauseRatio: real)

  /** Stress and fatigue on a 0-10 scale, typed in or inferred. */
  datatype SelfReport = SelfReport(stress: real, fatigue: real)

  /** One stored check-in; `id` and `timestamp` come from the caller. */
  datatype CheckInRecord = CheckInRecord(id: string, timestamp: string, features: Features, selfReport: SelfReport)

  /** The running averages and the number of check-ins they cover. */
  datatype Baseline = Baseline(avgEnergy: real, avgStress: real, windowSize: int)

  /** The baseline of a database that has never been written. */
  const DefaultBaseline := Baseline(0.5, 5.0, 0)

  /** The energy (`rms`) of every record, in storage order. */
  function Energies(records: seq<CheckInRecord>): (es: seq<real>)
    ensures |es| == |records|
    ensures forall i :: 0 <= i < |records| ==> es[i] == records[i].features.rms
  {
    seq(|records|, i requires 0 <= i < |records| => records[i].features.rms)
  }

  /** The self-reported stress of every record, in storage order. */
  function Stresses(records: seq<CheckInRecord>): (ss: seq<real>)
    ensures |ss| == |records|
    ensures forall i :: 0 <= i < |records| ==> ss[i] == records[i].selfReport.stress
  {
    seq(|records|, i requires 0 <= i < |records| => records[i].selfReport.stress)
  }

  /** The incremental mean update of `addCheckIn`: `avg` covered the first
      `n - 1` values and `x` is the `n`-th. The average moves one `n`-th of
      the way from `avg` toward `x`, so it ends between the two. */
  function RunningAverage(avg: real, n: nat, x: real): (r: real)
    requires n >= 1
    ensures (r - avg) * n as real == x - avg
    ensures avg <= x ==> avg <= r <= x
    ensures x <= avg ==> x <= r <= avg
  {
    var r := (avg * (n - 1) as real + x) / n as real;
    assert r * n as real == avg * (n - 1) as real + x;
    assert (x - r) * n as real == (x - avg) * (n - 1) as real;
    r
  }

  /** The incremental update yields the true mean of all values, provided
      the previous average was the mean of the earlier ones. With no
      earlier values the previous average, whatever it was, is discarded. */
  lemma RunningAverageIsMean(xs: seq<real>, avg: real, x: real)
    requires |xs| > 0 ==> avg == Mean(xs)
    ensures RunningAverage(avg, |xs| + 1, x) == Mean(xs + [x])
  {
    if |xs| == 0 {
      assert xs + [x] == [x];
      assert Sum([x]) == Sum([]) + x;
    } else {
      MeanAppend(xs, x);
    }
  }

  /** Folding one more record into averages that are the means of the
      earlier records gives the means of all of them. */
  lemma AppendKeepsMeans(before: seq<CheckInRecord>, b: Baseline, record: CheckInRecord)
    requires |before| > 0 ==> b.avgEnergy == Mean(Energies(before)) && b.avgStress == Mean(Stresses(before))
    ensures RunningAverage(b.avgEnergy, |before| + 1, record.features.rms) == Mean(Energies(before + [record]))
    ensures RunningAverage(b.avgStress, |before| + 1, record.selfReport.stress) == Mean(Stresses(before + [record]))
  {
    var after := before + [record];
    assert Energies(after) == Energies(before) + [record.features.rms];
    assert Stresses(after) == Stresses(before) + [record.selfReport.stress];
    RunningAverageIsMean(Energies(before), b.avgEnergy, record.features.rms);
    RunningAverageIsMean(Stresses(before), b.avgStress, record.selfReport.stress);
  }

  class Store {
    var checkIns: seq<CheckInRecord>
    var baseline: Baseline

    /** The baseline describes exactly the stored check-ins: its window is
        their number and, once there is one, its averages are their means. */
    ghost predicate Valid()
      reads this
    {
      && baseline.windowSize == |checkIns|
      && (|checkIns| > 0 ==>
            && baseline.avgEnergy == Mean(Energies(checkIns))
            && baseline.avgStress == Mean(Stresses(checkIns)))
    }

    /** A database read while no file exists yet. */
    constructor ()
      ensures checkIns == [] && baseline == DefaultBaseline
      ensures Valid()
    {
      checkIns := [];
      baseline := DefaultBaseline;
    }

    /** `db.getCheckIns`: reads, changes nothing. */
    method GetCheckIns() returns (records: seq<CheckInRecord>)
      ensures records == checkIns
    {
      records := checkIns;
    }

    /** `db.getBaseline`: reads, changes nothing. */
    method GetBaseline() returns (b: Baseline)
      ensures b == baseline
    {
      b := baseline;
    }

    /** `db.addCheckIn`: append the record, then fold its energy and stress
        into the running averages, with `n` the new number of check-ins. */
    method AddCheckIn(record: CheckInRecord)
      modifies this
      ensures checkIns == old(checkIns) + [record]
      ensures baseline.windowSize == |checkIns|
      ensures baseline.avgEnergy == RunningAverage(old(baseline.avgEnergy), |checkIns|, record.features.rms)
      ensures baseline.avgStress == RunningAverage(old(baseline.avgStress), |checkIns|, record.selfReport.stress)
      ensures old(checkIns) == [] ==>
                baseline.avgEnergy == record.features.rms && baseline.avgStress == record.selfReport.stress
      ensures old(Valid()) ==> Valid()
    {
      ghost var wasValid := Valid();
      ghost var before := checkIns;
      checkIns := checkIns + [record];
      var n := |checkIns|;
      var prevE := baseline.avgEnergy * (n - 1) as real;
      var newE := (prevE + record.features.rms) / n as real;
      var prevStress := baseline.avgStress * (n - 1) as real;
      var newStress := (prevStress + record.selfReport.stress) / n as real;
      if wasValid {
        AppendKeepsMeans(before, baseline, record);
      }
      baseline := Baseline(newE, newStress, n);
    }
  }
}
