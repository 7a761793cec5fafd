/** The analytics page: per parameter, the count, mean, least and greatest
    value of the included measurements of every patient, the latest value
    and its date, and the trend of the latest value against the earlier ones. */
module Analytics {
  import opened Wrappers
  import opened Stats
  import opened Records
  import opened Sequences

  datatype Trend = Up | Down | Stable

  /** `trend`: 'stable', then 'up' when the latest value exceeds the earlier
      mean by more than 5% of the mean, then 'down' when it falls short by
      more than that, the later test winning. */
  function TrendOf(lastValue: real, previousMean: real, mean: real): (t: Trend)
    ensures t == Down <==> lastValue - previousMean < -(mean * 0.05)
    ensures t == Up <==> lastValue - previousMean > mean * 0.05 && !(lastValue - previousMean < -(mean * 0.05))
    ensures t == Stable <==> -(mean * 0.05) <= lastValue - previousMean <= mean * 0.05
  {
    var diff := lastValue - previousMean;
    var threshold := mean * 0.05;
    var trend := if diff > threshold then Up else Stable;
    if diff < -threshold then Down else trend
  }

  /** For a non-negative mean the two tests exclude each other, so 'up' is
      exactly the first test; for a negative mean both can hold and 'down' is
      reported. */
  lemma TrendTests(lastValue: real, previousMean: real, mean: real)
    ensures 0.0 <= mean ==>
      (TrendOf(lastValue, previousMean, mean) == Up <==> lastValue - previousMean > mean * 0.05)
    ensures mean < 0.0 && mean * 0.05 < lastValue - previousMean < -(mean * 0.05) ==>
      TrendOf(lastValue, previousMean, mean) == Down
  {
  }

  datatype ParameterStats = ParameterStats(
    count: nat,
    mean: real,
    min: real,
    max: real,
    lastValue: real,
    trend: Trend,
    lastDate: Date)

  /** `m.parameter === paramName && m.includedInFormula`: a flag that is
      exactly true. */
  function IncludedOf(paramName: string): Measurement -> bool {
    (m: Measurement) => m.parameter == paramName && m.includedInFormula == Some(true)
  }

  /** The included records of the parameter, of every patient, oldest first. */
  function IncludedRecords(ms: seq<Measurement>, paramName: string): (r: seq<Measurement>)
    ensures Ascending(r, MeasurementDate)
    ensures StableBy(r, Filter(ms, IncludedOf(paramName)), MeasurementDate)
  {
    SortAscendingStable(Filter(ms, IncludedOf(paramName)), MeasurementDate);
    SortAscending(Filter(ms, IncludedOf(paramName)), MeasurementDate)
  }

  /** `getParameterStats(paramName)`, the mean left unrounded. */
  function GetParameterStats(ms: seq<Measurement>, paramName: string): (r: Option<ParameterStats>)
    ensures r.None? <==> IncludedRecords(ms, paramName) == []
  {
    var records := IncludedRecords(ms, paramName);
    if |records| == 0 then None
    else
      var values := Values(records);
      var n := |values|;
      var mean := Mean(values);
      var lastValue := values[n - 1];
      var previousMean := if n > 1 then Mean(values[..n - 1]) else mean;
      Some(ParameterStats(n, mean, Min(values), Max(values), lastValue,
                          TrendOf(lastValue, previousMean, mean), records[n - 1].date))
  }

  /** The records are exactly the included records of the parameter. */
  lemma IncludedRecordsMembers(ms: seq<Measurement>, paramName: string)
    ensures var r := IncludedRecords(ms, paramName);
      |r| == Count(ms, IncludedOf(paramName))
      && (forall i :: 0 <= i < |r| ==> r[i] in ms && IncludedOf(paramName)(r[i]))
      && (forall k :: 0 <= k < |ms| && IncludedOf(paramName)(ms[k]) ==> ms[k] in r)
  {
    var keep := IncludedOf(paramName);
    var own := Filter(ms, keep);
    var r := IncludedRecords(ms, paramName);
    CountIsFilterLength(ms, keep);
    forall i | 0 <= i < |r| ensures r[i] in ms && keep(r[i]) {
      assert r[i] in multiset(r);
      assert r[i] in own;
      FilterMember(ms, keep, r[i]);
    }
    forall k | 0 <= k < |ms| && keep(ms[k]) ensures ms[k] in r {
      assert ms[k] in own;
      assert ms[k] in multiset(own);
    }
  }

  /** No statistics exactly when no record of the parameter is included; else
      the count is the number of included records of every patient, the mean
      is their average and lies between the least and greatest value, which bound the latest value
      too, the latest value is that of the last record in date order, the
      trend of two or more compares it with the mean of the earlier ones, and
      the latest date is that of an included record no other included record
      is later than. */
  lemma ParameterStatsFacts(ms: seq<Measurement>, paramName: string)
    ensures var r := GetParameterStats(ms, paramName);
      (r.None? <==> forall k :: 0 <= k < |ms| ==> !IncludedOf(paramName)(ms[k]))
      && (r.Some? ==>
            var s := r.value;
            var vs := Values(IncludedRecords(ms, paramName));
            s.count == Count(ms, IncludedOf(paramName)) == |vs|
            && s.mean == Mean(vs) && s.lastValue == vs[|vs| - 1]
            && (|vs| >= 2 ==> s.trend == TrendOf(s.lastValue, Mean(vs[..|vs| - 1]), s.mean))
            && s.min <= s.mean <= s.max && s.min <= s.lastValue <= s.max
            && (forall k :: 0 <= k < |ms| && IncludedOf(paramName)(ms[k]) ==>
                  s.min <= ms[k].value <= s.max && DateKey(ms[k].date) <= DateKey(s.lastDate))
            && exists k :: 0 <= k < |ms| && IncludedOf(paramName)(ms[k])
                 && ms[k].date == s.lastDate && ms[k].value == s.lastValue)
  {
    IncludedRecordsMembers(ms, paramName);
    var records := IncludedRecords(ms, paramName);
    if |records| > 0 {
      var values := Values(records);
      var n := |values|;
      MeanBetweenMinMax(values);
      MinMaxBound(values);
      IncludedWithinStats(ms, paramName);
      assert records[n - 1] in records;
      var k :| 0 <= k < |ms| && ms[k] == records[n - 1];
    }
  }

  /** Every included record lies between the least and greatest included
      value and is no later than the latest included record. */
  lemma IncludedWithinStats(ms: seq<Measurement>, paramName: string)
    requires |IncludedRecords(ms, paramName)| > 0
    ensures var records := IncludedRecords(ms, paramName);
      var values := Values(records);
      forall k :: 0 <= k < |ms| && IncludedOf(paramName)(ms[k]) ==>
        Min(values) <= ms[k].value <= Max(values)
        && DateKey(ms[k].date) <= DateKey(records[|records| - 1].date)
  {
    IncludedRecordsMembers(ms, paramName);
    var records := IncludedRecords(ms, paramName);
    forall k | 0 <= k < |ms| && IncludedOf(paramName)(ms[k])
      ensures Min(Values(records)) <= ms[k].value <= Max(Values(records))
      ensures DateKey(ms[k].date) <= DateKey(records[|records| - 1].date)
    {
      RecordWithinStats(records, ms[k]);
    }
  }

  /** A record of an ascending list lies between its least and greatest
      value and is no later than its last record. */
  lemma RecordWithinStats(records: seq<Measurement>, m: Measurement)
    requires m in records && Ascending(records, MeasurementDate)
    ensures Min(Values(records)) <= m.value <= Max(Values(records))
    ensures DateKey(m.date) <= DateKey(records[|records| - 1].date)
  {
    var values := Values(records);
    MinMaxBound(values);
    var j :| 0 <= j < |records| && records[j] == m;
    assert values[j] == m.value;
    assert MeasurementDate(records[j]) <= MeasurementDate(records[|records| - 1]);
  }

  /** The latest value and date are those of the last-stored included record
      of the latest date, as the stable sort leaves it last. */
  lemma LatestIsLastStored(ms: seq<Measurement>, paramName: string)
    requires GetParameterStats(ms, paramName).Some?
    ensures var s := GetParameterStats(ms, paramName).value;
      var sameDay := Filter(Filter(ms, IncludedOf(paramName)), KeyIs(MeasurementDate, DateKey(s.lastDate)));
      |sameDay| > 0
      && sameDay[|sameDay| - 1].value == s.lastValue && sameDay[|sameDay| - 1].date == s.lastDate
      && forall i :: 0 <= i < |ms| && IncludedOf(paramName)(ms[i]) ==> DateKey(ms[i].date) <= DateKey(s.lastDate)
  {
    var records := IncludedRecords(ms, paramName);
    var s := GetParameterStats(ms, paramName).value;
    LatestOfRecords(ms, paramName);
    var latest := KeyIs(MeasurementDate, DateKey(s.lastDate));
    assert Filter(records, latest) == Filter(Filter(ms, IncludedOf(paramName)), latest);
    LastOfItsKey(records, MeasurementDate);
    ParameterStatsFacts(ms, paramName);
  }

  /** The latest value and date are those of the last record in date order. */
  lemma LatestOfRecords(ms: seq<Measurement>, paramName: string)
    requires GetParameterStats(ms, paramName).Some?
    ensures var s := GetParameterStats(ms, paramName).value;
      var records := IncludedRecords(ms, paramName);
      |records| > 0
      && s.lastDate == records[|records| - 1].date && s.lastValue == records[|records| - 1].value
  {
  }

  /** With two or more included records the trend compares the latest value
      with the average of the earlier ones, against 5% of the overall
      average: 'down' exactly below it, 'stable' exactly within it, and, for
      a non-negative average, 'up' exactly above it. */
  lemma TrendAgainstEarlier(ms: seq<Measurement>, paramName: string)
    requires |IncludedRecords(ms, paramName)| >= 2
    ensures var vs := Values(IncludedRecords(ms, paramName));
      var n := |vs|;
      var s := GetParameterStats(ms, paramName).value;
      var earlier := Sum(vs[..n - 1]) / ((n - 1) as real);
      && s.mean == Sum(vs) / (n as real) && s.lastValue == vs[n - 1]
      && (s.trend == Down <==> s.lastValue - earlier < -(s.mean * 0.05))
      && (s.trend == Stable <==> -(s.mean * 0.05) <= s.lastValue - earlier <= s.mean * 0.05)
      && (0.0 <= s.mean ==> (s.trend == Up <==> s.lastValue - earlier > s.mean * 0.05))
  {
    var vs := Values(IncludedRecords(ms, paramName));
    var n := |vs|;
    var s := GetParameterStats(ms, paramName).value;
    TrendTests(s.lastValue, Mean(vs[..n - 1]), s.mean);
  }

  /** A single included measurement of a non-negative value is stable, and
      of a negative value is reported as going down. */
  lemma SingleMeasurementTrend(ms: seq<Measurement>, paramName: string)
    requires |IncludedRecords(ms, paramName)| == 1
    ensures var s := GetParameterStats(ms, paramName).value;
      s.trend == (if 0.0 <= s.lastValue then Stable else Down)
  {
    var values := Values(IncludedRecords(ms, paramName));
    assert Sum(values) == values[0] by {
      assert values[..0] == [];
    }
  }
}
