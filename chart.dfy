/** The chart of one parameter: the active patient's points in date order
    and the Y-axis domain that fits them and the ranges shown. */
module Chart {
  import opened Wrappers
  import opened Stats
  import opened Records
  import opened Sequences
  import opened MedicalContext
  import opened StatusOverview
  import opened CalendarView

  /** A plotted point; the day-and-month caption is left out. */
  datatype ChartPoint = ChartPoint(fullDate: Date, value: real, id: int,
                                   includedInFormula: Option<bool>, notes: string)

  /** `chartData`: the patient's records of the parameter, oldest first. */
  function ChartData(ms: seq<Measurement>, parameterName: string, activeId: Option<string>): (r: seq<ChartPoint>)
    ensures var records := ParameterRecords(ms, parameterName, activeId);
      |r| == |records| && forall i :: 0 <= i < |r| ==>
        r[i] == ChartPoint(records[i].date, records[i].value, records[i].id,
                           records[i].includedInFormula, records[i].notes)
  {
    var records := ParameterRecords(ms, parameterName, activeId);
    seq(|records|, i requires 0 <= i < |records| =>
      ChartPoint(records[i].date, records[i].value, records[i].id, records[i].includedInFormula, records[i].notes))
  }

  /** The points are the patient's records of the parameter, by ascending date. */
  lemma ChartDataFacts(ms: seq<Measurement>, parameterName: string, activeId: Option<string>)
    ensures var r := ChartData(ms, parameterName, activeId);
      (forall i, j :: 0 <= i <= j < |r| ==> DateKey(r[i].fullDate) <= DateKey(r[j].fullDate))
      && (forall i :: 0 <= i < |r| ==>
            exists k :: 0 <= k < |ms| && ShownFor(parameterName, activeId)(ms[k])
              && ms[k].id == r[i].id && ms[k].value == r[i].value && ms[k].date == r[i].fullDate)
      && |r| == Count(ms, ShownFor(parameterName, activeId))
  {
    ChartDataOrdered(ms, parameterName, activeId);
    ChartDataSources(ms, parameterName, activeId);
    CountIsFilterLength(ms, ShownFor(parameterName, activeId));
  }

  /** The points are by ascending date. */
  lemma ChartDataOrdered(ms: seq<Measurement>, parameterName: string, activeId: Option<string>)
    ensures var r := ChartData(ms, parameterName, activeId);
      forall i, j :: 0 <= i <= j < |r| ==> DateKey(r[i].fullDate) <= DateKey(r[j].fullDate)
  {
    var records := ParameterRecords(ms, parameterName, activeId);
    var r := ChartData(ms, parameterName, activeId);
    forall i, j | 0 <= i <= j < |r| ensures DateKey(r[i].fullDate) <= DateKey(r[j].fullDate) {
      assert MeasurementDate(records[i]) <= MeasurementDate(records[j]);
    }
  }

  /** Every point comes from a record of the patient's parameter. */
  lemma ChartDataSources(ms: seq<Measurement>, parameterName: string, activeId: Option<string>)
    ensures var r := ChartData(ms, parameterName, activeId);
      forall i :: 0 <= i < |r| ==>
        exists k :: 0 <= k < |ms| && ShownFor(parameterName, activeId)(ms[k])
          && ms[k].id == r[i].id && ms[k].value == r[i].value && ms[k].date == r[i].fullDate
  {
    var records := ParameterRecords(ms, parameterName, activeId);
    ParameterRecordsMembers(ms, parameterName, activeId);
    var r := ChartData(ms, parameterName, activeId);
    forall i | 0 <= i < |r|
      ensures exists k ::
                0 <= k < |ms| && ShownFor(parameterName, activeId)(ms[k])
                && ms[k].id == r[i].id && ms[k].value == r[i].value && ms[k].date == r[i].fullDate
    {
      PointSource(ms, records, parameterName, activeId, r[i], i);
    }
  }

  /** A point comes from a record of the patient's parameter. */
  lemma PointSource(ms: seq<Measurement>, records: seq<Measurement>, parameterName: string,
                    activeId: Option<string>, p: ChartPoint, i: nat)
    requires i < |records| && records[i] in ms && ShownFor(parameterName, activeId)(records[i])
    requires p.id == records[i].id && p.value == records[i].value && p.fullDate == records[i].date
    ensures exists k :: 0 <= k < |ms| && ShownFor(parameterName, activeId)(ms[k])
              && ms[k].id == p.id && ms[k].value == p.value && ms[k].date == p.fullDate
  {
    var k :| 0 <= k < |ms| && ms[k] == records[i];
  }

  // ---------------------------------------------------------------- axis

  /** The standard range is drawn and both its bounds are numbers. */
  predicate ShowsStandard(standard: Option<Range>, showStandard: bool) {
    showStandard && standard.Some? && Numeric(standard.value)
  }

  /** The lowest and highest of the values and the range bounds shown. */
  function Extent(values: seq<real>, standard: Option<Range>, custom: Option<CustomRange>,
                  showStandard: bool, showCustom: bool): (real, real)
    requires |values| > 0
  {
    var lo0, hi0 := Min(values), Max(values);
    var (lo1, hi1) := if ShowsStandard(standard, showStandard)
      then (if standard.value.min.value < lo0 then standard.value.min.value else lo0,
            if standard.value.max.value > hi0 then standard.value.max.value else hi0)
      else (lo0, hi0);
    if showCustom && custom.Some?
    then (if custom.value.min < lo1 then custom.value.min else lo1,
          if custom.value.max > hi1 then custom.value.max else hi1)
    else (lo1, hi1)
  }

  /** Every value and every shown bound lies between the two extremes. */
  lemma ExtentBounds(values: seq<real>, standard: Option<Range>, custom: Option<CustomRange>,
                     showStandard: bool, showCustom: bool)
    requires |values| > 0
    ensures var (lo, hi) := Extent(values, standard, custom, showStandard, showCustom);
      lo <= hi
      && (forall i :: 0 <= i < |values| ==> lo <= values[i] <= hi)
      && (ShowsStandard(standard, showStandard) ==> lo <= standard.value.min.value && standard.value.max.value <= hi)
      && (showCustom && custom.Some? ==> lo <= custom.value.min && custom.value.max <= hi)
  {
    MinMaxBound(values);
  }

  /** `getYAxisDomain()`: [0, 100] without points; else the extremes widened
      by 15% of their distance on each side, the lower end no less than 0.
      A shown standard range with a NaN bound makes both ends NaN, which is
      the absent domain here. */
  function YAxisDomain(values: seq<real>, standard: Option<Range>, custom: Option<CustomRange>,
                       showStandard: bool, showCustom: bool): (domain: Option<(real, real)>)
    ensures values == [] ==> domain == Some((0.0, 100.0))
    ensures domain.None? <==> values != [] && showStandard && standard.Some? && !Numeric(standard.value)
    ensures domain.Some? ==> 0.0 <= domain.value.0
  {
    if |values| == 0 then Some((0.0, 100.0))
    else if showStandard && standard.Some? && !Numeric(standard.value) then None
    else
      var (lo, hi) := Extent(values, standard, custom, showStandard, showCustom);
      var padding := (hi - lo) * 0.15;
      Some((if 0.0 > lo - padding then 0.0 else lo - padding, hi + padding))
  }

  /** With points and numeric shown bounds, the upper end is the highest
      extreme plus 15% of the spread; and when the values and the shown
      bounds are non-negative the domain holds every value and every shown
      range. */
  lemma YAxisDomainFacts(values: seq<real>, standard: Option<Range>, custom: Option<CustomRange>,
                         showStandard: bool, showCustom: bool)
    requires |values| > 0
    requires showStandard && standard.Some? ==> Numeric(standard.value)
    ensures var (lo, hi) := Extent(values, standard, custom, showStandard, showCustom);
      var domain := YAxisDomain(values, standard, custom, showStandard, showCustom).value;
      domain.1 == hi + 0.15 * (hi - lo) && hi <= domain.1
      && (0.0 <= lo ==>
            (forall i :: 0 <= i < |values| ==> domain.0 <= values[i] <= domain.1)
            && (ShowsStandard(standard, showStandard) ==> domain.0 <= standard.value.min.value && standard.value.max.value <= domain.1)
            && (showCustom && custom.Some? ==> domain.0 <= custom.value.min && custom.value.max <= domain.1))
  {
    ExtentBounds(values, standard, custom, showStandard, showCustom);
  }

  /** The lowest extreme is non-negative when every value and every shown
      bound is. */
  lemma NonNegativeExtent(values: seq<real>, standard: Option<Range>, custom: Option<CustomRange>,
                          showStandard: bool, showCustom: bool)
    requires |values| > 0 && forall i :: 0 <= i < |values| ==> 0.0 <= values[i]
    requires ShowsStandard(standard, showStandard) ==> 0.0 <= standard.value.min.value
    requires showCustom && custom.Some? ==> 0.0 <= custom.value.min
    ensures 0.0 <= Extent(values, standard, custom, showStandard, showCustom).0
  {
    MinMaxBound(values);
  }
}
