/** The traffic-light status of a measurement against the standard and the
    personal range, the list of a parameter's latest measurements for the
    active patient, and the tally of their statuses. */
module StatusOverview {
  import opened Wrappers
  import opened Numerics
  import opened Records
  import opened Sequences
  import opened MedicalContext

  datatype Status = Optimal | Warning | Critical

  /** `value >= standardRange.min && value <= standardRange.max`, false
      without a range and false against a NaN bound. */
  predicate InStandardRange(value: real, standard: Option<Range>) {
    standard.Some? && Numeric(standard.value) && standard.value.min.value <= value <= standard.value.max.value
  }

  /** The same test against the personal range, false without one. */
  predicate InCustomRange(value: real, custom: Option<CustomRange>) {
    custom.Some? && custom.value.min <= value <= custom.value.max
  }

  /** `getMeasurementStatus(measurement, parameter)`: optimal in both
      ranges, warning in one, critical in neither. */
  function MeasurementStatus(value: real, standard: Option<Range>, custom: Option<CustomRange>): (s: Status)
    ensures s == Optimal <==> InStandardRange(value, standard) && InCustomRange(value, custom)
    ensures s == Warning <==> InStandardRange(value, standard) != InCustomRange(value, custom)
    ensures s == Critical <==> !InStandardRange(value, standard) && !InCustomRange(value, custom)
  {
    var inStandard := InStandardRange(value, standard);
    var inCustom := InCustomRange(value, custom);
    if inStandard && inCustom then Optimal
    else if inStandard || inCustom then Warning
    else Critical
  }

  /** Without a personal range the best status is a warning, and without
      either range it is critical. */
  lemma MissingRanges(value: real, standard: Option<Range>, custom: Option<CustomRange>)
    ensures custom.None? ==> MeasurementStatus(value, standard, custom) != Optimal
    ensures custom.None? && standard.None? ==> MeasurementStatus(value, standard, custom) == Critical
    ensures custom.None? ==>
      (MeasurementStatus(value, standard, custom) == Warning <==> InStandardRange(value, standard))
  {
  }

  /** The label shown with each status. */
  function StatusLabel(s: Status): string {
    match s
    case Optimal => "Ottimale"
    case Warning => "Attenzione"
    case Critical => "Fuori Range"
  }

  // ------------------------------------------------------------- the list

  datatype StatusItem = StatusItem(measurement: Measurement, parameter: Parameter, status: Status)

  /** The most measurements the overview lists. */
  const MaxShown: nat := 10

  /** `m.patientId === activePatient?.id && m.parameter === currentParam`;
      no active patient matches no record. */
  function ShownFor(parameterName: string, activeId: Option<string>): Measurement -> bool {
    (m: Measurement) => activeId.Some? && m.patientId == activeId && m.parameter == parameterName
  }

  /** The patient's measurements of the parameter, newest first, at most ten. */
  function Latest(ms: seq<Measurement>, parameterName: string, activeId: Option<string>): (r: seq<Measurement>)
    ensures |r| <= MaxShown && Descending(r, MeasurementDate)
    ensures KeepsFirst(r, Filter(ms, ShownFor(parameterName, activeId)), MeasurementDate)
  {
    var own := Filter(ms, ShownFor(parameterName, activeId));
    var sorted := SortDescending(own, MeasurementDate);
    TakeDescending(sorted, MaxShown, MeasurementDate);
    SortDescendingStable(own, MeasurementDate);
    TakeStable(sorted, MaxShown, own, MeasurementDate);
    Take(sorted, MaxShown)
  }

  /** `getParameterMeasurements()`: empty without a parameter of that name,
      else each listed measurement with its status. */
  function ParameterMeasurements(num: Numerics, ps: seq<Parameter>, ms: seq<Measurement>,
                                 currentParam: string, activeId: Option<string>): (r: seq<StatusItem>)
    ensures Find(ps, HasName(currentParam)).None? ==> r == []
  {
    match Find(ps, HasName(currentParam))
    case None => []
    case Some(p) =>
      var shown := Latest(ms, currentParam, activeId);
      var custom := CalculateCustomRange(num, ps, ms, p.name, activeId);
      seq(|shown|, i requires 0 <= i < |shown| =>
        StatusItem(shown[i], p, MeasurementStatus(shown[i].value, p.standardRange, custom)))
  }

  /** The latest records are records of that parameter and the active
      patient, and they are the newest: a matching record left out is no
      newer than the last one kept, and all are kept when there are at most ten. */
  lemma LatestFacts(ms: seq<Measurement>, parameterName: string, activeId: Option<string>)
    ensures var r := Latest(ms, parameterName, activeId);
      (forall i :: 0 <= i < |r| ==> r[i] in ms && ShownFor(parameterName, activeId)(r[i]))
      && (forall k :: 0 <= k < |ms| && ShownFor(parameterName, activeId)(ms[k]) ==>
            ms[k] in r || (|r| == MaxShown && MeasurementDate(ms[k]) <= MeasurementDate(r[MaxShown - 1])))
  {
    TopFacts(ms, ShownFor(parameterName, activeId), MeasurementDate, MaxShown);
  }

  /** The list holds the latest records of that parameter and the active
      patient, in that order, each with its status against the parameter's
      standard range and the personal range. */
  lemma ParameterMeasurementsFacts(num: Numerics, ps: seq<Parameter>, ms: seq<Measurement>,
                                   currentParam: string, activeId: Option<string>)
    requires Find(ps, HasName(currentParam)).Some?
    ensures var r := ParameterMeasurements(num, ps, ms, currentParam, activeId);
      var p := Find(ps, HasName(currentParam)).value;
      var shown := Latest(ms, currentParam, activeId);
      var custom := CalculateCustomRange(num, ps, ms, currentParam, activeId);
      |r| == |shown|
      && forall i :: 0 <= i < |r| ==>
           r[i].measurement == shown[i] && r[i].parameter == p
           && r[i].status == MeasurementStatus(shown[i].value, p.standardRange, custom)
  {
  }

  // --------------------------------------------------------------- counts

  datatype StatusCounts = StatusCounts(optimal: nat, warning: nat, critical: nat)

  function Bump(acc: StatusCounts, s: Status): StatusCounts {
    match s
    case Optimal => acc.(optimal := acc.optimal + 1)
    case Warning => acc.(warning := acc.warning + 1)
    case Critical => acc.(critical := acc.critical + 1)
  }

  /** `items.reduce((acc, item) => { acc[item.status]++ }, acc)`. */
  function Tally(items: seq<StatusItem>, acc: StatusCounts): StatusCounts {
    if items == [] then acc else Tally(items[1..], Bump(acc, items[0].status))
  }

  function HasStatus(s: Status): StatusItem -> bool { (item: StatusItem) => item.status == s }

  function Total(c: StatusCounts): nat { c.optimal + c.warning + c.critical }

  /** Each count of the fold is the number of items of that status on top of
      the start value. */
  lemma {:induction false} TallyCounts(items: seq<StatusItem>, acc: StatusCounts)
    ensures var t := Tally(items, acc);
      t.optimal == acc.optimal + Count(items, HasStatus(Optimal))
      && t.warning == acc.warning + Count(items, HasStatus(Warning))
      && t.critical == acc.critical + Count(items, HasStatus(Critical))
  {
    if items != [] {
      TallyCounts(items[1..], Bump(acc, items[0].status));
    }
  }

  /** Started from zero the fold counts every item once: the three counts
      add up to the length of the list. */
  lemma {:induction false} TallyTotal(items: seq<StatusItem>, acc: StatusCounts)
    ensures Total(Tally(items, acc)) == Total(acc) + |items|
  {
    if items != [] {
      TallyTotal(items[1..], Bump(acc, items[0].status));
    }
  }

  /** `statusCounts`. */
  function StatusCountsOf(items: seq<StatusItem>): (c: StatusCounts)
    ensures Total(c) == |items|
    ensures c.optimal == Count(items, HasStatus(Optimal)) && c.warning == Count(items, HasStatus(Warning))
      && c.critical == Count(items, HasStatus(Critical))
  {
    TallyTotal(items, StatusCounts(0, 0, 0));
    TallyCounts(items, StatusCounts(0, 0, 0));
    Tally(items, StatusCounts(0, 0, 0))
  }
}
