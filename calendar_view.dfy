/** The calendar of one parameter: the active patient's measurements in
    date order, those of the shown month, the month grid of day cells, and
    the measurement a day cell shows with its status. */
module CalendarView {
  import opened Wrappers
  import opened Numerics
  import opened Records
  import opened Sequences
  import opened MedicalContext
  import opened StatusOverview

  /** The calendar's labels for the three statuses. */
  function CalendarLabel(s: Status): string {
    match s
    case Optimal => "Ottimale"
    case Warning => "Attenzione"
    case Critical => "Critico"
  }

  /** The calendar's `getMeasurementStatus`: the same rule as the overview's,
      against the parameter's standard range and the personal range. */
  function CalendarStatus(num: Numerics, ps: seq<Parameter>, ms: seq<Measurement>,
                          parameter: Parameter, activeId: Option<string>, m: Measurement): (shown: string)
    ensures var custom := CalculateCustomRange(num, ps, ms, parameter.name, activeId);
      (shown == "Ottimale" <==> InStandardRange(m.value, parameter.standardRange) && InCustomRange(m.value, custom))
      && (shown == "Attenzione" <==> InStandardRange(m.value, parameter.standardRange) != InCustomRange(m.value, custom))
      && (shown == "Critico" <==> !InStandardRange(m.value, parameter.standardRange) && !InCustomRange(m.value, custom))
  {
    CalendarLabel(MeasurementStatus(m.value, parameter.standardRange,
                                    CalculateCustomRange(num, ps, ms, parameter.name, activeId)))
  }

  /** `parameterMeasurements`: the patient's records of the parameter,
      oldest first. */
  function ParameterRecords(ms: seq<Measurement>, parameterName: string, activeId: Option<string>): (r: seq<Measurement>)
    ensures Ascending(r, MeasurementDate)
    ensures StableBy(r, Filter(ms, ShownFor(parameterName, activeId)), MeasurementDate)
  {
    SortAscendingStable(Filter(ms, ShownFor(parameterName, activeId)), MeasurementDate);
    SortAscending(Filter(ms, ShownFor(parameterName, activeId)), MeasurementDate)
  }

  /** The records are exactly the patient's records of the parameter. */
  lemma ParameterRecordsMembers(ms: seq<Measurement>, parameterName: string, activeId: Option<string>)
    ensures var r := ParameterRecords(ms, parameterName, activeId);
      (forall i :: 0 <= i < |r| ==> r[i] in ms && ShownFor(parameterName, activeId)(r[i]))
      && (forall k :: 0 <= k < |ms| && ShownFor(parameterName, activeId)(ms[k]) ==> ms[k] in r)
  {
    var keep := ShownFor(parameterName, activeId);
    var own := Filter(ms, keep);
    var r := ParameterRecords(ms, parameterName, activeId);
    forall i | 0 <= i < |r| ensures r[i] in ms && keep(r[i]) {
      assert r[i] in multiset(r);
      assert r[i] in own;
      FilterMember(ms, keep, r[i]);
    }
    forall k | 0 <= k < |ms| && keep(ms[k]) ensures ms[k] in r {
      assert ms[k] in own;
      assert ms[k] in multiset(own);
    }
  }

  // ----------------------------------------------------------- the month

  function InMonth(year: int, month: int): Measurement -> bool {
    (m: Measurement) => m.date.year == year && m.date.month == month
  }

  /** `getMeasurementsByMonth()` for the shown year and month (1 to 12). */
  function MonthRecords(ms: seq<Measurement>, parameterName: string, activeId: Option<string>,
                        year: int, month: int): seq<Measurement>
  {
    Filter(ParameterRecords(ms, parameterName, activeId), InMonth(year, month))
  }

  /** The month's list is exactly the patient's records of the parameter
      dated in that year and month. */
  lemma MonthRecordsMembers(ms: seq<Measurement>, parameterName: string, activeId: Option<string>,
                            year: int, month: int)
    ensures var r := MonthRecords(ms, parameterName, activeId, year, month);
      (forall i :: 0 <= i < |r| ==>
         r[i] in ms && ShownFor(parameterName, activeId)(r[i]) && r[i].date.year == year && r[i].date.month == month)
      && (forall k :: 0 <= k < |ms| && ShownFor(parameterName, activeId)(ms[k]) && InMonth(year, month)(ms[k])
            ==> ms[k] in r)
  {
    ParameterRecordsMembers(ms, parameterName, activeId);
    var all := ParameterRecords(ms, parameterName, activeId);
    var r := MonthRecords(ms, parameterName, activeId, year, month);
    forall i | 0 <= i < |r|
      ensures r[i] in ms && ShownFor(parameterName, activeId)(r[i]) && r[i].date.year == year && r[i].date.month == month
    {
      FilterMember(all, InMonth(year, month), r[i]);
      var j :| 0 <= j < |all| && all[j] == r[i];
    }
    forall k | 0 <= k < |ms| && ShownFor(parameterName, activeId)(ms[k])
      && ms[k].date.year == year && ms[k].date.month == month
      ensures ms[k] in r
    {
      var j :| 0 <= j < |all| && all[j] == ms[k];
    }
  }

  // ------------------------------------------------------------ the grid

  /** `getDaysInMonth()`, with the weekday of the first day and the number of
      days passed in: that many empty cells, then the days 1 to daysInMonth. */
  method MonthGrid(startingDayOfWeek: nat, daysInMonth: nat) returns (days: seq<Option<nat>>)
    ensures |days| == startingDayOfWeek + daysInMonth
    ensures forall i :: 0 <= i < startingDayOfWeek ==> days[i] == None
    ensures forall d :: 1 <= d <= daysInMonth ==> days[startingDayOfWeek + d - 1] == Some(d)
  {
    days := [];
    for i := 0 to startingDayOfWeek
      invariant |days| == i && forall j :: 0 <= j < i ==> days[j] == None
    {
      days := days + [None];
    }
    var day := 1;
    while day <= daysInMonth
      invariant 1 <= day <= daysInMonth + 1
      invariant |days| == startingDayOfWeek + day - 1
      invariant forall j :: 0 <= j < startingDayOfWeek ==> days[j] == None
      invariant forall d :: 1 <= d < day ==> days[startingDayOfWeek + d - 1] == Some(d)
    {
      days := days + [Some(day)];
      day := day + 1;
    }
  }

  /** Every cell of the grid is empty or holds a day of the month. */
  lemma GridCells(startingDayOfWeek: nat, daysInMonth: nat, days: seq<Option<nat>>, i: nat)
    requires |days| == startingDayOfWeek + daysInMonth
    requires forall j :: 0 <= j < startingDayOfWeek ==> days[j] == None
    requires forall d :: 1 <= d <= daysInMonth ==> days[startingDayOfWeek + d - 1] == Some(d)
    requires i < |days|
    ensures days[i].None? <==> i < startingDayOfWeek
    ensures days[i].Some? ==> days[i].value == i - startingDayOfWeek + 1 && 1 <= days[i].value <= daysInMonth
  {
    if i >= startingDayOfWeek {
      var d := i - startingDayOfWeek + 1;
      assert days[startingDayOfWeek + d - 1] == Some(d);
    }
  }

  // ------------------------------------------------------------- the day

  function OnDate(date: Date): Measurement -> bool { (m: Measurement) => m.date == date }

  /** `getMeasurementForDay(day)`: nothing for an empty cell (or day 0), else
      the first record, oldest first, dated that day. */
  function MeasurementForDay(records: seq<Measurement>, year: int, month: int, day: Option<nat>): (r: Option<Measurement>)
    ensures day.None? ==> r.None?
    ensures r.Some? ==> r.value in records && r.value.date == Date(year, month, day.value)
  {
    match day
    case None => None
    case Some(d) => if d == 0 then None else Find(records, OnDate(Date(year, month, d)))
  }

  /** A day cell shows a record exactly when one of the patient's records of
      the parameter is dated that day, and then the first such in date order,
      which is the first such one stored. */
  lemma DayShowsFirst(ms: seq<Measurement>, parameterName: string, activeId: Option<string>,
                      year: int, month: int, d: nat)
    requires d > 0
    ensures var records := ParameterRecords(ms, parameterName, activeId);
      var r := MeasurementForDay(records, year, month, Some(d));
      (r.None? <==> forall k :: 0 <= k < |ms| && ShownFor(parameterName, activeId)(ms[k]) ==> ms[k].date != Date(year, month, d))
      && (r.Some? ==>
            ShownFor(parameterName, activeId)(r.value)
            && exists i :: 0 <= i < |records| && records[i] == r.value
                 && forall j :: 0 <= j < i ==> records[j].date != Date(year, month, d))
      && r == Find(Filter(ms, ShownFor(parameterName, activeId)), OnDate(Date(year, month, d)))
  {
    var records := ParameterRecords(ms, parameterName, activeId);
    var date := Date(year, month, d);
    assert MeasurementForDay(records, year, month, Some(d)) == Find(records, OnDate(date));
    ParameterRecordsMembers(ms, parameterName, activeId);
    DayOfRecords(records, ms, ShownFor(parameterName, activeId), date);
    DayFindsStored(ms, parameterName, activeId, date);
  }

  /** Looking a date up in records that hold exactly the kept measurements
      finds nothing exactly when no kept measurement has that date, and
      otherwise the first record of that date. */
  lemma DayOfRecords(records: seq<Measurement>, ms: seq<Measurement>, keep: Measurement -> bool, date: Date)
    requires forall i :: 0 <= i < |records| ==> records[i] in ms && keep(records[i])
    requires forall k :: 0 <= k < |ms| && keep(ms[k]) ==> ms[k] in records
    ensures var r := Find(records, OnDate(date));
      (r.None? <==> forall k :: 0 <= k < |ms| && keep(ms[k]) ==> ms[k].date != date)
      && (r.Some? ==>
            keep(r.value)
            && exists i :: 0 <= i < |records| && records[i] == r.value
                 && forall j :: 0 <= j < i ==> records[j].date != date)
  {
    var i := FirstIndex(records, OnDate(date));
    if i < |records| {
      assert records[i] in records;
    } else {
      forall k | 0 <= k < |ms| && keep(ms[k])
        ensures ms[k].date != date
      {
        var j :| 0 <= j < |records| && records[j] == ms[k];
        assert !OnDate(date)(records[j]);
      }
    }
  }

  /** The first record of a date in date order is the first stored one. */
  lemma DayFindsStored(ms: seq<Measurement>, parameterName: string, activeId: Option<string>, date: Date)
    ensures Find(ParameterRecords(ms, parameterName, activeId), OnDate(date))
         == Find(Filter(ms, ShownFor(parameterName, activeId)), OnDate(date))
  {
    var records := ParameterRecords(ms, parameterName, activeId);
    var own := Filter(ms, ShownFor(parameterName, activeId));
    assert StableBy(records, own, MeasurementDate) && multiset(records) == multiset(own);
    FindStable(records, own, OnDate(date), MeasurementDate, DateKey(date));
  }
}
