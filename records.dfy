/** The entities the stores hold and the estimators report. */
module Records {
  import opened Wrappers

  /** The confidence levels an estimate is reported with. */
  datatype Confidence = High | Medium | MediumLow | Low

  /** A calendar date `YYYY-MM-DD`, month 1 to 12. */
  datatype Date = Date(year: int, month: int, day: int)

  /** An integer that orders valid dates as `new Date(s)` orders the strings. */
  function DateKey(d: Date): int {
    d.year * 10000 + d.month * 100 + d.day
  }

  /** A standard range `{ min, max }`. A bound is absent when it is NaN, as
      `parseFloat` makes it from text that is not a number. */
  datatype Range = Range(min: Option<real>, max: Option<real>)

  /** Both bounds are numbers. */
  predicate Numeric(r: Range) {
    r.min.Some? && r.max.Some?
  }

  /** A measured value. `patientId` absent stands for `null` or a missing
      field; `includedInFormula` absent for a record written before the flag
      existed. */
  datatype Measurement = Measurement(
    id: int,
    parameter: string,
    value: real,
    date: Date,
    notes: string,
    patientId: Option<string>,
    includedInFormula: Option<bool>)

  /** A parameter definition: a name, its unit and unit category, the units
      offered, an optional standard range and the custom range formula. */
  datatype Parameter = Parameter(
    id: string,
    name: string,
    unit: string,
    unitCategory: string,
    availableUnits: seq<string>,
    standardRange: Option<Range>,
    customFormula: string,
    color: string)

  function Values(ms: seq<Measurement>): (r: seq<real>)
    ensures |r| == |ms| && forall i :: 0 <= i < |ms| ==> r[i] == ms[i].value
  {
    seq(|ms|, i requires 0 <= i < |ms| => ms[i].value)
  }

  /** `new Date(m.date)` as an ordering key. */
  function MeasurementDate(m: Measurement): int { DateKey(m.date) }
}
