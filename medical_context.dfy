/** The store of parameters and measurements: parameter and measurement
    updates, and the personalised range `mean ± m·sd` of a parameter. */
module MedicalContext {
  import opened Wrappers
  import opened Numerics
  import opened Strings
  import opened Stats
  import opened Records
  import opened Sequences

  /** The parameters a store without saved data starts with. */
  const DefaultParameters: seq<Parameter> := [
    Parameter("param_1", "Glicemia", "mg/dL", "glucose", ["mg/dL", "mmol/L"],
              Some(Range(Some(70.0), Some(100.0))), "mean ± 1.5*sd", "#3b82f6"),
    Parameter("param_2", "VES", "mm/h", "generic", ["mm/h"],
              Some(Range(Some(0.0), Some(20.0))), "mean ± 2*sd", "#8b5cf6"),
    Parameter("param_3", "TSH", "mIU/L", "thyroid", ["mIU/L", "µIU/mL"],
              Some(Range(Some(0.4), Some(4.0))), "mean ± 1.5*sd", "#ec4899"),
    Parameter("param_4", "Colesterolo Totale", "mg/dL", "cholesterol", ["mg/dL", "mmol/L"],
              Some(Range(Some(0.0), Some(200.0))), "mean ± 1.5*sd", "#f59e0b"),
    Parameter("param_5", "Emoglobina", "g/dL", "hemoglobin", ["g/dL", "g/L", "mmol/L"],
              Some(Range(Some(12.0), Some(16.0))), "mean ± 1.5*sd", "#10b981")]

  // ----------------------------------------------------------- parameters

  /** A parameter's fields other than its id, as the parameter form submits them. */
  datatype ParameterData = ParameterData(
    name: string,
    unit: string,
    unitCategory: string,
    availableUnits: seq<string>,
    standardRange: Option<Range>,
    customFormula: string,
    color: string)

  function WithId(d: ParameterData, id: string): Parameter {
    Parameter(id, d.name, d.unit, d.unitCategory, d.availableUnits, d.standardRange, d.customFormula, d.color)
  }

  /** `param_${Date.now()}`. */
  function ParameterId(now: int): string {
    "param_" + IntToString(now)
  }

  function HasId(id: string): Parameter -> bool { (p: Parameter) => p.id == id }
  function OtherId(id: string): Parameter -> bool { (p: Parameter) => p.id != id }
  function HasName(name: string): Parameter -> bool { (p: Parameter) => p.name == name }

  /** `prev.map(p => p.id === id ? { ...p, ...updatedData } : p)`. */
  function UpdatedParameters(ps: seq<Parameter>, id: string, d: ParameterData): (r: seq<Parameter>)
    ensures |r| == |ps|
  {
    seq(|ps|, i requires 0 <= i < |ps| => if ps[i].id == id then WithId(d, id) else ps[i])
  }

  /** An update keeps every id and position, leaves the other parameters as
      they were, gives the matching ones the new data, and is idempotent. */
  lemma UpdateParameterFacts(ps: seq<Parameter>, id: string, d: ParameterData)
    ensures var r := UpdatedParameters(ps, id, d);
      forall i :: 0 <= i < |ps| ==>
        r[i].id == ps[i].id
        && (ps[i].id != id ==> r[i] == ps[i])
        && (ps[i].id == id ==> r[i] == WithId(d, id))
    ensures UpdatedParameters(UpdatedParameters(ps, id, d), id, d) == UpdatedParameters(ps, id, d)
    ensures (forall i :: 0 <= i < |ps| ==> ps[i].id != id) ==> UpdatedParameters(ps, id, d) == ps
  {
  }

  /** The measurements left by `deleteParameter(id)`: those of other
      parameter names when a parameter has that id, all of them otherwise. */
  function MeasurementsAfterDelete(ps: seq<Parameter>, ms: seq<Measurement>, id: string): seq<Measurement> {
    match Find(ps, HasId(id))
    case None => ms
    case Some(p) => Filter(ms, OtherParameter(p.name))
  }

  function OtherParameter(name: string): Measurement -> bool { (m: Measurement) => m.parameter != name }

  /** After a deletion no parameter has the id and no measurement has the
      deleted parameter's name; the survivors were there before; an unknown id
      changes nothing. */
  lemma DeleteParameterFacts(ps: seq<Parameter>, ms: seq<Measurement>, id: string)
    ensures var rest := Filter(ps, OtherId(id));
      forall i :: 0 <= i < |rest| ==> rest[i].id != id && rest[i] in ps
    ensures var left := MeasurementsAfterDelete(ps, ms, id);
      forall i :: 0 <= i < |left| ==> left[i] in ms
    ensures Find(ps, HasId(id)).Some? ==>
      var left := MeasurementsAfterDelete(ps, ms, id);
      forall i :: 0 <= i < |left| ==> left[i].parameter != Find(ps, HasId(id)).value.name
    ensures Find(ps, HasId(id)).None? ==>
      Filter(ps, OtherId(id)) == ps && MeasurementsAfterDelete(ps, ms, id) == ms
  {
    if Find(ps, HasId(id)).None? {
      FilterKeepsAll(ps, OtherId(id));
    }
  }

  // --------------------------------------------------------- measurements

  /** What the measurement form submits. The id, the flag and the null
      default of the patient are added by the store. */
  datatype MeasurementEntry = MeasurementEntry(
    parameter: string,
    value: real,
    date: Date,
    notes: string,
    patientId: Option<string>)

  /** The record `addMeasurement` stores: id `Date.now()`, `patientId || null`
      (an empty id becomes null) and `includedInFormula: true`. */
  function NewMeasurement(e: MeasurementEntry, now: int): (m: Measurement)
    ensures m.includedInFormula == Some(true) && m.id == now
    ensures m.patientId.None? <==> e.patientId.None? || e.patientId == Some("")
    ensures m.patientId.Some? ==> m.patientId == e.patientId
    ensures m.parameter == e.parameter && m.value == e.value && m.date == e.date && m.notes == e.notes
  {
    Measurement(now, e.parameter, e.value, e.date, e.notes,
                if e.patientId == Some("") then None else e.patientId, Some(true))
  }

  function OtherMeasurement(id: int): Measurement -> bool { (m: Measurement) => m.id != id }

  /** `!m.includedInFormula`: a missing flag counts as false. */
  function Flip(flag: Option<bool>): Option<bool> {
    Some(flag != Some(true))
  }

  lemma FlipTwice(flag: Option<bool>)
    ensures Flip(Flip(flag)) == Some(flag == Some(true))
    ensures flag.Some? ==> Some(flag == Some(true)) == flag
  {
    if flag.Some? {
      var b := flag.value;
      assert flag == Some(b);
    }
  }

  /** `prev.map(m => m.id === id ? { ...m, includedInFormula: !m.includedInFormula } : m)`. */
  function ToggledMeasurements(ms: seq<Measurement>, id: int): (r: seq<Measurement>)
    ensures |r| == |ms|
  {
    seq(|ms|, i requires 0 <= i < |ms| =>
      if ms[i].id == id then ms[i].(includedInFormula := Flip(ms[i].includedInFormula)) else ms[i])
  }

  /** A toggle flips only the flag, and only of the records with that id;
      toggling twice restores every boolean flag and turns a missing one into false. */
  lemma ToggleFacts(ms: seq<Measurement>, id: int)
    ensures var r := ToggledMeasurements(ms, id);
      forall i :: 0 <= i < |ms| ==>
        (ms[i].id != id ==> r[i] == ms[i])
        && (ms[i].id == id ==>
              r[i].includedInFormula.Some?
              && (r[i].includedInFormula == Some(true) <==> ms[i].includedInFormula != Some(true))
              && r[i] == ms[i].(includedInFormula := r[i].includedInFormula))
    ensures var r := ToggledMeasurements(ToggledMeasurements(ms, id), id);
      forall i :: 0 <= i < |ms| ==>
        (ms[i].id != id ==> r[i] == ms[i])
        && (ms[i].id == id ==> r[i] == ms[i].(includedInFormula := Some(ms[i].includedInFormula == Some(true))))
    ensures (forall i :: 0 <= i < |ms| ==> ms[i].includedInFormula.Some?) ==>
      ToggledMeasurements(ToggledMeasurements(ms, id), id) == ms
  {
    var t := ToggledMeasurements(ms, id);
    var r := ToggledMeasurements(t, id);
    forall i | 0 <= i < |ms|
      ensures ms[i].id != id ==> r[i] == ms[i]
      ensures ms[i].id == id ==> r[i] == ms[i].(includedInFormula := Some(ms[i].includedInFormula == Some(true)))
    {
      var m := ms[i];
      if m.id == id {
        assert t[i] == m.(includedInFormula := Flip(m.includedInFormula));
        assert r[i] == t[i].(includedInFormula := Flip(t[i].includedInFormula));
        FlipTwice(m.includedInFormula);
      } else {
        assert t[i] == m && r[i] == m;
      }
    }
    if forall i :: 0 <= i < |ms| ==> ms[i].includedInFormula.Some? {
      forall i | 0 <= i < |ms| ensures r[i] == ms[i] {
        FlipTwice(ms[i].includedInFormula);
      }
    }
  }

  // ------------------------------------------------------ personal range

  /** `!patientId`: no patient, or an empty id. */
  predicate AnyPatient(patientId: Option<string>) {
    patientId.None? || patientId == Some("")
  }

  /** The filter of `calculateCustomRange`: the parameter's name, a flag that
      is exactly true (a missing flag excludes), and the patient when one is given. */
  function CountsForRange(parameterName: string, patientId: Option<string>): Measurement -> bool {
    (m: Measurement) => m.parameter == parameterName && m.includedInFormula == Some(true)
         && (AnyPatient(patientId) || m.patientId == patientId)
  }

  function RangeMeasurements(ms: seq<Measurement>, parameterName: string, patientId: Option<string>): seq<Measurement> {
    Filter(ms, CountsForRange(parameterName, patientId))
  }

  /** The multiplier of a formula string: 1.5, then 2 for '2*sd', then 1 for
      '1*sd' without '1.5*sd', the later test winning. */
  function FormulaMultiplier(formula: string): (m: real)
    ensures m == 1.0 <==> Contains(formula, "1*sd") && !Contains(formula, "1.5*sd")
    ensures m == 2.0 <==> Contains(formula, "2*sd") && !(Contains(formula, "1*sd") && !Contains(formula, "1.5*sd"))
    ensures m == 1.5 <==> !Contains(formula, "2*sd") && !(Contains(formula, "1*sd") && !Contains(formula, "1.5*sd"))
  {
    var m := if Contains(formula, "2*sd") then 2.0 else 1.5;
    if Contains(formula, "1*sd") && !Contains(formula, "1.5*sd") then 1.0 else m
  }

  /** The multiplier of the first parameter with that name; 1.5 when none has it. */
  function Multiplier(ps: seq<Parameter>, parameterName: string): real {
    match Find(ps, HasName(parameterName))
    case None => 1.5
    case Some(p) => FormulaMultiplier(p.customFormula)
  }

  datatype CustomRange = CustomRange(min: real, max: real, mean: real, sd: real)

  /** `calculateCustomRange(parameterName, patientId)`: absent for fewer than
      two counted measurements; else the mean and population deviation of
      their values and the range `mean ± multiplier·sd`. */
  function CalculateCustomRange(num: Numerics, ps: seq<Parameter>, ms: seq<Measurement>,
                                parameterName: string, patientId: Option<string>): Option<CustomRange>
  {
    RangeOf(num, Values(RangeMeasurements(ms, parameterName, patientId)), Multiplier(ps, parameterName))
  }

  /** The range of the counted values: absent for fewer than two, else
      `mean ± m·sd`. */
  function RangeOf(num: Numerics, values: seq<real>, m: real): Option<CustomRange> {
    if |values| < 2 then None
    else
      var mean := Mean(values);
      var sd := num.sqrt(PopVariance(values));
      Some(CustomRange(mean - m * sd, mean + m * sd, mean, sd))
  }

  /** The range exists exactly when two or more measurements count; it is
      their mean less and plus the formula's multiplier times their
      population deviation, so it is centred on the mean, which lies between
      their least and greatest value, and with a lawful square root
      min ≤ mean ≤ max. */
  lemma CustomRangeFacts(num: Numerics, ps: seq<Parameter>, ms: seq<Measurement>,
                         parameterName: string, patientId: Option<string>)
    ensures var r := CalculateCustomRange(num, ps, ms, parameterName, patientId);
      r.None? <==> |RangeMeasurements(ms, parameterName, patientId)| < 2
    ensures var r := CalculateCustomRange(num, ps, ms, parameterName, patientId);
      var values := Values(RangeMeasurements(ms, parameterName, patientId));
      r.Some? ==>
        r.value.mean == Mean(values) && r.value.sd == num.sqrt(PopVariance(values))
        && r.value.min == r.value.mean - Multiplier(ps, parameterName) * r.value.sd
        && r.value.max == r.value.mean + Multiplier(ps, parameterName) * r.value.sd
        && r.value.max - r.value.mean == r.value.mean - r.value.min
        && Min(values) <= r.value.mean <= Max(values)
        && (Lawful(num) ==> 0.0 <= r.value.sd && r.value.min <= r.value.mean <= r.value.max)
    ensures var m := Multiplier(ps, parameterName); m == 1.0 || m == 1.5 || m == 2.0
  {
    var counted := RangeMeasurements(ms, parameterName, patientId);
    assert |Values(counted)| == |counted|;
    if |counted| >= 2 {
      var values := Values(counted);
      MeanBetweenMinMax(values);
      var sd := num.sqrt(PopVariance(values));
      var m := Multiplier(ps, parameterName);
      assert m >= 0.0;
      if Lawful(num) {
        assert 0.0 <= sd;
        assert 0.0 <= m * sd;
      }
    }
  }

  /** Only the parameter's own counted records matter: appending records of
      other parameters does not change the range. */
  lemma CustomRangeIgnoresOthers(num: Numerics, ps: seq<Parameter>, ms: seq<Measurement>, others: seq<Measurement>,
                                 parameterName: string, patientId: Option<string>)
    requires forall i :: 0 <= i < |others| ==> others[i].parameter != parameterName
    ensures CalculateCustomRange(num, ps, ms + others, parameterName, patientId)
         == CalculateCustomRange(num, ps, ms, parameterName, patientId)
  {
    var keep := CountsForRange(parameterName, patientId);
    FilterAppend(ms, others, keep);
    FilterDropsAll(others, keep);
    assert Filter(ms + others, keep) == Filter(ms, keep);
  }

  // ---------------------------------------------------------------- store

  /** The state of `MedicalProvider`. */
  class MedicalStore {
    var parameters: seq<Parameter>
    var measurements: seq<Measurement>

    /** A store with nothing saved: the default parameters, no measurements. */
    constructor()
      ensures parameters == DefaultParameters && measurements == []
    {
      parameters := DefaultParameters;
      measurements := [];
    }

    /** `addParameter(parameter)`: appends it with the id `param_<now>`. */
    method AddParameter(data: ParameterData, now: int)
      modifies this
      ensures parameters == old(parameters) + [WithId(data, ParameterId(now))]
      ensures measurements == old(measurements)
    {
      parameters := parameters + [WithId(data, ParameterId(now))];
    }

    /** `updateParameter(id, updatedData)`. */
    method UpdateParameter(id: string, data: ParameterData)
      modifies this
      ensures parameters == UpdatedParameters(old(parameters), id, data)
      ensures measurements == old(measurements)
    {
      parameters := UpdatedParameters(parameters, id, data);
    }

    /** `deleteParameter(id)`: drops the parameters with that id and, when the
        store held one, the measurements of its name. */
    method DeleteParameter(id: string)
      modifies this
      ensures parameters == Filter(old(parameters), OtherId(id))
      ensures measurements == MeasurementsAfterDelete(old(parameters), old(measurements), id)
    {
      var doomed := Find(parameters, HasId(id));
      parameters := Filter(parameters, OtherId(id));
      if doomed.Some? {
        measurements := Filter(measurements, OtherParameter(doomed.value.name));
      }
    }

    /** `addMeasurement(measurement)` with `Date.now()` passed in. */
    method AddMeasurement(entry: MeasurementEntry, now: int)
      modifies this
      ensures measurements == old(measurements) + [NewMeasurement(entry, now)]
      ensures parameters == old(parameters)
    {
      measurements := measurements + [NewMeasurement(entry, now)];
    }

    /** `removeMeasurement(id)`: keeps the other records in order. */
    method RemoveMeasurement(id: int)
      modifies this
      ensures measurements == Filter(old(measurements), OtherMeasurement(id))
      ensures forall i :: 0 <= i < |measurements| ==> measurements[i].id != id
      ensures parameters == old(parameters)
    {
      measurements := Filter(measurements, OtherMeasurement(id));
    }

    /** `toggleIncludeInFormula(id)`. */
    method ToggleIncludeInFormula(id: int)
      modifies this
      ensures measurements == ToggledMeasurements(old(measurements), id)
      ensures parameters == old(parameters)
    {
      measurements := ToggledMeasurements(measurements, id);
    }
  }
}
