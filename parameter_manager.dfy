/** The parameter form: the unit chosen from the name or category, the
    formula string `mean ± X*sd` it submits and reads back, and the switch
    between adding and editing. */
module ParameterManager {
  import opened Wrappers
  import opened Strings
  import opened Sequences
  import opened Records
  import opened UnitConversions
  import opened MedicalContext

  /** The form's fields, all as the inputs hold them. `formula` is the
      selected multiplier option. */
  datatype FormData = FormData(
    name: string,
    unitCategory: string,
    unit: string,
    minRange: string,
    maxRange: string,
    formula: string)

  /** The form as it starts and as `resetForm` leaves it. */
  const InitialForm := FormData("", "generic", "", "", "", "1.5")

  /** The multiplier options the form offers, with their values. */
  const Options: seq<(string, real)> := [("1", 1.0), ("1.5", 1.5), ("2", 2.0)]

  // ------------------------------------------------------------- formula

  /** `mean ± ${x}*sd`. */
  function BuildFormula(x: string): string {
    "mean ± " + x + "*sd"
  }

  /** The characters of the class `[\d.]`. */
  predicate IsNumberChar(c: char) { IsDigit(c) || c == '.' }

  function NumberChar(): char -> bool { (c: char) => IsNumberChar(c) }

  /** The length of the longest prefix of `[\d.]` characters. */
  function NumberRun(s: string): (k: nat)
    ensures k <= |s| && forall i :: 0 <= i < k ==> IsNumberChar(s[i])
    ensures k < |s| ==> !IsNumberChar(s[k])
  {
    if s != [] && IsNumberChar(s[0]) then 1 + NumberRun(s[1..]) else 0
  }

  /** `run` is the leftmost maximal run of `[\d.]` characters in `s`, at `i`. */
  predicate FirstRunAt(s: string, run: string, i: int) {
    0 <= i && i + |run| <= |s| && s[i..i + |run|] == run
    && (forall j :: 0 <= j < i ==> !IsNumberChar(s[j]))
    && (forall j :: 0 <= j < |run| ==> IsNumberChar(run[j]))
    && (i + |run| < |s| ==> !IsNumberChar(s[i + |run|]))
  }

  /** `s.match(/[\d.]+/)?.[0]`, absent standing for no match. */
  function FirstNumber(s: string): (r: Option<string>)
    ensures r.None? <==> forall i :: 0 <= i < |s| ==> !IsNumberChar(s[i])
    ensures r.Some? ==> r.value != [] && exists i :: FirstRunAt(s, r.value, i)
  {
    var i := FirstIndex(s, NumberChar());
    if i == |s| then None
    else
      var k := NumberRun(s[i..]);
      assert FirstRunAt(s, s[i..i + k], i);
      Some(s[i..i + k])
  }

  /** The leftmost maximal run is unique. */
  lemma FirstRunUnique(s: string, a: string, i: int, b: string, j: int)
    requires a != [] && b != [] && FirstRunAt(s, a, i) && FirstRunAt(s, b, j)
    ensures a == b
  {
    assert s[i] == a[0] && s[j] == b[0];
    assert i == j;
  }

  /** `param.customFormula.match(/[\d.]+/)?.[0] || '1.5'`. */
  function ParseFormula(formula: string): (x: string)
    ensures x != []
  {
    match FirstNumber(formula)
    case Some(x) => x
    case None => "1.5"
  }

  /** Building a formula from a run of digits and dots and reading it back gives
      the run: nothing before it in `mean ± ` and nothing after it in `*sd` is
      a digit or a dot. */
  lemma ParseBuiltFormula(x: string)
    requires x != [] && forall i :: 0 <= i < |x| ==> IsNumberChar(x[i])
    ensures ParseFormula(BuildFormula(x)) == x
  {
    var s := BuildFormula(x);
    assert FirstRunAt(s, x, 7) by {
      assert s[7..7 + |x|] == x;
      assert s[7 + |x|] == '*';
    }
    assert s[7] == x[0];
    var r := FirstNumber(s).value;
    var j :| FirstRunAt(s, r, j);
    FirstRunUnique(s, r, j, x, 7);
  }

  /** Every offered option reads back as itself. */
  lemma OptionsRoundTrip()
    ensures forall k :: 0 <= k < |Options| ==> ParseFormula(BuildFormula(Options[k].0)) == Options[k].0
  {
    ParseBuiltFormula("1");
    ParseBuiltFormula("1.5");
    ParseBuiltFormula("2");
  }

  /** A string with a character that `s` lacks does not occur in `s`. */
  lemma Absent(s: string, sub: string, c: char)
    requires c in sub && c !in s
    ensures !Contains(s, sub)
  {
    ContainsAt(s, sub);
  }

  /** A string occurs in `s` at position i. */
  lemma Present(s: string, sub: string, i: int)
    requires OccursAt(s, sub, i)
    ensures Contains(s, sub)
  {
    ContainsAt(s, sub);
  }

  lemma MultiplierOne()
    ensures FormulaMultiplier(BuildFormula("1")) == 1.0
  {
    var f := BuildFormula("1");
    Present(f, "1*sd", 7);
    Absent(f, "1.5*sd", '.');
  }

  lemma MultiplierOneHalf()
    ensures FormulaMultiplier(BuildFormula("1.5")) == 1.5
  {
    var f := BuildFormula("1.5");
    Present(f, "1.5*sd", 7);
    Absent(f, "2*sd", '2');
  }

  lemma MultiplierTwo()
    ensures FormulaMultiplier(BuildFormula("2")) == 2.0
  {
    var f := BuildFormula("2");
    Present(f, "2*sd", 7);
    Absent(f, "1*sd", '1');
  }

  /** The multiplier the store reads from the formula built for each offered
      option is that option's value. */
  lemma OptionsMultiplier()
    ensures forall k :: 0 <= k < |Options| ==> FormulaMultiplier(BuildFormula(Options[k].0)) == Options[k].1
  {
    forall k | 0 <= k < |Options| ensures FormulaMultiplier(BuildFormula(Options[k].0)) == Options[k].1 {
      if k == 0 {
        MultiplierOne();
      } else if k == 1 {
        MultiplierOneHalf();
      } else {
        MultiplierTwo();
      }
    }
  }

  // ---------------------------------------------------------- submission

  /** `availableUnits.map(u => u.value)`. */
  function UnitValues(us: seq<UnitOption>): (r: seq<string>)
    ensures |r| == |us| && forall i :: 0 <= i < |us| ==> r[i] == us[i].value
  {
    seq(|us|, i requires 0 <= i < |us| => us[i].value)
  }

  /** `{ min: parseFloat(minRange), max: parseFloat(maxRange) }`, with
      `parseFloat` passed in (absent standing for NaN): each bound is parsed
      on its own, so one can be NaN while the other is a number. */
  function ParsedRange(parseFloat: string -> Option<real>, minRange: string, maxRange: string): (r: Range)
    ensures r.min == parseFloat(minRange) && r.max == parseFloat(maxRange)
    ensures Numeric(r) <==> parseFloat(minRange).Some? && parseFloat(maxRange).Some?
  {
    Range(parseFloat(minRange), parseFloat(maxRange))
  }

  /** The parameter `handleSubmit` builds from the form, with the colour drawn
      at random passed in. */
  function Submitted(f: FormData, parseFloat: string -> Option<real>, color: string): (d: ParameterData)
    ensures d.name == f.name && d.unit == f.unit && d.unitCategory == f.unitCategory
    ensures d.standardRange == Some(ParsedRange(parseFloat, f.minRange, f.maxRange))
    ensures d.customFormula == BuildFormula(f.formula) && d.color == color
    ensures forall i :: 0 <= i < |d.availableUnits| ==> Offers(GetAvailableUnits(f.unitCategory), d.availableUnits[i])
  {
    var units := GetAvailableUnits(f.unitCategory);
    var values := UnitValues(units);
    assert forall i :: 0 <= i < |values| ==> Offers(units, values[i]);
    ParameterData(f.name, f.unit, f.unitCategory, values,
                  Some(ParsedRange(parseFloat, f.minRange, f.maxRange)), BuildFormula(f.formula), color)
  }

  /** `bound.toString()`, with `Number.prototype.toString` passed in for
      numbers; NaN prints as `NaN`. */
  function BoundText(toString: real -> string, bound: Option<real>): string {
    if bound.Some? then toString(bound.value) else "NaN"
  }

  /** The form `startEdit` fills from a stored parameter. A parameter without
      a standard range object makes `param.standardRange.min` throw, which is
      the absent form. */
  function EditForm(p: Parameter, toString: real -> string): (f: Option<FormData>)
    ensures f.None? <==> p.standardRange.None?
    ensures f.Some? ==>
      && f.value.name == p.name && f.value.unit == p.unit
      && f.value.unitCategory == (if p.unitCategory == "" then "generic" else p.unitCategory)
      && f.value.minRange == BoundText(toString, p.standardRange.value.min)
      && f.value.maxRange == BoundText(toString, p.standardRange.value.max)
      && f.value.formula == ParseFormula(p.customFormula) && f.value.formula != []
  {
    match p.standardRange
    case None => None
    case Some(r) =>
      Some(FormData(p.name, if p.unitCategory == "" then "generic" else p.unitCategory, p.unit,
                    BoundText(toString, r.min), BoundText(toString, r.max), ParseFormula(p.customFormula)))
  }

  /** `parseFloat` reads back the printed bounds of r: a number as itself,
      and "NaN" as NaN where a bound is NaN. JavaScript's `String` and
      `parseFloat` do this for every double. */
  predicate ReadsBack(parseFloat: string -> Option<real>, toString: real -> string, r: Range) {
    && (r.min.None? || r.max.None? ==> parseFloat("NaN").None?)
    && (r.min.Some? ==> parseFloat(toString(r.min.value)) == r.min)
    && (r.max.Some? ==> parseFloat(toString(r.max.value)) == r.max)
  }

  /** Editing a stored parameter and submitting it again keeps its standard
      range bound by bound, a NaN bound included, when the bounds read back. */
  lemma EditKeepsRange(p: Parameter, parseFloat: string -> Option<real>, toString: real -> string, color: string)
    requires p.standardRange.Some? && ReadsBack(parseFloat, toString, p.standardRange.value)
    ensures Submitted(EditForm(p, toString).value, parseFloat, color).standardRange == p.standardRange
  {
    var r := p.standardRange.value;
    var f := EditForm(p, toString).value;
    assert parseFloat(f.minRange) == r.min && parseFloat(f.maxRange) == r.max;
  }

  /** Editing a parameter saved from an offered option and submitting it
      again keeps its formula and so its multiplier. */
  lemma EditKeepsFormula(f: FormData, parseFloat: string -> Option<real>, color: string,
                         id: string, toString: real -> string, k: nat)
    requires k < |Options| && f.formula == Options[k].0
    ensures var p := WithId(Submitted(f, parseFloat, color), id);
      EditForm(p, toString).Some?
      && var again := Submitted(EditForm(p, toString).value, parseFloat, color);
      again.customFormula == p.customFormula
      && FormulaMultiplier(again.customFormula) == Options[k].1
  {
    OptionsRoundTrip();
    OptionsMultiplier();
  }

  // ------------------------------------------------------------- the form

  /** The state of `ParameterManager`: the form, whether it is open, and the
      id of the parameter being edited. */
  class ParameterForm {
    var formData: FormData
    var isAdding: bool
    var editingId: Option<string>

    /** The form's unit is one its category offers. */
    predicate UnitOffered()
      reads this
    {
      Offers(GetAvailableUnits(formData.unitCategory), formData.unit)
    }

    constructor()
      ensures formData == InitialForm && !isAdding && editingId == None
    {
      formData := InitialForm;
      isAdding := false;
      editingId := None;
    }

    /** `resetForm()`. */
    method ResetForm()
      modifies this
      ensures formData == InitialForm && !isAdding && editingId == None
    {
      formData := InitialForm;
      isAdding := false;
      editingId := None;
    }

    /** `handleNameChange(name)`: the category guessed from the name and its
        default unit. */
    method HandleNameChange(name: string)
      modifies this
      ensures formData == old(formData).(name := name, unitCategory := DetectCategory(name),
                                         unit := GetDefaultUnit(DetectCategory(name)))
      ensures isAdding == old(isAdding) && editingId == old(editingId)
      ensures UnitOffered() && formData.unitCategory in UnitCategories()
    {
      var category := DetectCategory(name);
      formData := formData.(name := name, unitCategory := category, unit := GetDefaultUnit(category));
      DefaultIsOffered(category);
      DetectedIsKnown(name);
    }

    /** `handleCategoryChange(category)`: the unit goes back to the
        category's default. */
    method HandleCategoryChange(category: string)
      modifies this
      ensures formData == old(formData).(unitCategory := category, unit := GetDefaultUnit(category))
      ensures isAdding == old(isAdding) && editingId == old(editingId)
      ensures UnitOffered()
    {
      formData := formData.(unitCategory := category, unit := GetDefaultUnit(category));
      DefaultIsOffered(category);
    }

    /** `startEdit(param)`: when reading the bounds throws, no setter runs. */
    method StartEdit(p: Parameter, toString: real -> string)
      modifies this
      ensures EditForm(p, toString).Some? ==>
        formData == EditForm(p, toString).value && isAdding && editingId == Some(p.id)
      ensures EditForm(p, toString).None? ==>
        formData == old(formData) && isAdding == old(isAdding) && editingId == old(editingId)
    {
      match EditForm(p, toString)
      case None =>
      case Some(f) =>
        formData := f;
        editingId := Some(p.id);
        isAdding := true;
    }

    /** `handleSubmit`: updates the parameter being edited (a non-empty id)
        or adds a new one, then resets the form. */
    method HandleSubmit(store: MedicalStore, parseFloat: string -> Option<real>, color: string, now: int)
      modifies this, store
      ensures var d := Submitted(old(formData), parseFloat, color);
        if old(editingId).Some? && old(editingId).value != ""
        then store.parameters == UpdatedParameters(old(store.parameters), old(editingId).value, d)
        else store.parameters == old(store.parameters) + [WithId(d, ParameterId(now))]
      ensures store.measurements == old(store.measurements)
      ensures formData == InitialForm && !isAdding && editingId == None
    {
      var d := Submitted(formData, parseFloat, color);
      if editingId.Some? && editingId.value != "" {
        store.UpdateParameter(editingId.value, d);
      } else {
        store.AddParameter(d, now);
      }
      ResetForm();
    }
  }
}
