/** Units of measure by category: the table of units and conversion
    functions, the category guessed from a parameter name, conversion between
    two units of a category, and the default and offered units. */
module UnitConversions {
  import opened Strings

  /** A conversion function: `val * f`, `val / f`, or `val`. */
  datatype Conversion = Scale(f: real) | Shrink(f: real) | Same

  function Apply(c: Conversion, v: real): real {
    match c
    case Scale(f) => v * f
    case Shrink(f) => if f == 0.0 then 0.0 else v / f
    case Same => v
  }

  datatype UnitOption = UnitOption(value: string, caption: string, isDefault: bool)

  datatype Category = Category(caption: string, units: seq<UnitOption>, conversions: map<string, Conversion>)

  /** The `${fromUnit}_to_${toUnit}` key of the conversions table. */
  function Key(from: string, to: string): string {
    from + "_to_" + to
  }

  function Default(u: string): UnitOption { UnitOption(u, u, true) }
  function Other(u: string): UnitOption { UnitOption(u, u, false) }

  /** A pair of conversions between a and b, multiplying one way and dividing the other. */
  function Pair(a: string, b: string, forward: Conversion, backward: Conversion): map<string, Conversion> {
    map[Key(a, b) := forward, Key(b, a) := backward]
  }

  const GenericUnits: seq<UnitOption> := [
    Default("mg/dL"), Other("g/dL"), Other("g/L"), Other("mmol/L"), Other("µmol/L"), Other("mIU/L"),
    Other("µIU/mL"), Other("U/L"), Other("ng/mL"), Other("pg/mL"), Other("%"), Other("mm/h")]

  /** `unitCategories`. */
  function UnitCategories(): map<string, Category> {
    map[
      "glucose" := Category("Glicemia", [Default("mg/dL"), Other("mmol/L")],
                            Pair("mg/dL", "mmol/L", Shrink(18.018), Scale(18.018))),
      "cholesterol" := Category("Colesterolo", [Default("mg/dL"), Other("mmol/L")],
                                Pair("mg/dL", "mmol/L", Shrink(38.67), Scale(38.67))),
      "hemoglobin" := Category("Emoglobina", [Default("g/dL"), Other("g/L"), Other("mmol/L")],
                               Pair("g/dL", "g/L", Scale(10.0), Shrink(10.0))
                               + Pair("g/dL", "mmol/L", Scale(0.6206), Shrink(0.6206))),
      "thyroid" := Category("Ormoni Tiroidei", [Default("mIU/L"), Other("µIU/mL")],
                            Pair("mIU/L", "µIU/mL", Same, Same)),
      "creatinine" := Category("Creatinina", [Default("mg/dL"), Other("µmol/L")],
                               Pair("mg/dL", "µmol/L", Scale(88.42), Shrink(88.42))),
      "urea" := Category("Azotemia/Urea", [Default("mg/dL"), Other("mmol/L")],
                         Pair("mg/dL", "mmol/L", Scale(0.357), Shrink(0.357))),
      "generic" := Category("Generica", GenericUnits, map[])]
  }

  // ------------------------------------------------------------ detection

  /** `detectCategory(parameterName)`: the first category whose keywords
      occur in the lower-cased name, else 'generic'. */
  function DetectCategory(parameterName: string): string {
    var name := ToLower(parameterName);
    if Contains(name, "glicemia") || Contains(name, "glucos") then "glucose"
    else if Contains(name, "colesterol") then "cholesterol"
    else if Contains(name, "emoglobin") || Contains(name, "hb") then "hemoglobin"
    else if Contains(name, "tsh") || Contains(name, "tiroide") || Contains(name, "thyroid") then "thyroid"
    else if Contains(name, "creatinin") then "creatinine"
    else if Contains(name, "azot") || Contains(name, "urea") then "urea"
    else "generic"
  }

  /** The keyword lists of detectCategory, in the order they are tried. */
  const Keywords: seq<(string, seq<string>)> := [
    ("glucose", ["glicemia", "glucos"]),
    ("cholesterol", ["colesterol"]),
    ("hemoglobin", ["emoglobin", "hb"]),
    ("thyroid", ["tsh", "tiroide", "thyroid"]),
    ("creatinine", ["creatinin"]),
    ("urea", ["azot", "urea"])]

  predicate MentionsAny(name: string, words: seq<string>) {
    exists i :: 0 <= i < |words| && Contains(name, words[i])
  }

  /** The first entry of the table whose keywords the name mentions. */
  function FirstMatch(name: string, table: seq<(string, seq<string>)>): string {
    if table == [] then "generic"
    else if MentionsAny(name, table[0].1) then table[0].0
    else FirstMatch(name, table[1..])
  }

  lemma MentionsTwo(name: string, a: string, b: string)
    ensures MentionsAny(name, [a, b]) <==> Contains(name, a) || Contains(name, b)
  {
    var w := [a, b];
    if Contains(name, a) { assert Contains(name, w[0]); }
    if Contains(name, b) { assert Contains(name, w[1]); }
  }

  lemma MentionsThree(name: string, a: string, b: string, c: string)
    ensures MentionsAny(name, [a, b, c]) <==> Contains(name, a) || Contains(name, b) || Contains(name, c)
  {
    var w := [a, b, c];
    if Contains(name, a) { assert Contains(name, w[0]); }
    if Contains(name, b) { assert Contains(name, w[1]); }
    if Contains(name, c) { assert Contains(name, w[2]); }
  }

  /** The first match from the urea entry on. */
  lemma MatchFromUrea(name: string)
    ensures FirstMatch(name, Keywords[5..]) == if Contains(name, "azot") || Contains(name, "urea") then "urea" else "generic"
  {
    var t := Keywords[5..];
    assert t[1..] == [] && t[0] == ("urea", ["azot", "urea"]);
    MentionsTwo(name, "azot", "urea");
  }

  /** The first match from the creatinine entry on. */
  lemma MatchFromCreatinine(name: string)
    ensures FirstMatch(name, Keywords[4..]) == if Contains(name, "creatinin") then "creatinine" else FirstMatch(name, Keywords[5..])
  {
    var t := Keywords[4..];
    assert t[1..] == Keywords[5..] && t[0] == ("creatinine", ["creatinin"]);
    var w := ["creatinin"];
    if Contains(name, "creatinin") { assert Contains(name, w[0]); }
  }

  /** The first match from the thyroid entry on. */
  lemma MatchFromThyroid(name: string)
    ensures FirstMatch(name, Keywords[3..]) ==
      if Contains(name, "tsh") || Contains(name, "tiroide") || Contains(name, "thyroid") then "thyroid"
      else FirstMatch(name, Keywords[4..])
  {
    var t := Keywords[3..];
    assert t[1..] == Keywords[4..] && t[0] == ("thyroid", ["tsh", "tiroide", "thyroid"]);
    MentionsThree(name, "tsh", "tiroide", "thyroid");
  }

  /** The first match from the hemoglobin entry on. */
  lemma MatchFromHemoglobin(name: string)
    ensures FirstMatch(name, Keywords[2..]) ==
      if Contains(name, "emoglobin") || Contains(name, "hb") then "hemoglobin" else FirstMatch(name, Keywords[3..])
  {
    var t := Keywords[2..];
    assert t[1..] == Keywords[3..] && t[0] == ("hemoglobin", ["emoglobin", "hb"]);
    MentionsTwo(name, "emoglobin", "hb");
  }

  /** The first match from the cholesterol entry on. */
  lemma MatchFromCholesterol(name: string)
    ensures FirstMatch(name, Keywords[1..]) ==
      if Contains(name, "colesterol") then "cholesterol" else FirstMatch(name, Keywords[2..])
  {
    var t := Keywords[1..];
    assert t[1..] == Keywords[2..] && t[0] == ("cholesterol", ["colesterol"]);
    var w := ["colesterol"];
    if Contains(name, "colesterol") { assert Contains(name, w[0]); }
  }

  /** The first match over the whole table. */
  lemma MatchFromGlucose(name: string)
    ensures FirstMatch(name, Keywords) ==
      if Contains(name, "glicemia") || Contains(name, "glucos") then "glucose" else FirstMatch(name, Keywords[1..])
  {
    assert Keywords[0] == ("glucose", ["glicemia", "glucos"]);
    MentionsTwo(name, "glicemia", "glucos");
  }

  /** detectCategory is the first match in the keyword table, tried in the
      order glucose, cholesterol, hemoglobin, thyroid, creatinine, urea. */
  lemma DetectIsFirstMatch(parameterName: string)
    ensures DetectCategory(parameterName) == FirstMatch(ToLower(parameterName), Keywords)
  {
    var name := ToLower(parameterName);
    MatchFromGlucose(name);
    MatchFromCholesterol(name);
    MatchFromHemoglobin(name);
    MatchFromThyroid(name);
    MatchFromCreatinine(name);
    MatchFromUrea(name);
  }

  /** The detected category is a key of the table, and the detection does not
      depend on letter case. */
  lemma DetectedIsKnown(parameterName: string)
    ensures DetectCategory(parameterName) in UnitCategories()
    ensures DetectCategory(ToLower(parameterName)) == DetectCategory(parameterName)
  {
    ToLowerIdempotent(parameterName);
  }

  // ----------------------------------------------------------- conversion

  /** `convertUnit(value, fromUnit, toUnit, category)`. */
  function ConvertUnit(value: real, fromUnit: string, toUnit: string, category: string): real {
    if fromUnit == toUnit then value
    else if category !in UnitCategories() then value
    else
      var conversions := UnitCategories()[category].conversions;
      var key := Key(fromUnit, toUnit);
      if key in conversions then Apply(conversions[key], value) else value
  }

  predicate NoUnderscore(s: string) {
    forall i :: 0 <= i < |s| ==> s[i] != '_'
  }

  /** In a key of two units without '_', every '_' lies in the "_to_" separator. */
  lemma SeparatorBounds(c: string, d: string, i: int)
    requires NoUnderscore(c) && NoUnderscore(d)
    requires 0 <= i < |Key(c, d)| && Key(c, d)[i] == '_'
    ensures |c| <= i <= |c| + 3
  {
  }

  /** Keys of units without '_' determine both units. */
  lemma KeyInjective(a: string, b: string, c: string, d: string)
    requires NoUnderscore(c) && NoUnderscore(d) && Key(a, b) == Key(c, d)
    ensures a == c && b == d
  {
    var k := Key(a, b);
    assert k[|a|] == '_' && k[|a| + 3] == '_';
    SeparatorBounds(c, d, |a|);
    SeparatorBounds(c, d, |a| + 3);
    assert a == k[..|a|] == c;
    assert b == k[|a| + 4..] == d;
  }

  /** The unit names of the conversion tables. */
  const ConvertibleUnits: seq<string> := ["mg/dL", "mmol/L", "g/dL", "g/L", "mIU/L", "µIU/mL", "µmol/L"]

  lemma ConvertibleUnitsClean()
    ensures forall i :: 0 <= i < |ConvertibleUnits| ==> NoUnderscore(ConvertibleUnits[i])
  {
    forall i | 0 <= i < |ConvertibleUnits| ensures NoUnderscore(ConvertibleUnits[i]) {
      var u := ConvertibleUnits[i];
      forall j | 0 <= j < |u| ensures u[j] != '_' {
      }
    }
  }

  /** Looking up a pair's table key names exactly its two units. */
  lemma PairKey(a: string, b: string, x: string, y: string, fw: Conversion, bw: Conversion)
    requires x in ConvertibleUnits && y in ConvertibleUnits
    requires Key(a, b) in Pair(x, y, fw, bw)
    ensures (a == x && b == y) || (a == y && b == x)
  {
    ConvertibleUnitsClean();
    if Key(a, b) == Key(x, y) { KeyInjective(a, b, x, y); } else { KeyInjective(a, b, y, x); }
  }

  /** Two conversions that undo each other. */
  predicate Inverses(fw: Conversion, bw: Conversion) {
    (fw == Same && bw == Same)
    || (fw.Scale? && fw.f != 0.0 && bw == Shrink(fw.f))
    || (fw.Shrink? && fw.f != 0.0 && bw == Scale(fw.f))
  }

  lemma InversesApply(fw: Conversion, bw: Conversion, v: real)
    requires Inverses(fw, bw)
    ensures Inverses(bw, fw) && Apply(bw, Apply(fw, v)) == v
  {
  }

  /** A pair of inverse conversions between two distinct units holds, for
      each of its keys, the reverse key with the inverse conversion. */
  lemma PairInverses(a: string, b: string, x: string, y: string, fw: Conversion, bw: Conversion)
    requires x in ConvertibleUnits && y in ConvertibleUnits && x != y && Inverses(fw, bw)
    requires Key(a, b) in Pair(x, y, fw, bw)
    ensures var p := Pair(x, y, fw, bw); Key(b, a) in p && Inverses(p[Key(a, b)], p[Key(b, a)])
  {
    PairKey(a, b, x, y, fw, bw);
    ConvertibleUnitsClean();
    if Key(x, y) == Key(y, x) { KeyInjective(x, y, y, x); }
    InversesApply(fw, bw, 0.0);
  }

  /** Every key of a category's table has its reverse key, holding the inverse conversion. */
  lemma TableInverses(category: string, a: string, b: string)
    requires category in UnitCategories()
    requires Key(a, b) in UnitCategories()[category].conversions
    ensures var conv := UnitCategories()[category].conversions;
      Key(b, a) in conv && Inverses(conv[Key(a, b)], conv[Key(b, a)])
  {
    if category == "glucose" {
      PairInverses(a, b, "mg/dL", "mmol/L", Shrink(18.018), Scale(18.018));
    } else if category == "cholesterol" {
      PairInverses(a, b, "mg/dL", "mmol/L", Shrink(38.67), Scale(38.67));
    } else if category == "hemoglobin" {
      var p1 := Pair("g/dL", "g/L", Scale(10.0), Shrink(10.0));
      var p2 := Pair("g/dL", "mmol/L", Scale(0.6206), Shrink(0.6206));
      assert UnitCategories()[category].conversions == p1 + p2;
      if Key(a, b) in p2 {
        PairInverses(a, b, "g/dL", "mmol/L", Scale(0.6206), Shrink(0.6206));
        PairKey(a, b, "g/dL", "mmol/L", Scale(0.6206), Shrink(0.6206));
        if Key(b, a) in p1 { PairKey(b, a, "g/dL", "g/L", Scale(10.0), Shrink(10.0)); }
        if Key(a, b) in p1 { PairKey(a, b, "g/dL", "g/L", Scale(10.0), Shrink(10.0)); }
      } else {
        PairInverses(a, b, "g/dL", "g/L", Scale(10.0), Shrink(10.0));
        PairKey(a, b, "g/dL", "g/L", Scale(10.0), Shrink(10.0));
        if Key(b, a) in p2 { PairKey(b, a, "g/dL", "mmol/L", Scale(0.6206), Shrink(0.6206)); }
      }
    } else if category == "thyroid" {
      PairInverses(a, b, "mIU/L", "µIU/mL", Same, Same);
    } else if category == "creatinine" {
      PairInverses(a, b, "mg/dL", "µmol/L", Scale(88.42), Shrink(88.42));
    } else if category == "urea" {
      PairInverses(a, b, "mg/dL", "mmol/L", Scale(0.357), Shrink(0.357));
    }
  }

  /** Converting a to b and back gives the value back, in exact arithmetic,
      for every pair the table defines. */
  lemma RoundTrip(value: real, a: string, b: string, category: string)
    requires category in UnitCategories() && Key(a, b) in UnitCategories()[category].conversions
    ensures ConvertUnit(ConvertUnit(value, a, b, category), b, a, category) == value
  {
    if a != b {
      var conv := UnitCategories()[category].conversions;
      TableInverses(category, a, b);
      InversesApply(conv[Key(a, b)], conv[Key(b, a)], value);
    }
  }

  /** The thyroid units are equivalent: any conversion in that category is the identity. */
  lemma ThyroidIdentity(value: real, a: string, b: string)
    ensures ConvertUnit(value, a, b, "thyroid") == value
  {
  }

  /** Unknown categories, generic units and pairs without a table entry keep the value. */
  lemma Fallbacks(value: real, a: string, b: string, category: string)
    ensures category !in UnitCategories() ==> ConvertUnit(value, a, b, category) == value
    ensures ConvertUnit(value, a, b, "generic") == value
    ensures ConvertUnit(value, "g/L", "mmol/L", "hemoglobin") == value
  {
    var k := Key("g/L", "mmol/L");
    var conv := UnitCategories()["hemoglobin"].conversions;
    if k in conv {
      PairKey("g/L", "mmol/L", "g/dL", "g/L", Scale(10.0), Shrink(10.0));
      PairKey("g/L", "mmol/L", "g/dL", "mmol/L", Scale(0.6206), Shrink(0.6206));
    }
  }

  // -------------------------------------------------------- default units

  /** `units.find(u => u.isDefault)`: the index of the first flagged unit. */
  function FindDefault(units: seq<UnitOption>): (r: int)
    ensures -1 <= r < |units|
    ensures r >= 0 ==> units[r].isDefault && forall j :: 0 <= j < r ==> !units[j].isDefault
    ensures r == -1 ==> forall j :: 0 <= j < |units| ==> !units[j].isDefault
  {
    if units == [] then -1
    else if units[0].isDefault then 0
    else var r := FindDefault(units[1..]); if r == -1 then -1 else r + 1
  }

  /** `getDefaultUnit(category)`: 'mg/dL' for an unknown category. */
  function GetDefaultUnit(category: string): string {
    if category !in UnitCategories() then "mg/dL"
    else
      var units := UnitCategories()[category].units;
      var d := FindDefault(units);
      if d >= 0 then units[d].value else if units != [] then units[0].value else ""
  }

  /** `getAvailableUnits(category)`: the generic list for an unknown category. */
  function GetAvailableUnits(category: string): seq<UnitOption> {
    if category in UnitCategories() then UnitCategories()[category].units else GenericUnits
  }

  predicate Offers(units: seq<UnitOption>, u: string) {
    exists i :: 0 <= i < |units| && units[i].value == u
  }

  /** Every category offers its default unit, and a known category's default
      is its flagged unit. */
  lemma DefaultIsOffered(category: string)
    ensures Offers(GetAvailableUnits(category), GetDefaultUnit(category))
    ensures category in UnitCategories() ==>
      var units := UnitCategories()[category].units;
      exists i :: 0 <= i < |units| && units[i].isDefault && units[i].value == GetDefaultUnit(category)
  {
    if category in UnitCategories() {
      var units := UnitCategories()[category].units;
      assert units[0].isDefault;
      assert FindDefault(units) == 0;
    } else {
      assert GenericUnits[0].value == "mg/dL";
    }
  }
}
