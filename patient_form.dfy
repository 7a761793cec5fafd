/** The patient form: validation into a map of error messages, tag
    toggling, the formatted codice fiscale, auto-fill of sex and birth date
    from the code, and submission to the patient store. */
module PatientForm {
  import opened Wrappers
  import opened Strings
  import opened Sequences
  import opened PatientUtils
  import opened PatientContext

  // ---------------------------------------------------------------- tags

  function OtherTag(tag: string): string -> bool { (t: string) => t != tag }

  /** `tags.includes(tag) ? tags.filter(t => t !== tag) : [...tags, tag]`. */
  function ToggleTag(tags: seq<string>, tag: string): seq<string> {
    if tag in tags then Filter(tags, OtherTag(tag)) else tags + [tag]
  }

  /** Toggling flips the tag's membership and no other's; an absent tag is
      appended at the end. */
  lemma ToggleTagMembership(tags: seq<string>, tag: string)
    ensures tag in ToggleTag(tags, tag) <==> tag !in tags
    ensures forall t :: t != tag ==> (t in ToggleTag(tags, tag) <==> t in tags)
    ensures tag !in tags ==> ToggleTag(tags, tag) == tags + [tag]
  {
    if tag in tags {
      var r := Filter(tags, OtherTag(tag));
      if tag in r {
        FilterMember(tags, OtherTag(tag), tag);
      }
      forall t | t != tag && t in tags ensures t in r {
        var i :| 0 <= i < |tags| && tags[i] == t;
      }
      forall t | t in r ensures t in tags {
        FilterMember(tags, OtherTag(tag), t);
      }
    }
  }

  /** Toggling twice restores membership, and restores the list itself when
      the tag was absent. */
  lemma ToggleTagTwice(tags: seq<string>, tag: string)
    ensures forall t :: t in ToggleTag(ToggleTag(tags, tag), tag) <==> t in tags
    ensures tag !in tags ==> ToggleTag(ToggleTag(tags, tag), tag) == tags
  {
    ToggleTagMembership(tags, tag);
    ToggleTagMembership(ToggleTag(tags, tag), tag);
    if tag !in tags {
      var once := tags + [tag];
      FilterAppend(tags, [tag], OtherTag(tag));
      FilterKeepsAll(tags, OtherTag(tag));
      assert Filter([tag], OtherTag(tag)) == [] by { assert [tag][1..] == []; }
    }
  }

  // ---------------------------------------------------------- validation

  const MissingName := "Nome obbligatorio"
  const MissingSurname := "Cognome obbligatorio"
  const MissingCode := "Codice fiscale obbligatorio"
  const InvalidCode := "Codice fiscale non valido"
  const MissingBirthDate := "Data di nascita obbligatoria"
  const MissingSex := "Sesso obbligatorio"

  /** The form passes validation: names and code not blank, the code valid,
      birth date and sex given. */
  predicate Acceptable(d: PatientData) {
    !IsBlank(d.nome) && !IsBlank(d.cognome)
    && !IsBlank(d.codiceFiscale) && ValidateCodiceFiscale(d.codiceFiscale)
    && d.dataNascita != "" && d.sesso != ""
  }

  /** The fields a new patient form starts from, or the edited patient's. */
  function InitialData(patient: Option<Patient>): PatientData {
    match patient
    case None => PatientData("", "", "", "", "", "", "", "", "", "", "", [], None)
    case Some(p) => p.data.(avatar := if p.data.avatar == Some("") then None else p.data.avatar)
  }

  /** Auto-fill is offered for a valid 16-character code when sex or birth
      date is still empty. */
  predicate AutoFillOffered(d: PatientData) {
    |d.codiceFiscale| == 16 && ValidateCodiceFiscale(d.codiceFiscale)
    && (d.sesso == "" || d.dataNascita == "")
  }

  /** `sex || prev.sesso` and `birthDate || prev.dataNascita`. */
  function AutoFilled(d: PatientData, currentYear: nat): PatientData {
    var cf := FormatCodiceFiscale(d.codiceFiscale);
    var sex := ExtractSexFromCF(cf);
    var birthDate := ExtractBirthDateFromCF(cf, currentYear);
    d.(sesso := if sex.Some? && sex.value != "" then sex.value else d.sesso,
       dataNascita := if birthDate.Some? && birthDate.value != "" then birthDate.value else d.dataNascita)
  }

  /** Auto-fill on a valid code sets sex to the code's and fills the birth
      date, leaving every other field as it was. */
  lemma AutoFillFills(d: PatientData, currentYear: nat)
    requires ValidateCodiceFiscale(d.codiceFiscale)
    ensures var f := AutoFilled(d, currentYear);
      f == d.(sesso := f.sesso, dataNascita := f.dataNascita)
      && f.dataNascita != "" && ExtractSexFromCF(FormatCodiceFiscale(d.codiceFiscale)) == Some(f.sesso)
      && (f.sesso == "M" || f.sesso == "F")
  {
    FormatAndValidate(d.codiceFiscale);
    var cf := FormatCodiceFiscale(d.codiceFiscale);
    ValidCodeSex(cf);
  }

  /** What the five steps of `validate()` leave in the map of messages. */
  lemma ValidationKeys(d: PatientData, afterName: map<string, string>, afterSurname: map<string, string>,
                       afterCode: map<string, string>, afterBirth: map<string, string>, m: map<string, string>)
    requires afterName == if IsBlank(d.nome) then map["nome" := MissingName] else map[]
    requires afterSurname == if IsBlank(d.cognome) then afterName["cognome" := MissingSurname] else afterName
    requires afterCode == if IsBlank(d.codiceFiscale) then afterSurname["codiceFiscale" := MissingCode]
      else if !ValidateCodiceFiscale(d.codiceFiscale) then afterSurname["codiceFiscale" := InvalidCode]
      else afterSurname
    requires afterBirth == if d.dataNascita == "" then afterCode["dataNascita" := MissingBirthDate] else afterCode
    requires m == if d.sesso == "" then afterBirth["sesso" := MissingSex] else afterBirth
    ensures m.Keys <= {"nome", "cognome", "codiceFiscale", "dataNascita", "sesso"}
    ensures ("nome" in m <==> IsBlank(d.nome)) && ("nome" in m ==> m["nome"] == MissingName)
    ensures ("cognome" in m <==> IsBlank(d.cognome)) && ("cognome" in m ==> m["cognome"] == MissingSurname)
    ensures ("codiceFiscale" in m <==> IsBlank(d.codiceFiscale) || !ValidateCodiceFiscale(d.codiceFiscale))
      && ("codiceFiscale" in m ==>
            m["codiceFiscale"] == if IsBlank(d.codiceFiscale) then MissingCode else InvalidCode)
    ensures ("dataNascita" in m <==> d.dataNascita == "") && ("dataNascita" in m ==> m["dataNascita"] == MissingBirthDate)
    ensures ("sesso" in m <==> d.sesso == "") && ("sesso" in m ==> m["sesso"] == MissingSex)
  {
  }

  /** The map of messages is empty exactly when the form passes validation. */
  lemma ValidationEmpty(d: PatientData, m: map<string, string>)
    requires m.Keys <= {"nome", "cognome", "codiceFiscale", "dataNascita", "sesso"}
    requires "nome" in m <==> IsBlank(d.nome)
    requires "cognome" in m <==> IsBlank(d.cognome)
    requires "codiceFiscale" in m <==> IsBlank(d.codiceFiscale) || !ValidateCodiceFiscale(d.codiceFiscale)
    requires "dataNascita" in m <==> d.dataNascita == ""
    requires "sesso" in m <==> d.sesso == ""
    ensures |m| == 0 <==> Acceptable(d)
  {
    if Acceptable(d) {
      assert m == map[];
    } else {
      var k := if IsBlank(d.nome) then "nome" else if IsBlank(d.cognome) then "cognome"
        else if IsBlank(d.codiceFiscale) || !ValidateCodiceFiscale(d.codiceFiscale) then "codiceFiscale"
        else if d.dataNascita == "" then "dataNascita" else "sesso";
      assert k in m.Keys;
    }
  }

  /** The messages `validate()` sets for the data: one per failing field,
      each with that field's text, and no other key. */
  predicate Reports(errors: map<string, string>, d: PatientData) {
    && errors.Keys <= {"nome", "cognome", "codiceFiscale", "dataNascita", "sesso"}
    && ("nome" in errors <==> IsBlank(d.nome))
    && ("nome" in errors ==> errors["nome"] == MissingName)
    && ("cognome" in errors <==> IsBlank(d.cognome))
    && ("cognome" in errors ==> errors["cognome"] == MissingSurname)
    && ("codiceFiscale" in errors <==> IsBlank(d.codiceFiscale) || !ValidateCodiceFiscale(d.codiceFiscale))
    && ("codiceFiscale" in errors ==>
          errors["codiceFiscale"] == if IsBlank(d.codiceFiscale) then MissingCode else InvalidCode)
    && ("dataNascita" in errors <==> d.dataNascita == "")
    && ("dataNascita" in errors ==> errors["dataNascita"] == MissingBirthDate)
    && ("sesso" in errors <==> d.sesso == "")
    && ("sesso" in errors ==> errors["sesso"] == MissingSex)
  }

  // ---------------------------------------------------------------- form

  /** The state of `PatientForm`: the fields, the error messages by field,
      whether auto-fill is offered, and the patient being edited if any. */
  class PatientFormState {
    var formData: PatientData
    var errors: map<string, string>
    var autoFillAvailable: bool
    const patient: Option<Patient>

    constructor(patient: Option<Patient>)
      ensures formData == InitialData(patient) && errors == map[] && !autoFillAvailable
      ensures this.patient == patient
    {
      formData := InitialData(patient);
      errors := map[];
      autoFillAvailable := false;
      this.patient := patient;
    }

    /** `validate()`: one message per failing field, and true iff there is none. */
    method Validate() returns (ok: bool)
      modifies this
      ensures formData == old(formData) && autoFillAvailable == old(autoFillAvailable)
      ensures ok <==> Acceptable(formData)
      ensures ok <==> errors == map[]
      ensures Reports(errors, formData)
    {
      var d := formData;
      TrimEmpty(d.nome);
      TrimEmpty(d.cognome);
      TrimEmpty(d.codiceFiscale);
      var newErrors: map<string, string> := map[];
      if Trim(d.nome) == "" {
        newErrors := newErrors["nome" := MissingName];
      }
      ghost var afterName := newErrors;
      assert afterName == if IsBlank(d.nome) then map["nome" := MissingName] else map[];
      if Trim(d.cognome) == "" {
        newErrors := newErrors["cognome" := MissingSurname];
      }
      ghost var afterSurname := newErrors;
      assert afterSurname == if IsBlank(d.cognome) then afterName["cognome" := MissingSurname] else afterName;
      if Trim(d.codiceFiscale) == "" {
        newErrors := newErrors["codiceFiscale" := MissingCode];
      } else if !ValidateCodiceFiscale(d.codiceFiscale) {
        newErrors := newErrors["codiceFiscale" := InvalidCode];
      }
      ghost var afterCode := newErrors;
      assert afterCode == if IsBlank(d.codiceFiscale) then afterSurname["codiceFiscale" := MissingCode]
        else if !ValidateCodiceFiscale(d.codiceFiscale) then afterSurname["codiceFiscale" := InvalidCode]
        else afterSurname;
      if d.dataNascita == "" {
        newErrors := newErrors["dataNascita" := MissingBirthDate];
      }
      ghost var afterBirth := newErrors;
      assert afterBirth == if d.dataNascita == "" then afterCode["dataNascita" := MissingBirthDate] else afterCode;
      if d.sesso == "" {
        newErrors := newErrors["sesso" := MissingSex];
      }
      assert newErrors == if d.sesso == "" then afterBirth["sesso" := MissingSex] else afterBirth;
      ValidationKeys(d, afterName, afterSurname, afterCode, afterBirth, newErrors);
      ValidationEmpty(d, newErrors);
      errors := newErrors;
      ok := |newErrors| == 0;
    }

    /** `handleCFChange(value)`: stores the formatted code and clears its error. */
    method HandleCFChange(value: string)
      modifies this
      ensures formData == old(formData).(codiceFiscale := FormatCodiceFiscale(value))
      ensures errors == old(errors) - {"codiceFiscale"}
      ensures autoFillAvailable == old(autoFillAvailable)
    {
      formData := formData.(codiceFiscale := FormatCodiceFiscale(value));
      if "codiceFiscale" in errors {
        errors := errors - {"codiceFiscale"};
      }
    }

    /** `handleTagToggle(tag)`. */
    method HandleTagToggle(tag: string)
      modifies this
      ensures formData == old(formData).(tags := ToggleTag(old(formData.tags), tag))
      ensures errors == old(errors) && autoFillAvailable == old(autoFillAvailable)
      ensures tag in formData.tags <==> tag !in old(formData.tags)
    {
      ToggleTagMembership(formData.tags, tag);
      formData := formData.(tags := ToggleTag(formData.tags, tag));
    }

    /** The effect on the code, sex and birth date: it offers auto-fill when
        the rule holds and otherwise leaves the flag alone. */
    method CheckAutoFill()
      modifies this
      ensures autoFillAvailable == (old(autoFillAvailable) || AutoFillOffered(formData))
      ensures formData == old(formData) && errors == old(errors)
    {
      if |formData.codiceFiscale| == 16 {
        var isValid := ValidateCodiceFiscale(formData.codiceFiscale);
        if isValid && (formData.sesso == "" || formData.dataNascita == "") {
          autoFillAvailable := true;
        }
      }
    }

    /** `handleAutoFill()` with the current year passed in. */
    method HandleAutoFill(currentYear: nat)
      modifies this
      ensures formData == AutoFilled(old(formData), currentYear)
      ensures !autoFillAvailable && errors == old(errors)
    {
      formData := AutoFilled(formData, currentYear);
      autoFillAvailable := false;
    }

    /** `handleSubmit`: validates, replacing the error messages; on invalid
        data the store is left alone, otherwise the edited patient is
        updated, or a new one is added under the fresh id passed in. Returns
        the id passed to `onSuccess`, absent when not called. */
    method HandleSubmit(store: PatientStore, id: string, now: int) returns (saved: Option<string>)
      requires patient.None? ==> forall i :: 0 <= i < |store.patients| ==> store.patients[i].id != id
      requires patient.None? ==> forall i :: 0 <= i < |store.visits| ==> store.visits[i].patientId != id
      modifies this, store
      ensures formData == old(formData) && autoFillAvailable == old(autoFillAvailable)
      ensures Reports(errors, formData) && (errors == map[] <==> Acceptable(formData))
      ensures store.visits == old(store.visits) && store.activePatientId == old(store.activePatientId)
      ensures !Acceptable(formData) ==> saved.None? && store.patients == old(store.patients)
      ensures Acceptable(formData) && patient.Some? ==>
        saved == Some(patient.value.id)
        && store.patients == UpdatedPatients(old(store.patients), patient.value.id,
                                             PatientPatch(Some(formData), None, None, None), now)
      ensures Acceptable(formData) && patient.None? ==>
        saved == Some(id) && store.patients == old(store.patients) + [NewPatient(formData, id, now)]
      ensures old(store.Valid()) ==> store.Valid()
    {
      var ok := Validate();
      if !ok {
        return None;
      }
      if patient.Some? {
        store.UpdatePatient(patient.value.id, PatientPatch(Some(formData), None, None, None), now);
        saved := Some(patient.value.id);
      } else {
        var newId := store.AddPatient(formData, id, now);
        saved := Some(newId);
      }
    }
  }
}
