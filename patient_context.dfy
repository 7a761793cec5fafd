/** The store of patients and visits: patient and visit updates, the visit
    counters, the active patient, search and the attention list. Ids and
    timestamps (milliseconds) are passed in. */
module PatientContext {
  import opened Wrappers
  import opened Strings
  import opened Sequences
  import opened PatientUtils

  /** What the patient form edits. */
  datatype PatientData = PatientData(
    nome: string,
    cognome: string,
    codiceFiscale: string,
    dataNascita: string,
    sesso: string,
    email: string,
    telefono: string,
    indirizzo: string,
    note: string,
    allergie: string,
    terapie: string,
    tags: seq<string>,
    avatar: Option<string>)

  /** A stored patient: the form's data plus what the store keeps. An absent
      `lastVisit` stands for a record without one. */
  datatype Patient = Patient(
    id: string,
    data: PatientData,
    createdAt: int,
    lastVisit: Option<int>,
    totalVisits: int,
    totalMeasurements: int,
    updatedAt: Option<int>)

  /** The fields an `updatePatient` call sets; absent ones are left alone. */
  datatype PatientPatch = PatientPatch(
    data: Option<PatientData>,
    lastVisit: Option<int>,
    totalVisits: Option<int>,
    totalMeasurements: Option<int>)

  /** A visit; its date defaults to the time it was recorded. */
  datatype Visit = Visit(id: string, patientId: string, date: int, createdAt: int, notes: string)

  /** What a caller passes to `addVisit`. */
  datatype VisitData = VisitData(date: Option<int>, notes: string)

  function PatientId(p: Patient): string { p.id }
  function VisitId(v: Visit): string { v.id }
  function VisitDate(v: Visit): int { v.date }

  function HasPatientId(id: string): Patient -> bool { (p: Patient) => p.id == id }
  function OtherPatient(id: string): Patient -> bool { (p: Patient) => p.id != id }
  function VisitOf(patientId: string): Visit -> bool { (v: Visit) => v.patientId == patientId }
  function NotVisitOf(patientId: string): Visit -> bool { (v: Visit) => v.patientId != patientId }
  function HasVisitId(id: string): Visit -> bool { (v: Visit) => v.id == id }
  function OtherVisit(id: string): Visit -> bool { (v: Visit) => v.id != id }

  // -------------------------------------------------------------- updates

  /** The patient `addPatient` stores: created and last seen now, no visits,
      no measurements, and `avatar || null`. */
  function NewPatient(data: PatientData, id: string, now: int): Patient {
    var avatar := if data.avatar == Some("") then None else data.avatar;
    Patient(id, data.(avatar := avatar), now, Some(now), 0, 0, None)
  }

  /** `{ ...p, ...updatedData, updatedAt: now }`. */
  function Merge(p: Patient, patch: PatientPatch, now: int): Patient {
    Patient(p.id, patch.data.GetOr(p.data), p.createdAt,
            if patch.lastVisit.Some? then patch.lastVisit else p.lastVisit,
            patch.totalVisits.GetOr(p.totalVisits),
            patch.totalMeasurements.GetOr(p.totalMeasurements),
            Some(now))
  }

  /** `prev.map(p => p.id === patientId ? merged : p)`. */
  function UpdatedPatients(ps: seq<Patient>, id: string, patch: PatientPatch, now: int): (r: seq<Patient>)
    ensures |r| == |ps|
  {
    seq(|ps|, i requires 0 <= i < |ps| => if ps[i].id == id then Merge(ps[i], patch, now) else ps[i])
  }

  /** An update keeps ids and positions, touches only the patients with that
      id, and sets exactly the fields the patch carries. */
  lemma UpdatePatientFacts(ps: seq<Patient>, id: string, patch: PatientPatch, now: int)
    ensures var r := UpdatedPatients(ps, id, patch, now);
      forall i :: 0 <= i < |ps| ==>
        r[i].id == ps[i].id
        && (ps[i].id != id ==> r[i] == ps[i])
        && (ps[i].id == id ==>
              r[i].createdAt == ps[i].createdAt && r[i].updatedAt == Some(now)
              && r[i].data == (if patch.data.Some? then patch.data.value else ps[i].data)
              && r[i].totalVisits == (if patch.totalVisits.Some? then patch.totalVisits.value else ps[i].totalVisits)
              && r[i].lastVisit == (if patch.lastVisit.Some? then patch.lastVisit else ps[i].lastVisit))
  {
  }

  /** The patch `{ lastVisit: now }`. */
  function SeenPatch(now: int): PatientPatch { PatientPatch(None, Some(now), None, None) }

  /** The patch `{ totalVisits: n, lastVisit: now }`. */
  function CountPatch(n: int, now: int): PatientPatch { PatientPatch(None, Some(now), Some(n), None) }

  /** The visit `addVisit` stores. */
  function NewVisit(patientId: string, data: VisitData, id: string, now: int): Visit {
    Visit(id, patientId, data.date.GetOr(now), now, data.notes)
  }

  // -------------------------------------------------------------- queries

  /** `getActivePatient()`: the first patient with the active id. */
  function ActivePatient(ps: seq<Patient>, activePatientId: Option<string>): (r: Option<Patient>)
    ensures r.Some? ==> activePatientId == Some(r.value.id) && r.value in ps
    ensures r.None? <==> activePatientId.None? || forall i :: 0 <= i < |ps| ==> ps[i].id != activePatientId.value
  {
    match activePatientId
    case None => None
    case Some(a) => Find(ps, HasPatientId(a))
  }

  /** `getPatientVisits(patientId)`: that patient's visits, newest first. */
  function PatientVisits(visits: seq<Visit>, patientId: string): (r: seq<Visit>)
    ensures Descending(r, VisitDate)
    ensures multiset(r) == multiset(Filter(visits, VisitOf(patientId)))
    ensures StableBy(r, Filter(visits, VisitOf(patientId)), VisitDate)
  {
    SortDescendingStable(Filter(visits, VisitOf(patientId)), VisitDate);
    SortDescending(Filter(visits, VisitOf(patientId)), VisitDate)
  }

  /** The listed visits are exactly the patient's visits. */
  lemma PatientVisitsMembers(visits: seq<Visit>, patientId: string)
    ensures var r := PatientVisits(visits, patientId);
      (forall i :: 0 <= i < |r| ==> r[i].patientId == patientId && r[i] in visits)
      && (forall i :: 0 <= i < |visits| && visits[i].patientId == patientId ==> visits[i] in r)
  {
    SortedFilterMembers(visits, VisitOf(patientId), VisitDate);
  }

  /** The search predicate for a lower-cased term: nome, cognome, codice
      fiscale or email lower-cased, or telefono as stored, contain it. */
  function MatchesTerm(term: string): Patient -> bool {
    (p: Patient) =>
      Contains(ToLower(p.data.nome), term) || Contains(ToLower(p.data.cognome), term)
      || Contains(ToLower(p.data.codiceFiscale), term) || Contains(ToLower(p.data.email), term)
      || Contains(p.data.telefono, term)
  }

  /** `searchPatients(searchTerm)`: everyone for an empty term. */
  function SearchPatients(ps: seq<Patient>, searchTerm: string): seq<Patient> {
    if searchTerm == [] then ps else Filter(ps, MatchesTerm(ToLower(searchTerm)))
  }

  lemma LowerOfUpper(c: char)
    ensures LowerChar(UpperChar(c)) == LowerChar(c)
  {
  }

  lemma {:induction false} ToLowerOfUpper(s: string)
    ensures ToLower(ToUpper(s)) == ToLower(s)
  {
    if s != [] {
      ToLowerOfUpper(s[1..]);
      LowerOfUpper(s[0]);
      assert ToUpper(s)[0] == UpperChar(s[0]) && ToUpper(s)[1..] == ToUpper(s[1..]);
    }
  }

  /** The search does not depend on the case of the term; a patient that
      matches the lower-cased term is found, as is one whose name contains
      the term in any case; everyone found matches. */
  lemma SearchFacts(ps: seq<Patient>, searchTerm: string)
    ensures SearchPatients(ps, ToUpper(searchTerm)) == SearchPatients(ps, searchTerm)
    ensures SearchPatients(ps, ToLower(searchTerm)) == SearchPatients(ps, searchTerm)
    ensures forall i :: 0 <= i < |ps| && MatchesTerm(ToLower(searchTerm))(ps[i]) ==>
      ps[i] in SearchPatients(ps, searchTerm)
    ensures forall i :: 0 <= i < |ps| && Contains(ToLower(ps[i].data.nome), ToLower(searchTerm)) ==>
      ps[i] in SearchPatients(ps, searchTerm)
    ensures searchTerm != [] ==>
      var r := SearchPatients(ps, searchTerm);
      forall i :: 0 <= i < |r| ==> MatchesTerm(ToLower(searchTerm))(r[i])
  {
    ToLowerOfUpper(searchTerm);
    ToLowerIdempotent(searchTerm);
    if searchTerm == [] {
      forall i | 0 <= i < |ps| ensures Contains(ToLower(ps[i].data.nome), ToLower(searchTerm)) {
        assert StartsWith(ToLower(ps[i].data.nome), []);
      }
    }
  }

  /** `getPatientsByTag(tag)`: exactly the patients carrying the tag, in
      their order. */
  function PatientsByTag(ps: seq<Patient>, tag: string): (r: seq<Patient>)
    ensures forall i :: 0 <= i < |r| ==> r[i] in ps && tag in r[i].data.tags
    ensures forall i :: 0 <= i < |ps| && tag in ps[i].data.tags ==> ps[i] in r
  {
    Filter(ps, (p: Patient) => tag in p.data.tags)
  }

  /** The attention test of `getPatientsNeedingAttention(days)`: no last
      visit, or at least `days` started days since it (not made absolute). */
  function NeedsAttention(days: int, now: int): Patient -> bool {
    (p: Patient) => p.lastVisit.None? || CeilDiv(now - p.lastVisit.value, DayMs) >= days
  }

  function PatientsNeedingAttention(ps: seq<Patient>, days: int, now: int): seq<Patient> {
    Filter(ps, NeedsAttention(days, now))
  }

  /** The default of `days`. */
  const DefaultAttentionDays: int := 30

  /** A patient is listed exactly when it passes the attention test; for a
      visit in the past the test agrees with `checkLastVisit`; a shorter
      threshold lists everyone a longer one lists; patients never seen are
      always listed. */
  lemma AttentionFacts(ps: seq<Patient>, d1: int, d2: int, now: int)
    requires d1 <= d2
    ensures forall i :: 0 <= i < |ps| ==>
      (ps[i] in PatientsNeedingAttention(ps, d1, now) <==> NeedsAttention(d1, now)(ps[i]))
    ensures forall p: Patient :: p.lastVisit.Some? && p.lastVisit.value <= now ==>
      NeedsAttention(d1, now)(p) == CheckLastVisit(p.lastVisit, now, d1).needsAlert
    ensures var wide := PatientsNeedingAttention(ps, d1, now);
      var narrow := PatientsNeedingAttention(ps, d2, now);
      forall i :: 0 <= i < |narrow| ==> narrow[i] in wide
    ensures forall i :: 0 <= i < |ps| && ps[i].lastVisit.None? ==> ps[i] in PatientsNeedingAttention(ps, d1, now)
  {
  }

  /** What `deleteVisit` does to the patients: the visit's patient, when
      known and with a positive counter, has it lowered by one. */
  function LessOneVisit(ps: seq<Patient>, patientId: string, now: int): seq<Patient> {
    match Find(ps, HasPatientId(patientId))
    case Some(p) =>
      if p.totalVisits > 0
      then UpdatedPatients(ps, patientId, PatientPatch(None, None, Some(p.totalVisits - 1), None), now)
      else ps
    case None => ps
  }

  /** With unique ids and counters that match the visits, deleting a visit
      and lowering its patient's counter keeps ids unique and the counters
      matching. */
  lemma CountsAfterDeleteVisit(before: seq<Visit>, k: nat, ps: seq<Patient>, now: int)
    requires k < |before| && UniqueBy(before, VisitId) && UniqueBy(ps, PatientId)
    requires forall i :: 0 <= i < |ps| ==> ps[i].totalVisits == Count(before, VisitOf(ps[i].id))
    ensures var after := Filter(before, OtherVisit(before[k].id));
      var r := LessOneVisit(ps, before[k].patientId, now);
      UniqueBy(after, VisitId) && UniqueBy(r, PatientId)
      && forall i :: 0 <= i < |r| ==> r[i].totalVisits == Count(after, VisitOf(r[i].id))
  {
    var v := before[k];
    var after := Filter(before, OtherVisit(v.id));
    assert forall i :: 0 <= i < |before| ==> (OtherVisit(v.id)(before[i]) <==> i != k);
    FilterUnique(before, OtherVisit(v.id), VisitId);
    var r := LessOneVisit(ps, v.patientId, now);
    forall i | 0 <= i < |r| ensures r[i].totalVisits == Count(after, VisitOf(r[i].id)) {
      CountWithout(before, k, OtherVisit(v.id), VisitOf(ps[i].id));
      match Find(ps, HasPatientId(v.patientId))
      case None =>
      case Some(p) =>
        if ps[i].id == v.patientId {
          var j :| 0 <= j < |ps| && ps[j] == p;
          assert j == i;
        }
    }
  }

  /** The patients after `addVisit`: a known patient's counter goes one up
      and the patient is marked as seen. */
  function MoreOneVisit(ps: seq<Patient>, patientId: string, now: int): (r: seq<Patient>)
    ensures |r| == |ps|
  {
    match Find(ps, HasPatientId(patientId))
    case None => ps
    case Some(p) => UpdatedPatients(ps, patientId, CountPatch(p.totalVisits + 1, now), now)
  }

  /** With unique ids and counters that match the visits, appending a visit
      with a new id and raising its patient's counter keeps ids unique and the
      counters matching. */
  lemma CountsAfterAddVisit(before: seq<Visit>, v: Visit, ps: seq<Patient>, now: int)
    requires UniqueBy(before, VisitId) && UniqueBy(ps, PatientId)
    requires forall i :: 0 <= i < |before| ==> before[i].id != v.id
    requires forall i :: 0 <= i < |ps| ==> ps[i].totalVisits == Count(before, VisitOf(ps[i].id))
    ensures var after := before + [v];
      var r := MoreOneVisit(ps, v.patientId, now);
      UniqueBy(after, VisitId) && UniqueBy(r, PatientId)
      && forall i :: 0 <= i < |r| ==> r[i].totalVisits == Count(after, VisitOf(r[i].id))
  {
    assert UniqueBy(before + [v], VisitId);
    forall i | 0 <= i < |ps| {
      CountAfterAddVisit(before, v, ps, now, i);
    }
  }

  /** The counter of one patient after `addVisit`. */
  lemma CountAfterAddVisit(before: seq<Visit>, v: Visit, ps: seq<Patient>, now: int, i: nat)
    requires UniqueBy(ps, PatientId) && i < |ps|
    requires ps[i].totalVisits == Count(before, VisitOf(ps[i].id))
    ensures MoreOneVisit(ps, v.patientId, now)[i].id == ps[i].id
    ensures MoreOneVisit(ps, v.patientId, now)[i].totalVisits == Count(before + [v], VisitOf(ps[i].id))
  {
    CountAppend(before, [v], VisitOf(ps[i].id));
    assert Count([v], VisitOf(ps[i].id)) == if v.patientId == ps[i].id then 1 else 0 by {
      assert [v][1..] == [];
    }
    match Find(ps, HasPatientId(v.patientId))
    case None =>
    case Some(p) =>
      if ps[i].id == v.patientId {
        var j :| 0 <= j < |ps| && ps[j] == p;
        assert j == i;
      }
  }

  // ---------------------------------------------------------------- store

  /** The state of `PatientProvider`. */
  class PatientStore {
    var patients: seq<Patient>
    var activePatientId: Option<string>
    var visits: seq<Visit>

    /** Ids are unique, and every patient's counter is the number of its visits. */
    ghost predicate Valid()
      reads this
    {
      UniqueBy(patients, PatientId) && UniqueBy(visits, VisitId)
      && forall i :: 0 <= i < |patients| ==> patients[i].totalVisits == Count(visits, VisitOf(patients[i].id))
    }

    /** A store with nothing saved. */
    constructor()
      ensures patients == [] && activePatientId == None && visits == [] && Valid()
    {
      patients := [];
      activePatientId := None;
      visits := [];
    }

    /** `addPatient(patientData)` with a fresh id and the time passed in;
        returns the id. */
    method AddPatient(data: PatientData, id: string, now: int) returns (newId: string)
      requires forall i :: 0 <= i < |patients| ==> patients[i].id != id
      requires forall i :: 0 <= i < |visits| ==> visits[i].patientId != id
      modifies this
      ensures newId == id
      ensures patients == old(patients) + [NewPatient(data, id, now)]
      ensures visits == old(visits) && activePatientId == old(activePatientId)
      ensures old(Valid()) ==> Valid()
    {
      ghost var wasValid := Valid();
      var p := NewPatient(data, id, now);
      patients := patients + [p];
      newId := id;
      if wasValid {
        assert Count(visits, VisitOf(id)) == 0 by {
          CountIsFilterLength(visits, VisitOf(id));
          FilterDropsAll(visits, VisitOf(id));
        }
      }
    }

    /** `updatePatient(patientId, updatedData)` with the time passed in. */
    method UpdatePatient(id: string, patch: PatientPatch, now: int)
      modifies this
      ensures patients == UpdatedPatients(old(patients), id, patch, now)
      ensures visits == old(visits) && activePatientId == old(activePatientId)
      ensures old(Valid()) && patch.totalVisits.None? ==> Valid()
    {
      patients := UpdatedPatients(patients, id, patch, now);
    }

    /** `deletePatient(patientId)`: the patient, its visits, and the active id
        when it was this patient. */
    method DeletePatient(id: string)
      modifies this
      ensures patients == Filter(old(patients), OtherPatient(id))
      ensures visits == Filter(old(visits), NotVisitOf(id))
      ensures activePatientId == if old(activePatientId) == Some(id) then None else old(activePatientId)
      ensures old(Valid()) ==> Valid()
    {
      ghost var wasValid := Valid();
      ghost var before := visits;
      patients := Filter(patients, OtherPatient(id));
      visits := Filter(visits, NotVisitOf(id));
      if activePatientId == Some(id) {
        activePatientId := None;
      }
      if wasValid {
        FilterUnique(old(patients), OtherPatient(id), PatientId);
        FilterUnique(before, NotVisitOf(id), VisitId);
        forall i | 0 <= i < |patients|
          ensures patients[i].totalVisits == Count(visits, VisitOf(patients[i].id))
        {
          CountFiltered(before, NotVisitOf(id), VisitOf(patients[i].id));
        }
      }
    }

    /** `setActivePatient(patientId)`: a non-empty id is also marked as seen now. */
    method SetActivePatient(patientId: Option<string>, now: int)
      modifies this
      ensures activePatientId == patientId
      ensures patients == if patientId.Some? && patientId.value != ""
        then UpdatedPatients(old(patients), patientId.value, SeenPatch(now), now) else old(patients)
      ensures visits == old(visits)
      ensures old(Valid()) ==> Valid()
    {
      activePatientId := patientId;
      if patientId.Some? && patientId.value != "" {
        UpdatePatient(patientId.value, SeenPatch(now), now);
      }
    }

    /** `addVisit(patientId, visitData)` with a fresh id and the time passed
        in: appends the visit and, for a known patient, counts it. */
    method AddVisit(patientId: string, data: VisitData, id: string, now: int) returns (newId: string)
      requires forall i :: 0 <= i < |visits| ==> visits[i].id != id
      modifies this
      ensures newId == id
      ensures visits == old(visits) + [NewVisit(patientId, data, id, now)]
      ensures patients == MoreOneVisit(old(patients), patientId, now)
      ensures activePatientId == old(activePatientId)
      ensures old(Valid()) ==> Valid()
    {
      ghost var wasValid := Valid();
      ghost var before := visits;
      ghost var people := patients;
      var v := NewVisit(patientId, data, id, now);
      visits := visits + [v];
      var patient := Find(patients, HasPatientId(patientId));
      if patient.Some? {
        patients := UpdatedPatients(patients, patientId, CountPatch(patient.value.totalVisits + 1, now), now);
      }
      newId := id;
      if wasValid {
        CountsAfterAddVisit(before, v, people, now);
      }
    }

    /** `deleteVisit(visitId)`: removes a known visit and lowers its patient's
        counter when that is above zero. */
    method DeleteVisit(visitId: string, now: int)
      modifies this
      ensures match Find(old(visits), HasVisitId(visitId))
        case None => visits == old(visits) && patients == old(patients)
        case Some(v) =>
          visits == Filter(old(visits), OtherVisit(visitId))
          && patients == LessOneVisit(old(patients), v.patientId, now)
      ensures activePatientId == old(activePatientId)
      ensures old(Valid()) ==> Valid()
    {
      ghost var wasValid := Valid();
      ghost var before := visits;
      var visit := Find(visits, HasVisitId(visitId));
      if visit.Some? {
        var v := visit.value;
        visits := Filter(visits, OtherVisit(visitId));
        var patient := Find(patients, HasPatientId(v.patientId));
        if patient.Some? && patient.value.totalVisits > 0 {
          patients := UpdatedPatients(patients, v.patientId,
                                      PatientPatch(None, None, Some(patient.value.totalVisits - 1), None), now);
        }
        if wasValid {
          var k :| 0 <= k < |before| && before[k] == v;
          CountsAfterDeleteVisit(before, k, old(patients), now);
        }
      }
    }

    /** `updatePatientMeasurementCount(patientId, count)` with the time passed in. */
    method UpdatePatientMeasurementCount(id: string, count: int, now: int)
      modifies this
      ensures patients == UpdatedPatients(old(patients), id, PatientPatch(None, None, None, Some(count)), now)
      ensures visits == old(visits) && activePatientId == old(activePatientId)
      ensures old(Valid()) ==> Valid()
    {
      UpdatePatient(id, PatientPatch(None, None, None, Some(count)), now);
    }
  }
}
