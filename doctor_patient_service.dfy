/**
 * `DoctorPatientService`: the links between doctors and patients. Creating
 * a link checks the patient, then the doctor, then looks for a row for the
 * pair: an inactive one is reactivated, an active one is an error, and
 * otherwise a new active row is added. Updates change only the fields
 * given. Each operation is a function on the tables, and a method on `Db`
 * performs it in place.
 */
module DoctorPatientService {
  import opened Wrappers
  import opened Database

  datatype DoctorPatientCreate = DoctorPatientCreate(doctorId: Id, patientId: Id, relationshipType: Option<string>)

  datatype DoctorPatientUpdate = DoctorPatientUpdate(relationshipType: Option<string>, isActive: Option<bool>)

  const DefaultRelationship: string := "primary_care"
  const RelationshipExists: HttpError := HttpError(400, "Doctor-patient relationship already exists")
  const RelationshipNotFound: HttpError := HttpError(404, "Doctor-patient relationship not found")
  const DeletedMessage: string := "Doctor-patient relationship deleted successfully"

  /** `DoctorPatientCreate(doctor_id=..., patient_id=...)`: the schema's default relationship type. */
  function LinkRequest(doctorId: Id, patientId: Id): DoctorPatientCreate {
    DoctorPatientCreate(doctorId, patientId, Some(DefaultRelationship))
  }

  /** The rows for the pair a request names. */
  function PairOf(t: Tables, data: DoctorPatientCreate): set<Id> {
    PairRows(t.doctorPatients, data.doctorId, data.patientId)
  }

  /** The tables with row `k` of `doctor_patient` active again. */
  function Reactivated(t: Tables, k: Id): Tables
    requires k in t.doctorPatients
  {
    t.(doctorPatients := t.doctorPatients[k := t.doctorPatients[k].(isActive := true)])
  }

  /** The new active row a request adds, under the next id. */
  function NewLink(t: Tables, data: DoctorPatientCreate, now: int): DoctorPatient {
    DoctorPatient(t.nextId, data.doctorId, data.patientId, now, data.relationshipType, true)
  }

  /** The tables with the new row added. */
  function Linked(t: Tables, data: DoctorPatientCreate, now: int): Tables {
    t.(doctorPatients := t.doctorPatients[t.nextId := NewLink(t, data, now)], nextId := t.nextId + 1)
  }

  /** `create_doctor_patient` on the tables `t` at time `now`. */
  ghost function Create(t: Tables, data: DoctorPatientCreate, now: int): Step<DoctorPatient> {
    if data.patientId !in t.patients then Step(Err(PatientNotFound), t)
    else if data.doctorId !in t.doctors then Step(Err(DoctorNotFound), t)
    else if PairOf(t, data) != {} then
      var k :| k in PairOf(t, data);
      if t.doctorPatients[k].isActive then Step(Err(RelationshipExists), t)
      else Step(Ok(t.doctorPatients[k].(isActive := true)), Reactivated(t, k))
    else Step(Ok(NewLink(t, data, now)), Linked(t, data, now))
  }

  /** The fields a `DoctorPatientUpdate` provides replace the row's; the others stay. */
  function Patch(row: DoctorPatient, upd: DoctorPatientUpdate): (r: DoctorPatient)
    ensures r.id == row.id && r.doctorId == row.doctorId && r.patientId == row.patientId && r.assignedAt == row.assignedAt
    ensures upd.relationshipType.Some? ==> r.relationshipType == upd.relationshipType
    ensures upd.relationshipType.None? ==> r.relationshipType == row.relationshipType
    ensures upd.isActive.Some? ==> r.isActive == upd.isActive.value
    ensures upd.isActive.None? ==> r.isActive == row.isActive
  {
    var r := if upd.relationshipType.Some? then row.(relationshipType := upd.relationshipType) else row;
    if upd.isActive.Some? then r.(isActive := upd.isActive.value) else r
  }

  /** `update_doctor_patient`. */
  function Update(t: Tables, id: Id, upd: DoctorPatientUpdate): Step<DoctorPatient> {
    if id !in t.doctorPatients then Step(Err(RelationshipNotFound), t)
    else
      var row := Patch(t.doctorPatients[id], upd);
      Step(Ok(row), t.(doctorPatients := t.doctorPatients[id := row]))
  }

  /** `delete_doctor_patient`. */
  function Delete(t: Tables, id: Id): Step<string> {
    if id !in t.doctorPatients then Step(Err(RelationshipNotFound), t)
    else Step(Ok(DeletedMessage), t.(doctorPatients := t.doctorPatients - {id}))
  }

  /** `get_doctor_patient_by_id`. */
  method GetDoctorPatientById(db: Db, id: Id) returns (r: Option<DoctorPatient>)
    requires db.Valid()
    ensures r.Some? <==> id in db.doctorPatients
    ensures r.Some? ==> r.value == db.doctorPatients[id]
  {
    var byId := (row: DoctorPatient) => row.id == id;
    assert MatchingKeys(db.doctorPatients, byId, db.doctorPatients.Keys) == if id in db.doctorPatients then {id} else {};
    r := ScalarOneOrNone(db.doctorPatients, byId);
  }

  /** `get_doctors_by_patient`: the patient's links, each once. */
  method GetDoctorsByPatient(db: Db, patientId: Id) returns (rows: seq<DoctorPatient>)
    ensures forall x :: x in rows <==> x in db.doctorPatients.Values && x.patientId == patientId
    ensures |rows| == |set k | k in db.doctorPatients && db.doctorPatients[k].patientId == patientId|
  {
    var ofPatient := (row: DoctorPatient) => row.patientId == patientId;
    rows := Select(db.doctorPatients, ofPatient);
    assert MatchingKeys(db.doctorPatients, ofPatient, db.doctorPatients.Keys) ==
           set k | k in db.doctorPatients && db.doctorPatients[k].patientId == patientId;
  }

  /** `get_patients_by_doctor`: the doctor's links, each once. */
  method GetPatientsByDoctor(db: Db, doctorId: Id) returns (rows: seq<DoctorPatient>)
    ensures forall x :: x in rows <==> x in db.doctorPatients.Values && x.doctorId == doctorId
    ensures |rows| == |set k | k in db.doctorPatients && db.doctorPatients[k].doctorId == doctorId|
  {
    var ofDoctor := (row: DoctorPatient) => row.doctorId == doctorId;
    rows := Select(db.doctorPatients, ofDoctor);
    assert MatchingKeys(db.doctorPatients, ofDoctor, db.doctorPatients.Keys) ==
           set k | k in db.doctorPatients && db.doctorPatients[k].doctorId == doctorId;
  }

  /** `create_doctor_patient`, performed on `db`. */
  method CreateDoctorPatient(db: Db, data: DoctorPatientCreate, now: int) returns (r: Result<DoctorPatient>)
    requires db.Valid()
    modifies db
    ensures Step(r, db.Snapshot()) == Create(old(db.Snapshot()), data, now)
    ensures db.Valid()
  {
    ghost var t := db.Snapshot();
    CreateKeepsValid(t, data, now);
    if data.patientId !in db.patients {
      return Err(PatientNotFound);
    }
    if data.doctorId !in db.doctors {
      return Err(DoctorNotFound);
    }
    var samePair := (row: DoctorPatient) => row.doctorId == data.doctorId && row.patientId == data.patientId;
    assert MatchingKeys(db.doctorPatients, samePair, db.doctorPatients.Keys) == PairOf(t, data);
    PairHasAtMostOneRow(t, data.doctorId, data.patientId);
    var existing := ScalarOneOrNone(db.doctorPatients, samePair);
    if existing.Some? {
      var row := existing.value;
      ghost var k :| k in PairOf(t, data) && db.doctorPatients[k] == row;
      assert PairOf(t, data) == {k};
      if !row.isActive {
        row := row.(isActive := true);
        db.doctorPatients := db.doctorPatients[row.id := row];
        return Ok(row);
      } else {
        return Err(RelationshipExists);
      }
    }
    var id := db.FreshId();
    var row := DoctorPatient(id, data.doctorId, data.patientId, now, data.relationshipType, true);
    db.doctorPatients := db.doctorPatients[id := row];
    r := Ok(row);
  }

  /** `update_doctor_patient`, performed on `db`. */
  method UpdateDoctorPatient(db: Db, id: Id, upd: DoctorPatientUpdate) returns (r: Result<DoctorPatient>)
    requires db.Valid()
    modifies db
    ensures Step(r, db.Snapshot()) == Update(old(db.Snapshot()), id, upd)
    ensures db.Valid()
  {
    UpdateKeepsValid(db.Snapshot(), id, upd);
    var found := GetDoctorPatientById(db, id);
    if found.None? {
      return Err(RelationshipNotFound);
    }
    var row := found.value;
    if upd.relationshipType.Some? {
      row := row.(relationshipType := upd.relationshipType);
    }
    if upd.isActive.Some? {
      row := row.(isActive := upd.isActive.value);
    }
    db.doctorPatients := db.doctorPatients[id := row];
    r := Ok(row);
  }

  /** `delete_doctor_patient`, performed on `db`. */
  method DeleteDoctorPatient(db: Db, id: Id) returns (r: Result<string>)
    requires db.Valid()
    modifies db
    ensures Step(r, db.Snapshot()) == Delete(old(db.Snapshot()), id)
    ensures db.Valid()
  {
    DeleteKeepsValid(db.Snapshot(), id);
    var found := GetDoctorPatientById(db, id);
    if found.None? {
      return Err(RelationshipNotFound);
    }
    db.doctorPatients := db.doctorPatients - {id};
    r := Ok(DeletedMessage);
  }

  /** The row `Create` finds for an existing pair is the only one. */
  lemma FoundRowIsOnly(t: Tables, data: DoctorPatientCreate, k: Id)
    requires PairsUnique(t) && k in PairOf(t, data)
    ensures PairOf(t, data) == {k}
  {
  }

  /** The checks run in order: patient, doctor, then an active link for the pair. */
  lemma CreateChecksInOrder(t: Tables, data: DoctorPatientCreate, now: int)
    requires PairsUnique(t)
    ensures Create(t, data, now).result == Err(PatientNotFound) <==> data.patientId !in t.patients
    ensures Create(t, data, now).result == Err(DoctorNotFound) <==>
            data.patientId in t.patients && data.doctorId !in t.doctors
    ensures Create(t, data, now).result == Err(RelationshipExists) <==>
            data.patientId in t.patients && data.doctorId in t.doctors &&
            exists k :: k in PairOf(t, data) && t.doctorPatients[k].isActive
    ensures Create(t, data, now).result.Err? ==> Create(t, data, now).after == t
  {
    if data.patientId in t.patients && data.doctorId in t.doctors && PairOf(t, data) != {} {
      var k :| k in PairOf(t, data);
      FoundRowIsOnly(t, data, k);
    }
  }

  /** A successful create leaves exactly one row for the pair, and it is active. */
  lemma CreateLeavesOneActiveLink(t: Tables, data: DoctorPatientCreate, now: int)
    requires DoctorPatientsKeyed(t) && PairsUnique(t)
    requires Create(t, data, now).result.Ok?
    ensures var s := Create(t, data, now); var row := s.result.value;
      PairOf(s.after, data) == {row.id} && row.id in s.after.doctorPatients && s.after.doctorPatients[row.id] == row &&
      row.isActive && row.doctorId == data.doctorId && row.patientId == data.patientId
  {
    if PairOf(t, data) != {} {
      var k :| k in PairOf(t, data) && Create(t, data, now).after == Reactivated(t, k);
      FoundRowIsOnly(t, data, k);
      assert PairOf(Reactivated(t, k), data) == {k};
    } else {
      assert PairOf(Linked(t, data, now), data) == {t.nextId};
    }
  }

  /** A create changes no table but `doctor_patient`, and takes at most one id. */
  lemma CreateTouchesOnlyLinks(t: Tables, data: DoctorPatientCreate, now: int)
    ensures var after := Create(t, data, now).after;
      after == t.(doctorPatients := after.doctorPatients, nextId := after.nextId) &&
      t.nextId <= after.nextId <= t.nextId + 1
  {
  }

  /** A create leaves every row of another pair as it was. */
  lemma CreateKeepsOtherPairs(t: Tables, data: DoctorPatientCreate, now: int, k: Id)
    requires DoctorPatientsKeyed(t)
    requires k in t.doctorPatients && k !in PairOf(t, data)
    ensures var after := Create(t, data, now).after;
      k in after.doctorPatients && after.doctorPatients[k] == t.doctorPatients[k]
  {
  }

  /** A second create for a pair just linked is refused and changes nothing. */
  lemma CreateTwiceRefused(t: Tables, data: DoctorPatientCreate, again: DoctorPatientCreate, now: int, later: int)
    requires DoctorPatientsKeyed(t) && PairsUnique(t)
    requires Create(t, data, now).result.Ok?
    requires again.doctorId == data.doctorId && again.patientId == data.patientId
    ensures var after := Create(t, data, now).after;
      Create(after, again, later) == Step(Err(RelationshipExists), after)
  {
    var s := Create(t, data, now);
    CreateLeavesOneActiveLink(t, data, now);
    CreateChecksInOrder(t, data, now);
    CreateTouchesOnlyLinks(t, data, now);
    assert PairOf(s.after, again) == {s.result.value.id};
  }

  /** Deactivating a link and creating it again reactivates the same row, with its type and date. */
  lemma DeactivateThenCreateReactivates(t: Tables, id: Id, data: DoctorPatientCreate, now: int)
    requires PairsUnique(t) && RefsExist(t) && id in t.doctorPatients
    requires data.doctorId == t.doctorPatients[id].doctorId && data.patientId == t.doctorPatients[id].patientId
    ensures var off := Update(t, id, DoctorPatientUpdate(None, Some(false))).after;
      Create(off, data, now) == Step(Ok(t.doctorPatients[id].(isActive := true)), Reactivated(off, id))
  {
    var off := Update(t, id, DoctorPatientUpdate(None, Some(false))).after;
    UpdateKeepsPairsUnique(t, id, DoctorPatientUpdate(None, Some(false)));
    assert id in PairOf(off, data);
    FoundRowIsOnly(off, data, id);
    assert t.doctorPatients[id].patientId in t.patients && t.doctorPatients[id].doctorId in t.doctors;
  }

  /** Reactivating a row keeps every invariant: the pair, the id and the references are those of the old row. */
  lemma ReactivatedKeepsValid(t: Tables, k: Id)
    requires ValidTables(t) && k in t.doctorPatients
    ensures ValidTables(Reactivated(t, k))
  {
    ReactivatedKeyed(t, k);
    ReactivatedPairsUnique(t, k);
    ReactivatedRefs(t, k);
  }

  lemma ReactivatedKeyed(t: Tables, k: Id)
    requires Keyed(t) && k in t.doctorPatients
    ensures Keyed(Reactivated(t, k))
  {
  }

  lemma ReactivatedPairsUnique(t: Tables, k: Id)
    requires PairsUnique(t) && k in t.doctorPatients
    ensures PairsUnique(Reactivated(t, k))
  {
  }

  lemma ReactivatedRefs(t: Tables, k: Id)
    requires RefsExist(t) && k in t.doctorPatients
    ensures RefsExist(Reactivated(t, k))
  {
  }

  /** Adding a fresh row for a pair with no row, between existing patient and doctor, keeps every invariant. */
  lemma LinkedKeepsValid(t: Tables, data: DoctorPatientCreate, now: int)
    requires ValidTables(t) && PairOf(t, data) == {}
    requires data.patientId in t.patients && data.doctorId in t.doctors
    ensures ValidTables(Linked(t, data, now))
  {
    LinkedKeyed(t, data, now);
    LinkedPairsUnique(t, data, now);
    LinkedRefs(t, data, now);
  }

  lemma LinkedKeyed(t: Tables, data: DoctorPatientCreate, now: int)
    requires Keyed(t)
    ensures Keyed(Linked(t, data, now))
  {
  }

  lemma LinkedPairsUnique(t: Tables, data: DoctorPatientCreate, now: int)
    requires PairsUnique(t) && DoctorPatientsKeyed(t) && PairOf(t, data) == {}
    ensures PairsUnique(Linked(t, data, now))
  {
    assert forall k :: k in t.doctorPatients ==> k !in PairOf(t, data);
  }

  lemma LinkedRefs(t: Tables, data: DoctorPatientCreate, now: int)
    requires RefsExist(t) && data.patientId in t.patients && data.doctorId in t.doctors
    ensures RefsExist(Linked(t, data, now))
  {
  }

  lemma CreateKeepsValid(t: Tables, data: DoctorPatientCreate, now: int)
    requires ValidTables(t)
    ensures ValidTables(Create(t, data, now).after)
  {
    if data.patientId in t.patients && data.doctorId in t.doctors {
      if PairOf(t, data) != {} {
        var k :| k in PairOf(t, data) && Create(t, data, now).after in {t, Reactivated(t, k)};
        ReactivatedKeepsValid(t, k);
      } else {
        LinkedKeepsValid(t, data, now);
      }
    }
  }

  /** An update with no fields leaves the row as it was. */
  lemma PatchEmptyIsIdentity(row: DoctorPatient)
    ensures Patch(row, DoctorPatientUpdate(None, None)) == row
  {
  }

  /** Applying the same update twice is the same as applying it once. */
  lemma PatchIdempotent(row: DoctorPatient, upd: DoctorPatientUpdate)
    ensures Patch(Patch(row, upd), upd) == Patch(row, upd)
  {
  }

  lemma UpdateKeepsPairsUnique(t: Tables, id: Id, upd: DoctorPatientUpdate)
    requires PairsUnique(t)
    ensures PairsUnique(Update(t, id, upd).after)
  {
  }

  lemma UpdateKeepsValid(t: Tables, id: Id, upd: DoctorPatientUpdate)
    requires ValidTables(t)
    ensures ValidTables(Update(t, id, upd).after)
  {
    UpdateKeyed(t, id, upd);
    UpdateKeepsPairsUnique(t, id, upd);
    UpdateRefs(t, id, upd);
  }

  lemma UpdateKeyed(t: Tables, id: Id, upd: DoctorPatientUpdate)
    requires Keyed(t)
    ensures Keyed(Update(t, id, upd).after)
  {
  }

  lemma UpdateRefs(t: Tables, id: Id, upd: DoctorPatientUpdate)
    requires RefsExist(t)
    ensures RefsExist(Update(t, id, upd).after)
  {
  }

  lemma DeleteKeepsValid(t: Tables, id: Id)
    requires ValidTables(t)
    ensures ValidTables(Delete(t, id).after)
  {
    DeleteKeyed(t, id);
    DeletePairsUnique(t, id);
    DeleteRefs(t, id);
  }

  lemma DeleteKeyed(t: Tables, id: Id)
    requires Keyed(t)
    ensures Keyed(Delete(t, id).after)
  {
  }

  lemma DeletePairsUnique(t: Tables, id: Id)
    requires PairsUnique(t)
    ensures PairsUnique(Delete(t, id).after)
  {
  }

  lemma DeleteRefs(t: Tables, id: Id)
    requires RefsExist(t)
    ensures RefsExist(Delete(t, id).after)
  {
  }

  /** After a delete, the link is gone: update and delete both report it missing, and a create starts a new row. */
  lemma DeleteThenMissing(t: Tables, id: Id, upd: DoctorPatientUpdate, now: int)
    requires PairsUnique(t) && RefsExist(t) && id in t.doctorPatients
    ensures var after := Delete(t, id).after;
      var row := t.doctorPatients[id];
      Update(after, id, upd) == Step(Err(RelationshipNotFound), after) &&
      Delete(after, id) == Step(Err(RelationshipNotFound), after) &&
      Create(after, LinkRequest(row.doctorId, row.patientId), now).result ==
        Ok(DoctorPatient(t.nextId, row.doctorId, row.patientId, now, Some(DefaultRelationship), true))
  {
    var after := Delete(t, id).after;
    var data := LinkRequest(t.doctorPatients[id].doctorId, t.doctorPatients[id].patientId);
    assert id in PairOf(t, data);
    FoundRowIsOnly(t, data, id);
    assert PairOf(after, data) == {};
  }
}
