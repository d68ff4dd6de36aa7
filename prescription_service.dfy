/**
 * `PrescriptionService`: creating a prescription checks the patient and the
 * doctor, links the pair (a refused link is ignored), adds the row and, when
 * an actor is given, an audit entry. Updates change only the fields given;
 * updates and deletes are audited the same way.
 */
module PrescriptionService {
  import opened Wrappers
  import opened Database
  import DoctorPatientService
  import AuditLogService

  datatype PrescriptionCreate = PrescriptionCreate(
    patientId: Id, doctorId: Id, medication: string, dosage: string, instructions: Option<string>)

  datatype PrescriptionUpdate = PrescriptionUpdate(
    medication: Option<string>, dosage: Option<string>, instructions: Option<string>)

  const PrescriptionNotFound: HttpError := HttpError(404, "Prescription not found")
  const DeletedMessage: string := "Prescription deleted successfully"
  const TargetType: string := "prescription"
  const CreateAction: string := "CREATE_PRESCRIPTION"
  const UpdateAction: string := "UPDATE_PRESCRIPTION"
  const DeleteAction: string := "DELETE_PRESCRIPTION"

  /** The link request the service makes for a prescription's pair. */
  function LinkFor(data: PrescriptionCreate): DoctorPatientService.DoctorPatientCreate {
    DoctorPatientService.LinkRequest(data.doctorId, data.patientId)
  }

  /** The tables once the pair is linked; a refused link leaves them as they were. */
  ghost function LinkedTables(t: Tables, data: PrescriptionCreate, now: int): Tables {
    DoctorPatientService.Create(t, LinkFor(data), now).after
  }

  function NewPrescription(t: Tables, data: PrescriptionCreate, now: int): Prescription {
    Prescription(t.nextId, data.patientId, data.doctorId, data.medication, data.dosage, data.instructions, now)
  }

  function Inserted(t: Tables, row: Prescription): Tables {
    t.(prescriptions := t.prescriptions[row.id := row], nextId := row.id + 1)
  }

  /** `create_prescription` on `t` at time `now`, by `actor` when one is given. */
  ghost function Create(t: Tables, data: PrescriptionCreate, actor: Option<Id>, now: int): Step<Prescription> {
    if data.patientId !in t.patients then Step(Err(PatientNotFound), t)
    else if data.doctorId !in t.doctors then Step(Err(DoctorNotFound), t)
    else
      var linked := LinkedTables(t, data, now);
      var row := NewPrescription(linked, data, now);
      Step(Ok(row), AuditLogService.Recorded(Inserted(linked, row), actor, CreateAction, TargetType, row.id, now))
  }

  /** The fields a `PrescriptionUpdate` provides replace the row's; the others stay. */
  function Patch(row: Prescription, upd: PrescriptionUpdate): (r: Prescription)
    ensures r.id == row.id && r.patientId == row.patientId && r.doctorId == row.doctorId && r.createdAt == row.createdAt
    ensures r.medication == upd.medication.GetOr(row.medication)
    ensures r.dosage == upd.dosage.GetOr(row.dosage)
    ensures upd.instructions.Some? ==> r.instructions == upd.instructions
    ensures upd.instructions.None? ==> r.instructions == row.instructions
  {
    var r := if upd.medication.Some? then row.(medication := upd.medication.value) else row;
    var r := if upd.dosage.Some? then r.(dosage := upd.dosage.value) else r;
    if upd.instructions.Some? then r.(instructions := upd.instructions) else r
  }

  /** `update_prescription`. */
  function Update(t: Tables, id: Id, upd: PrescriptionUpdate, actor: Option<Id>, now: int): Step<Prescription> {
    if id !in t.prescriptions then Step(Err(PrescriptionNotFound), t)
    else
      var row := Patch(t.prescriptions[id], upd);
      Step(Ok(row), AuditLogService.Recorded(t.(prescriptions := t.prescriptions[id := row]), actor, UpdateAction, TargetType, id, now))
  }

  /** `delete_prescription`. */
  function Delete(t: Tables, id: Id, actor: Option<Id>, now: int): Step<string> {
    if id !in t.prescriptions then Step(Err(PrescriptionNotFound), t)
    else Step(Ok(DeletedMessage), AuditLogService.Recorded(t.(prescriptions := t.prescriptions - {id}), actor, DeleteAction, TargetType, id, now))
  }

  /** `get_prescription_by_id`. */
  method GetPrescriptionById(db: Db, id: Id) returns (r: Option<Prescription>)
    requires db.Valid()
    ensures r.Some? <==> id in db.prescriptions
    ensures r.Some? ==> r.value == db.prescriptions[id]
  {
    var byId := (row: Prescription) => row.id == id;
    assert MatchingKeys(db.prescriptions, byId, db.prescriptions.Keys) == if id in db.prescriptions then {id} else {};
    r := ScalarOneOrNone(db.prescriptions, byId);
  }

  /** `get_prescriptions_by_patient`: the patient's prescriptions, each once. */
  method GetPrescriptionsByPatient(db: Db, patientId: Id) returns (rows: seq<Prescription>)
    ensures forall x :: x in rows <==> x in db.prescriptions.Values && x.patientId == patientId
    ensures |rows| == |set k | k in db.prescriptions && db.prescriptions[k].patientId == patientId|
  {
    var ofPatient := (row: Prescription) => row.patientId == patientId;
    rows := Select(db.prescriptions, ofPatient);
    assert MatchingKeys(db.prescriptions, ofPatient, db.prescriptions.Keys) ==
           set k | k in db.prescriptions && db.prescriptions[k].patientId == patientId;
  }

  /** `get_prescriptions_by_doctor`: the doctor's prescriptions, each once. */
  method GetPrescriptionsByDoctor(db: Db, doctorId: Id) returns (rows: seq<Prescription>)
    ensures forall x :: x in rows <==> x in db.prescriptions.Values && x.doctorId == doctorId
    ensures |rows| == |set k | k in db.prescriptions && db.prescriptions[k].doctorId == doctorId|
  {
    var ofDoctor := (row: Prescription) => row.doctorId == doctorId;
    rows := Select(db.prescriptions, ofDoctor);
    assert MatchingKeys(db.prescriptions, ofDoctor, db.prescriptions.Keys) ==
           set k | k in db.prescriptions && db.prescriptions[k].doctorId == doctorId;
  }

  /** `create_prescription`, performed on `db`. */
  method CreatePrescription(db: Db, data: PrescriptionCreate, actor: Option<Id>, now: int) returns (r: Result<Prescription>)
    requires db.Valid()
    modifies db
    ensures Step(r, db.Snapshot()) == Create(old(db.Snapshot()), data, actor, now)
    ensures db.Valid()
  {
    if data.patientId !in db.patients {
      return Err(PatientNotFound);
    }
    if data.doctorId !in db.doctors {
      return Err(DoctorNotFound);
    }
    ghost var t := db.Snapshot();
    // A refused link raises inside the service; the error is dropped here.
    var _ := DoctorPatientService.CreateDoctorPatient(db, LinkFor(data), now);
    ghost var linked := db.Snapshot();
    var id := db.FreshId();
    var row := Prescription(id, data.patientId, data.doctorId, data.medication, data.dosage, data.instructions, now);
    db.prescriptions := db.prescriptions[id := row];
    assert db.Snapshot() == Inserted(linked, row);
    AuditLogService.Record(db, actor, CreateAction, TargetType, id, now);
    r := Ok(row);
    CreateKeepsValid(t, data, actor, now);
  }

  /** `update_prescription`, performed on `db`. */
  method UpdatePrescription(db: Db, id: Id, upd: PrescriptionUpdate, actor: Option<Id>, now: int) returns (r: Result<Prescription>)
    requires db.Valid()
    modifies db
    ensures Step(r, db.Snapshot()) == Update(old(db.Snapshot()), id, upd, actor, now)
    ensures db.Valid()
  {
    var found := GetPrescriptionById(db, id);
    if found.None? {
      return Err(PrescriptionNotFound);
    }
    var row := found.value;
    if upd.medication.Some? {
      row := row.(medication := upd.medication.value);
    }
    if upd.dosage.Some? {
      row := row.(dosage := upd.dosage.value);
    }
    if upd.instructions.Some? {
      row := row.(instructions := upd.instructions);
    }
    ghost var t := db.Snapshot();
    db.prescriptions := db.prescriptions[id := row];
    AuditLogService.Record(db, actor, UpdateAction, TargetType, id, now);
    r := Ok(row);
    UpdateKeepsValid(t, id, upd, actor, now);
  }

  /** `delete_prescription`, performed on `db`. */
  method DeletePrescription(db: Db, id: Id, actor: Option<Id>, now: int) returns (r: Result<string>)
    requires db.Valid()
    modifies db
    ensures Step(r, db.Snapshot()) == Delete(old(db.Snapshot()), id, actor, now)
    ensures db.Valid()
  {
    var found := GetPrescriptionById(db, id);
    if found.None? {
      return Err(PrescriptionNotFound);
    }
    ghost var t := db.Snapshot();
    db.prescriptions := db.prescriptions - {id};
    AuditLogService.Record(db, actor, DeleteAction, TargetType, id, now);
    r := Ok(DeletedMessage);
    DeleteKeepsValid(t, id, actor, now);
  }

  /** A new row under the next id, for an existing patient and doctor, keeps every invariant. */
  lemma InsertedKeepsValid(t: Tables, row: Prescription)
    requires ValidTables(t) && row.id == t.nextId
    requires row.patientId in t.patients && row.doctorId in t.doctors
    ensures ValidTables(Inserted(t, row))
  {
    InsertedKeyed(t, row);
    InsertedRefs(t, row);
  }

  lemma InsertedKeyed(t: Tables, row: Prescription)
    requires Keyed(t) && row.id == t.nextId
    ensures Keyed(Inserted(t, row))
  {
  }

  lemma InsertedRefs(t: Tables, row: Prescription)
    requires RefsExist(t) && row.patientId in t.patients && row.doctorId in t.doctors
    ensures RefsExist(Inserted(t, row))
  {
  }

  /** Replacing a row by one with the same id, patient and doctor keeps every invariant. */
  lemma ReplacedKeepsValid(t: Tables, row: Prescription)
    requires ValidTables(t) && row.id in t.prescriptions
    requires row.patientId == t.prescriptions[row.id].patientId && row.doctorId == t.prescriptions[row.id].doctorId
    ensures ValidTables(t.(prescriptions := t.prescriptions[row.id := row]))
  {
    ReplacedKeyed(t, row);
    ReplacedRefs(t, row);
  }

  lemma ReplacedKeyed(t: Tables, row: Prescription)
    requires Keyed(t) && row.id in t.prescriptions
    ensures Keyed(t.(prescriptions := t.prescriptions[row.id := row]))
  {
  }

  lemma ReplacedRefs(t: Tables, row: Prescription)
    requires RefsExist(t) && row.id in t.prescriptions
    requires row.patientId == t.prescriptions[row.id].patientId && row.doctorId == t.prescriptions[row.id].doctorId
    ensures RefsExist(t.(prescriptions := t.prescriptions[row.id := row]))
  {
  }

  lemma RemovedKeepsValid(t: Tables, id: Id)
    requires ValidTables(t)
    ensures ValidTables(t.(prescriptions := t.prescriptions - {id}))
  {
    RemovedKeyed(t, id);
    RemovedRefs(t, id);
  }

  lemma RemovedKeyed(t: Tables, id: Id)
    requires Keyed(t)
    ensures Keyed(t.(prescriptions := t.prescriptions - {id}))
  {
  }

  lemma RemovedRefs(t: Tables, id: Id)
    requires RefsExist(t)
    ensures RefsExist(t.(prescriptions := t.prescriptions - {id}))
  {
  }

  lemma CreateKeepsValid(t: Tables, data: PrescriptionCreate, actor: Option<Id>, now: int)
    requires ValidTables(t)
    ensures ValidTables(Create(t, data, actor, now).after)
  {
    if data.patientId in t.patients && data.doctorId in t.doctors {
      var linked := LinkedTables(t, data, now);
      DoctorPatientService.CreateKeepsValid(t, LinkFor(data), now);
      DoctorPatientService.CreateTouchesOnlyLinks(t, LinkFor(data), now);
      var row := NewPrescription(linked, data, now);
      InsertedKeepsValid(linked, row);
      AuditLogService.RecordedKeepsValid(Inserted(linked, row), actor, CreateAction, TargetType, row.id, now);
    }
  }

  lemma UpdateKeepsValid(t: Tables, id: Id, upd: PrescriptionUpdate, actor: Option<Id>, now: int)
    requires ValidTables(t)
    ensures ValidTables(Update(t, id, upd, actor, now).after)
  {
    if id in t.prescriptions {
      var row := Patch(t.prescriptions[id], upd);
      ReplacedKeepsValid(t, row);
      AuditLogService.RecordedKeepsValid(t.(prescriptions := t.prescriptions[id := row]), actor, UpdateAction, TargetType, id, now);
    }
  }

  lemma DeleteKeepsValid(t: Tables, id: Id, actor: Option<Id>, now: int)
    requires ValidTables(t)
    ensures ValidTables(Delete(t, id, actor, now).after)
  {
    if id in t.prescriptions {
      RemovedKeepsValid(t, id);
      AuditLogService.RecordedKeepsValid(t.(prescriptions := t.prescriptions - {id}), actor, DeleteAction, TargetType, id, now);
    }
  }

  /** A missing patient is reported before a missing doctor, and neither changes anything. */
  lemma CreateChecksPatientThenDoctor(t: Tables, data: PrescriptionCreate, actor: Option<Id>, now: int)
    ensures Create(t, data, actor, now).result == Err(PatientNotFound) <==> data.patientId !in t.patients
    ensures Create(t, data, actor, now).result == Err(DoctorNotFound) <==>
            data.patientId in t.patients && data.doctorId !in t.doctors
    ensures Create(t, data, actor, now).result.Err? ==> Create(t, data, actor, now).after == t
  {
  }

  /**
   * After a successful create the pair has exactly one link and it is
   * active, whether it was new, reactivated or already there; the new
   * prescription is stored under a fresh id with the request's fields.
   */
  lemma CreateLinksPair(t: Tables, data: PrescriptionCreate, actor: Option<Id>, now: int)
    requires DoctorPatientsKeyed(t) && PairsUnique(t) && PrescriptionsKeyed(t)
    requires data.patientId in t.patients && data.doctorId in t.doctors
    ensures var s := Create(t, data, actor, now); var row := s.result.value;
      s.result.Ok? &&
      (exists k :: DoctorPatientService.PairOf(s.after, LinkFor(data)) == {k} && s.after.doctorPatients[k].isActive) &&
      row.id !in t.prescriptions && row.id in s.after.prescriptions && s.after.prescriptions[row.id] == row &&
      row.patientId == data.patientId && row.doctorId == data.doctorId &&
      row.medication == data.medication && row.dosage == data.dosage && row.instructions == data.instructions
  {
    var link := DoctorPatientService.Create(t, LinkFor(data), now);
    var pair := DoctorPatientService.PairOf(link.after, LinkFor(data));
    if link.result.Ok? {
      DoctorPatientService.CreateLeavesOneActiveLink(t, LinkFor(data), now);
    } else {
      DoctorPatientService.CreateChecksInOrder(t, LinkFor(data), now);
      var k :| k in DoctorPatientService.PairOf(t, LinkFor(data)) && t.doctorPatients[k].isActive;
      DoctorPatientService.FoundRowIsOnly(t, LinkFor(data), k);
    }
    var k :| pair == {k} && link.after.doctorPatients[k].isActive;
    DoctorPatientService.CreateTouchesOnlyLinks(t, LinkFor(data), now);
    var s := Create(t, data, actor, now);
    assert s.after.doctorPatients == link.after.doctorPatients;
    assert DoctorPatientService.PairOf(s.after, LinkFor(data)) == pair;
  }

  /** The creation is audited, once, exactly when an actor is given. */
  lemma CreateAuditedIffActor(t: Tables, data: PrescriptionCreate, actor: Option<Id>, now: int)
    requires AuditLogsKeyed(t)
    requires data.patientId in t.patients && data.doctorId in t.doctors
    ensures var s := Create(t, data, actor, now); var linked := LinkedTables(t, data, now);
      (actor.None? ==> s.after.auditLogs == t.auditLogs) &&
      (actor.Some? ==>
         s.after.auditLogs == t.auditLogs[linked.nextId + 1 :=
           AuditLog(linked.nextId + 1, actor.value, CreateAction, TargetType, Some(s.result.value.id), now, None)])
  {
    var linked := LinkedTables(t, data, now);
    assert linked.auditLogs == t.auditLogs;
  }

  /** An update with no fields leaves the row as it was. */
  lemma PatchEmptyIsIdentity(row: Prescription)
    ensures Patch(row, PrescriptionUpdate(None, None, None)) == row
  {
  }

  /** Applying the same update twice is the same as applying it once. */
  lemma PatchIdempotent(row: Prescription, upd: PrescriptionUpdate)
    ensures Patch(Patch(row, upd), upd) == Patch(row, upd)
  {
  }

  /** A missing prescription is reported and nothing, not even the audit log, changes. */
  lemma MissingPrescriptionChangesNothing(t: Tables, id: Id, upd: PrescriptionUpdate, actor: Option<Id>, now: int)
    requires id !in t.prescriptions
    ensures Update(t, id, upd, actor, now) == Step(Err(PrescriptionNotFound), t)
    ensures Delete(t, id, actor, now) == Step(Err(PrescriptionNotFound), t)
  {
  }

  /** A delete removes the row and audits the deleted id; a second delete reports it missing. */
  lemma DeleteRemoves(t: Tables, id: Id, actor: Option<Id>, now: int, later: int)
    requires AuditLogsKeyed(t) && id in t.prescriptions
    ensures var after := Delete(t, id, actor, now).after;
      after.prescriptions == t.prescriptions - {id} &&
      (actor.Some? ==> t.nextId in after.auditLogs && after.auditLogs[t.nextId].targetId == Some(id) &&
                       after.auditLogs[t.nextId].action == DeleteAction) &&
      Delete(after, id, actor, later) == Step(Err(PrescriptionNotFound), after)
  {
  }
}
