/**
 * `AppointmentService`: creating an appointment checks the patient and the
 * doctor, links the pair (a refused link is ignored), adds the row with
 * status "scheduled" and, when an actor is given, an audit entry. Updates
 * change only the fields given; updates and deletes are audited the same way.
 */
module AppointmentService {
  import opened Wrappers
  import opened Database
  import DoctorPatientService
  import AuditLogService

  datatype AppointmentCreate = AppointmentCreate(
    patientId: Id, doctorId: Id, appointmentDate: int, reason: Option<string>, notes: Option<string>)

  datatype AppointmentUpdate = AppointmentUpdate(
    appointmentDate: Option<int>, reason: Option<string>, notes: Option<string>, status: Option<string>)

  const AppointmentNotFound: HttpError := HttpError(404, "Appointment not found")
  const DeletedMessage: string := "Appointment deleted successfully"
  const DefaultStatus: string := "scheduled"
  const TargetType: string := "appointment"
  const CreateAction: string := "CREATE_APPOINTMENT"
  const UpdateAction: string := "UPDATE_APPOINTMENT"
  const DeleteAction: string := "DELETE_APPOINTMENT"

  /** The link request the service makes for an appointment's pair. */
  function LinkFor(data: AppointmentCreate): DoctorPatientService.DoctorPatientCreate {
    DoctorPatientService.LinkRequest(data.doctorId, data.patientId)
  }

  /** The tables once the pair is linked; a refused link leaves them as they were. */
  ghost function LinkedTables(t: Tables, data: AppointmentCreate, now: int): Tables {
    DoctorPatientService.Create(t, LinkFor(data), now).after
  }

  function NewAppointment(t: Tables, data: AppointmentCreate, now: int): Appointment {
    Appointment(t.nextId, data.patientId, data.doctorId, data.appointmentDate, data.reason, data.notes, DefaultStatus, now)
  }

  function Inserted(t: Tables, row: Appointment): Tables {
    t.(appointments := t.appointments[row.id := row], nextId := row.id + 1)
  }

  /** `create_appointment` on `t` at time `now`, by `actor` when one is given. */
  ghost function Create(t: Tables, data: AppointmentCreate, actor: Option<Id>, now: int): Step<Appointment> {
    if data.patientId !in t.patients then Step(Err(PatientNotFound), t)
    else if data.doctorId !in t.doctors then Step(Err(DoctorNotFound), t)
    else
      var linked := LinkedTables(t, data, now);
      var row := NewAppointment(linked, data, now);
      Step(Ok(row), AuditLogService.Recorded(Inserted(linked, row), actor, CreateAction, TargetType, row.id, now))
  }

  /** The fields a `AppointmentUpdate` provides replace the row's; the others stay. */
  function Patch(row: Appointment, upd: AppointmentUpdate): (r: Appointment)
    ensures r.id == row.id && r.patientId == row.patientId && r.doctorId == row.doctorId && r.createdAt == row.createdAt
    ensures r.appointmentDate == upd.appointmentDate.GetOr(row.appointmentDate)
    ensures upd.reason.Some? ==> r.reason == upd.reason
    ensures upd.reason.None? ==> r.reason == row.reason
    ensures upd.notes.Some? ==> r.notes == upd.notes
    ensures upd.notes.None? ==> r.notes == row.notes
    ensures r.status == upd.status.GetOr(row.status)
  {
    var r := if upd.appointmentDate.Some? then row.(appointmentDate := upd.appointmentDate.value) else row;
    var r := if upd.reason.Some? then r.(reason := upd.reason) else r;
    var r := if upd.notes.Some? then r.(notes := upd.notes) else r;
    if upd.status.Some? then r.(status := upd.status.value) else r
  }

  /** `update_appointment`. */
  function Update(t: Tables, id: Id, upd: AppointmentUpdate, actor: Option<Id>, now: int): Step<Appointment> {
    if id !in t.appointments then Step(Err(AppointmentNotFound), t)
    else
      var row := Patch(t.appointments[id], upd);
      Step(Ok(row), AuditLogService.Recorded(t.(appointments := t.appointments[id := row]), actor, UpdateAction, TargetType, id, now))
  }

  /** `delete_appointment`. */
  function Delete(t: Tables, id: Id, actor: Option<Id>, now: int): Step<string> {
    if id !in t.appointments then Step(Err(AppointmentNotFound), t)
    else Step(Ok(DeletedMessage), AuditLogService.Recorded(t.(appointments := t.appointments - {id}), actor, DeleteAction, TargetType, id, now))
  }

  /** `get_appointment_by_id`. */
  method GetAppointmentById(db: Db, id: Id) returns (r: Option<Appointment>)
    requires db.Valid()
    ensures r.Some? <==> id in db.appointments
    ensures r.Some? ==> r.value == db.appointments[id]
  {
    var byId := (row: Appointment) => row.id == id;
    assert MatchingKeys(db.appointments, byId, db.appointments.Keys) == if id in db.appointments then {id} else {};
    r := ScalarOneOrNone(db.appointments, byId);
  }

  /** `get_appointments_by_patient`: the patient's appointments, each once. */
  method GetAppointmentsByPatient(db: Db, patientId: Id) returns (rows: seq<Appointment>)
    ensures forall x :: x in rows <==> x in db.appointments.Values && x.patientId == patientId
    ensures |rows| == |set k | k in db.appointments && db.appointments[k].patientId == patientId|
  {
    var ofPatient := (row: Appointment) => row.patientId == patientId;
    rows := Select(db.appointments, ofPatient);
    assert MatchingKeys(db.appointments, ofPatient, db.appointments.Keys) ==
           set k | k in db.appointments && db.appointments[k].patientId == patientId;
  }

  /** `get_appointments_by_doctor`: the doctor's appointments, each once. */
  method GetAppointmentsByDoctor(db: Db, doctorId: Id) returns (rows: seq<Appointment>)
    ensures forall x :: x in rows <==> x in db.appointments.Values && x.doctorId == doctorId
    ensures |rows| == |set k | k in db.appointments && db.appointments[k].doctorId == doctorId|
  {
    var ofDoctor := (row: Appointment) => row.doctorId == doctorId;
    rows := Select(db.appointments, ofDoctor);
    assert MatchingKeys(db.appointments, ofDoctor, db.appointments.Keys) ==
           set k | k in db.appointments && db.appointments[k].doctorId == doctorId;
  }

  /** `create_appointment`, performed on `db`. */
  method CreateAppointment(db: Db, data: AppointmentCreate, actor: Option<Id>, now: int) returns (r: Result<Appointment>)
    requires db.Valid()
    modifies db
    ensures Step(r, db.Snapshot()) == Create(old(db.Snapshot()), data, actor, now)
    ensures db.Valid()
  {
    if data.patientId !in db.patients {
      return Err(PatientNotFound);
    }
    if data.doctorId !in db.doctors {
      return Err(DoctorNotFound);
    }
    ghost var t := db.Snapshot();
    // A refused link raises inside the service; the error is dropped here.
    var _ := DoctorPatientService.CreateDoctorPatient(db, LinkFor(data), now);
    ghost var linked := db.Snapshot();
    var id := db.FreshId();
    var row := Appointment(id, data.patientId, data.doctorId, data.appointmentDate, data.reason, data.notes, DefaultStatus, now);
    db.appointments := db.appointments[id := row];
    assert db.Snapshot() == Inserted(linked, row);
    AuditLogService.Record(db, actor, CreateAction, TargetType, id, now);
    r := Ok(row);
    CreateKeepsValid(t, data, actor, now);
  }

  /** `update_appointment`, performed on `db`. */
  method UpdateAppointment(db: Db, id: Id, upd: AppointmentUpdate, actor: Option<Id>, now: int) returns (r: Result<Appointment>)
    requires db.Valid()
    modifies db
    ensures Step(r, db.Snapshot()) == Update(old(db.Snapshot()), id, upd, actor, now)
    ensures db.Valid()
  {
    var found := GetAppointmentById(db, id);
    if found.None? {
      return Err(AppointmentNotFound);
    }
    var row := found.value;
    if upd.appointmentDate.Some? {
      row := row.(appointmentDate := upd.appointmentDate.value);
    }
    if upd.reason.Some? {
      row := row.(reason := upd.reason);
    }
    if upd.notes.Some? {
      row := row.(notes := upd.notes);
    }
    if upd.status.Some? {
      row := row.(status := upd.status.value);
    }
    ghost var t := db.Snapshot();
    assert row == Patch(t.appointments[id], upd);
    db.appointments := db.appointments[id := row];
    AuditLogService.Record(db, actor, UpdateAction, TargetType, id, now);
    r := Ok(row);
    assert Step(r, db.Snapshot()) == Update(t, id, upd, actor, now);
    UpdateKeepsValid(t, id, upd, actor, now);
  }

  /** `delete_appointment`, performed on `db`. */
  method DeleteAppointment(db: Db, id: Id, actor: Option<Id>, now: int) returns (r: Result<string>)
    requires db.Valid()
    modifies db
    ensures Step(r, db.Snapshot()) == Delete(old(db.Snapshot()), id, actor, now)
    ensures db.Valid()
  {
    var found := GetAppointmentById(db, id);
    if found.None? {
      return Err(AppointmentNotFound);
    }
    ghost var t := db.Snapshot();
    db.appointments := db.appointments - {id};
    AuditLogService.Record(db, actor, DeleteAction, TargetType, id, now);
    r := Ok(DeletedMessage);
    DeleteKeepsValid(t, id, actor, now);
  }

  /** A new row under the next id, for an existing patient and doctor, keeps every invariant. */
  lemma InsertedKeepsValid(t: Tables, row: Appointment)
    requires ValidTables(t) && row.id == t.nextId
    requires row.patientId in t.patients && row.doctorId in t.doctors
    ensures ValidTables(Inserted(t, row))
  {
    InsertedKeyed(t, row);
    InsertedRefs(t, row);
  }

  lemma InsertedKeyed(t: Tables, row: Appointment)
    requires Keyed(t) && row.id == t.nextId
    ensures Keyed(Inserted(t, row))
  {
  }

  lemma InsertedRefs(t: Tables, row: Appointment)
    requires RefsExist(t) && row.patientId in t.patients && row.doctorId in t.doctors
    ensures RefsExist(Inserted(t, row))
  {
  }

  /** Replacing a row by one with the same id, patient and doctor keeps every invariant. */
  lemma ReplacedKeepsValid(t: Tables, row: Appointment)
    requires ValidTables(t) && row.id in t.appointments
    requires row.patientId == t.appointments[row.id].patientId && row.doctorId == t.appointments[row.id].doctorId
    ensures ValidTables(t.(appointments := t.appointments[row.id := row]))
  {
    ReplacedKeyed(t, row);
    ReplacedRefs(t, row);
  }

  lemma ReplacedKeyed(t: Tables, row: Appointment)
    requires Keyed(t) && row.id in t.appointments
    ensures Keyed(t.(appointments := t.appointments[row.id := row]))
  {
  }

  lemma ReplacedRefs(t: Tables, row: Appointment)
    requires RefsExist(t) && row.id in t.appointments
    requires row.patientId == t.appointments[row.id].patientId && row.doctorId == t.appointments[row.id].doctorId
    ensures RefsExist(t.(appointments := t.appointments[row.id := row]))
  {
  }

  lemma RemovedKeepsValid(t: Tables, id: Id)
    requires ValidTables(t)
    ensures ValidTables(t.(appointments := t.appointments - {id}))
  {
    RemovedKeyed(t, id);
    RemovedRefs(t, id);
  }

  lemma RemovedKeyed(t: Tables, id: Id)
    requires Keyed(t)
    ensures Keyed(t.(appointments := t.appointments - {id}))
  {
  }

  lemma RemovedRefs(t: Tables, id: Id)
    requires RefsExist(t)
    ensures RefsExist(t.(appointments := t.appointments - {id}))
  {
  }

  lemma CreateKeepsValid(t: Tables, data: AppointmentCreate, actor: Option<Id>, now: int)
    requires ValidTables(t)
    ensures ValidTables(Create(t, data, actor, now).after)
  {
    if data.patientId in t.patients && data.doctorId in t.doctors {
      var linked := LinkedTables(t, data, now);
      DoctorPatientService.CreateKeepsValid(t, LinkFor(data), now);
      DoctorPatientService.CreateTouchesOnlyLinks(t, LinkFor(data), now);
      var row := NewAppointment(linked, data, now);
      InsertedKeepsValid(linked, row);
      AuditLogService.RecordedKeepsValid(Inserted(linked, row), actor, CreateAction, TargetType, row.id, now);
    }
  }

  lemma UpdateKeepsValid(t: Tables, id: Id, upd: AppointmentUpdate, actor: Option<Id>, now: int)
    requires ValidTables(t)
    ensures ValidTables(Update(t, id, upd, actor, now).after)
  {
    if id in t.appointments {
      var row := Patch(t.appointments[id], upd);
      ReplacedKeepsValid(t, row);
      AuditLogService.RecordedKeepsValid(t.(appointments := t.appointments[id := row]), actor, UpdateAction, TargetType, id, now);
    }
  }

  lemma DeleteKeepsValid(t: Tables, id: Id, actor: Option<Id>, now: int)
    requires ValidTables(t)
    ensures ValidTables(Delete(t, id, actor, now).after)
  {
    if id in t.appointments {
      RemovedKeepsValid(t, id);
      AuditLogService.RecordedKeepsValid(t.(appointments := t.appointments - {id}), actor, DeleteAction, TargetType, id, now);
    }
  }

  /** A missing patient is reported before a missing doctor, and neither changes anything. */
  lemma CreateChecksPatientThenDoctor(t: Tables, data: AppointmentCreate, actor: Option<Id>, now: int)
    ensures Create(t, data, actor, now).result == Err(PatientNotFound) <==> data.patientId !in t.patients
    ensures Create(t, data, actor, now).result == Err(DoctorNotFound) <==>
            data.patientId in t.patients && data.doctorId !in t.doctors
    ensures Create(t, data, actor, now).result.Err? ==> Create(t, data, actor, now).after == t
  {
  }

  /**
   * After a successful create the pair has exactly one link and it is
   * active, whether it was new, reactivated or already there; the new
   * appointment is stored under a fresh id with the request's fields.
   */
  lemma CreateLinksPair(t: Tables, data: AppointmentCreate, actor: Option<Id>, now: int)
    requires DoctorPatientsKeyed(t) && PairsUnique(t) && AppointmentsKeyed(t)
    requires data.patientId in t.patients && data.doctorId in t.doctors
    ensures var s := Create(t, data, actor, now); var row := s.result.value;
      s.result.Ok? &&
      (exists k :: DoctorPatientService.PairOf(s.after, LinkFor(data)) == {k} && s.after.doctorPatients[k].isActive) &&
      row.id !in t.appointments && row.id in s.after.appointments && s.after.appointments[row.id] == row &&
      row.patientId == data.patientId && row.doctorId == data.doctorId &&
      row.appointmentDate == data.appointmentDate && row.reason == data.reason && row.notes == data.notes &&
      row.status == DefaultStatus
  {
    var link := DoctorPatientService.Create(t, LinkFor(data), now);
    var pair := DoctorPatientService.PairOf(link.after, LinkFor(data));
    if link.result.Ok? {
      DoctorPatientService.CreateLeavesOneActiveLink(t, LinkFor(data), now);
    } else {
      DoctorPatientService.CreateChecksInOrder(t, LinkFor(data), now);
      var k :| k in DoctorPatientService.PairOf(t, LinkFor(data)) && t.doctorPatients[k].isActive;
      DoctorPatientService.FoundRowIsOnly(t, LinkFor(data), k);
    }
    var k :| pair == {k} && link.after.doctorPatients[k].isActive;
    DoctorPatientService.CreateTouchesOnlyLinks(t, LinkFor(data), now);
    var s := Create(t, data, actor, now);
    assert s.after.doctorPatients == link.after.doctorPatients;
    assert DoctorPatientService.PairOf(s.after, LinkFor(data)) == pair;
  }

  /** The creation is audited, once, exactly when an actor is given. */
  lemma CreateAuditedIffActor(t: Tables, data: AppointmentCreate, actor: Option<Id>, now: int)
    requires AuditLogsKeyed(t)
    requires data.patientId in t.patients && data.doctorId in t.doctors
    ensures var s := Create(t, data, actor, now); var linked := LinkedTables(t, data, now);
      (actor.None? ==> s.after.auditLogs == t.auditLogs) &&
      (actor.Some? ==>
         s.after.auditLogs == t.auditLogs[linked.nextId + 1 :=
           AuditLog(linked.nextId + 1, actor.value, CreateAction, TargetType, Some(s.result.value.id), now, None)])
  {
    var linked := LinkedTables(t, data, now);
    assert linked.auditLogs == t.auditLogs;
  }

  /** An update with no fields leaves the row as it was. */
  lemma PatchEmptyIsIdentity(row: Appointment)
    ensures Patch(row, AppointmentUpdate(None, None, None, None)) == row
  {
  }

  /** Applying the same update twice is the same as applying it once. */
  lemma PatchIdempotent(row: Appointment, upd: AppointmentUpdate)
    ensures Patch(Patch(row, upd), upd) == Patch(row, upd)
  {
  }

  /** A missing appointment is reported and nothing, not even the audit log, changes. */
  lemma MissingAppointmentChangesNothing(t: Tables, id: Id, upd: AppointmentUpdate, actor: Option<Id>, now: int)
    requires id !in t.appointments
    ensures Update(t, id, upd, actor, now) == Step(Err(AppointmentNotFound), t)
    ensures Delete(t, id, actor, now) == Step(Err(AppointmentNotFound), t)
  {
  }

  /** A delete removes the row and audits the deleted id; a second delete reports it missing. */
  lemma DeleteRemoves(t: Tables, id: Id, actor: Option<Id>, now: int, later: int)
    requires AuditLogsKeyed(t) && id in t.appointments
    ensures var after := Delete(t, id, actor, now).after;
      after.appointments == t.appointments - {id} &&
      (actor.Some? ==> t.nextId in after.auditLogs && after.auditLogs[t.nextId].targetId == Some(id) &&
                       after.auditLogs[t.nextId].action == DeleteAction) &&
      Delete(after, id, actor, later) == Step(Err(AppointmentNotFound), after)
  {
  }
}
