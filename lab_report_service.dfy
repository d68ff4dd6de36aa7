/**
 * `LabReportService`: a lab report belongs to a patient and, optionally, to a
 * doctor; a doctor is checked only when one is named. Updates change only
 * the fields given.
 */
module LabReportService {
  import opened Wrappers
  import opened Database

  datatype LabReportCreate = LabReportCreate(patientId: Id, doctorId: Option<Id>, fileUrl: string, reportType: string)

  datatype LabReportUpdate = LabReportUpdate(fileUrl: Option<string>, reportType: Option<string>)

  const LabReportNotFound: HttpError := HttpError(404, "Lab report not found")
  const DeletedMessage: string := "Lab report deleted successfully"

  function NewLabReport(t: Tables, data: LabReportCreate, now: int): LabReport {
    LabReport(t.nextId, data.patientId, data.doctorId, data.fileUrl, data.reportType, now)
  }

  function Added(t: Tables, data: LabReportCreate, now: int): Tables {
    t.(labReports := t.labReports[t.nextId := NewLabReport(t, data, now)], nextId := t.nextId + 1)
  }

  /** `create_lab_report`: `if lab_report_data.doctor_id:` holds exactly when a doctor is named (a UUID is truthy). */
  function Create(t: Tables, data: LabReportCreate, now: int): Step<LabReport> {
    if data.patientId !in t.patients then Step(Err(PatientNotFound), t)
    else if data.doctorId.Some? && data.doctorId.value !in t.doctors then Step(Err(DoctorNotFound), t)
    else Step(Ok(NewLabReport(t, data, now)), Added(t, data, now))
  }

  /** The fields a `LabReportUpdate` provides replace the report's; the others stay. */
  function Patch(row: LabReport, upd: LabReportUpdate): (r: LabReport)
    ensures r.id == row.id && r.patientId == row.patientId && r.doctorId == row.doctorId && r.uploadedAt == row.uploadedAt
    ensures r.fileUrl == upd.fileUrl.GetOr(row.fileUrl)
    ensures r.reportType == upd.reportType.GetOr(row.reportType)
  {
    var r := if upd.fileUrl.Some? then row.(fileUrl := upd.fileUrl.value) else row;
    if upd.reportType.Some? then r.(reportType := upd.reportType.value) else r
  }

  /** `update_lab_report`. */
  function Update(t: Tables, id: Id, upd: LabReportUpdate): Step<LabReport> {
    if id !in t.labReports then Step(Err(LabReportNotFound), t)
    else
      var row := Patch(t.labReports[id], upd);
      Step(Ok(row), t.(labReports := t.labReports[id := row]))
  }

  /** `delete_lab_report`. */
  function Delete(t: Tables, id: Id): Step<string> {
    if id !in t.labReports then Step(Err(LabReportNotFound), t)
    else Step(Ok(DeletedMessage), t.(labReports := t.labReports - {id}))
  }

  /** `get_lab_report_by_id`. */
  method GetLabReportById(db: Db, id: Id) returns (r: Option<LabReport>)
    requires db.Valid()
    ensures r.Some? <==> id in db.labReports
    ensures r.Some? ==> r.value == db.labReports[id]
  {
    var byId := (row: LabReport) => row.id == id;
    assert MatchingKeys(db.labReports, byId, db.labReports.Keys) == if id in db.labReports then {id} else {};
    r := ScalarOneOrNone(db.labReports, byId);
  }

  /** `get_lab_reports_by_patient`: the patient's reports, each once. */
  method GetLabReportsByPatient(db: Db, patientId: Id) returns (rows: seq<LabReport>)
    ensures forall x :: x in rows <==> x in db.labReports.Values && x.patientId == patientId
    ensures |rows| == |set k | k in db.labReports && db.labReports[k].patientId == patientId|
  {
    var ofPatient := (row: LabReport) => row.patientId == patientId;
    rows := Select(db.labReports, ofPatient);
    assert MatchingKeys(db.labReports, ofPatient, db.labReports.Keys) ==
           set k | k in db.labReports && db.labReports[k].patientId == patientId;
  }

  /** `get_lab_reports_by_doctor`: the reports naming the doctor, each once; reports without a doctor never match. */
  method GetLabReportsByDoctor(db: Db, doctorId: Id) returns (rows: seq<LabReport>)
    ensures forall x :: x in rows <==> x in db.labReports.Values && x.doctorId == Some(doctorId)
    ensures |rows| == |set k | k in db.labReports && db.labReports[k].doctorId == Some(doctorId)|
  {
    var ofDoctor := (row: LabReport) => row.doctorId == Some(doctorId);
    rows := Select(db.labReports, ofDoctor);
    assert MatchingKeys(db.labReports, ofDoctor, db.labReports.Keys) ==
           set k | k in db.labReports && db.labReports[k].doctorId == Some(doctorId);
  }

  /** `create_lab_report`, performed on `db` at time `now`. */
  method CreateLabReport(db: Db, data: LabReportCreate, now: int) returns (r: Result<LabReport>)
    requires db.Valid()
    modifies db
    ensures Step(r, db.Snapshot()) == Create(old(db.Snapshot()), data, now)
    ensures db.Valid()
  {
    CreateKeepsValid(db.Snapshot(), data, now);
    if data.patientId !in db.patients {
      return Err(PatientNotFound);
    }
    if data.doctorId.Some? {
      if data.doctorId.value !in db.doctors {
        return Err(DoctorNotFound);
      }
    }
    var id := db.FreshId();
    var row := LabReport(id, data.patientId, data.doctorId, data.fileUrl, data.reportType, now);
    db.labReports := db.labReports[id := row];
    r := Ok(row);
  }

  /** `update_lab_report`, performed on `db`. */
  method UpdateLabReport(db: Db, id: Id, upd: LabReportUpdate) returns (r: Result<LabReport>)
    requires db.Valid()
    modifies db
    ensures Step(r, db.Snapshot()) == Update(old(db.Snapshot()), id, upd)
    ensures db.Valid()
  {
    UpdateKeepsValid(db.Snapshot(), id, upd);
    var found := GetLabReportById(db, id);
    if found.None? {
      return Err(LabReportNotFound);
    }
    var row := found.value;
    if upd.fileUrl.Some? {
      row := row.(fileUrl := upd.fileUrl.value);
    }
    if upd.reportType.Some? {
      row := row.(reportType := upd.reportType.value);
    }
    db.labReports := db.labReports[id := row];
    r := Ok(row);
  }

  /** `delete_lab_report`, performed on `db`. */
  method DeleteLabReport(db: Db, id: Id) returns (r: Result<string>)
    requires db.Valid()
    modifies db
    ensures Step(r, db.Snapshot()) == Delete(old(db.Snapshot()), id)
    ensures db.Valid()
  {
    DeleteKeepsValid(db.Snapshot(), id);
    var found := GetLabReportById(db, id);
    if found.None? {
      return Err(LabReportNotFound);
    }
    db.labReports := db.labReports - {id};
    r := Ok(DeletedMessage);
  }

  /**
   * The patient is checked first; the doctor only when one is named. A
   * report without a doctor is refused only for a missing patient. An error
   * changes nothing.
   */
  lemma CreateChecks(t: Tables, data: LabReportCreate, now: int)
    ensures Create(t, data, now).result == Err(PatientNotFound) <==> data.patientId !in t.patients
    ensures Create(t, data, now).result == Err(DoctorNotFound) <==>
            data.patientId in t.patients && data.doctorId.Some? && data.doctorId.value !in t.doctors
    ensures data.doctorId.None? ==> (Create(t, data, now).result.Ok? <==> data.patientId in t.patients)
    ensures Create(t, data, now).result.Err? ==> Create(t, data, now).after == t
  {
  }

  /**
   * A created report is stored under a fresh id with the request's fields;
   * no other table changes, so no link and no audit entry is written.
   */
  lemma CreateStoresReport(t: Tables, data: LabReportCreate, now: int)
    requires LabReportsKeyed(t)
    requires Create(t, data, now).result.Ok?
    ensures var s := Create(t, data, now); var row := s.result.value;
      row.id !in t.labReports && s.after.labReports == t.labReports[row.id := row] &&
      row.patientId == data.patientId && row.doctorId == data.doctorId &&
      row.fileUrl == data.fileUrl && row.reportType == data.reportType && row.uploadedAt == now &&
      s.after == t.(labReports := s.after.labReports, nextId := t.nextId + 1)
  {
  }

  /** An update with no fields leaves the report as it was. */
  lemma PatchEmptyIsIdentity(row: LabReport)
    ensures Patch(row, LabReportUpdate(None, None)) == row
  {
  }

  /** Applying the same update twice is the same as applying it once. */
  lemma PatchIdempotent(row: LabReport, upd: LabReportUpdate)
    ensures Patch(Patch(row, upd), upd) == Patch(row, upd)
  {
  }

  lemma CreateKeepsValid(t: Tables, data: LabReportCreate, now: int)
    requires ValidTables(t)
    ensures ValidTables(Create(t, data, now).after)
  {
    if Create(t, data, now).result.Ok? {
      AddedKeyed(t, data, now);
      AddedRefs(t, data, now);
    }
  }

  lemma AddedKeyed(t: Tables, data: LabReportCreate, now: int)
    requires Keyed(t)
    ensures Keyed(Added(t, data, now))
  {
  }

  lemma AddedRefs(t: Tables, data: LabReportCreate, now: int)
    requires RefsExist(t) && data.patientId in t.patients
    requires data.doctorId.Some? ==> data.doctorId.value in t.doctors
    ensures RefsExist(Added(t, data, now))
  {
  }

  lemma UpdateKeepsValid(t: Tables, id: Id, upd: LabReportUpdate)
    requires ValidTables(t)
    ensures ValidTables(Update(t, id, upd).after)
  {
    UpdateKeyed(t, id, upd);
    UpdateRefs(t, id, upd);
  }

  lemma UpdateKeyed(t: Tables, id: Id, upd: LabReportUpdate)
    requires Keyed(t)
    ensures Keyed(Update(t, id, upd).after)
  {
  }

  lemma UpdateRefs(t: Tables, id: Id, upd: LabReportUpdate)
    requires RefsExist(t)
    ensures RefsExist(Update(t, id, upd).after)
  {
  }

  lemma DeleteKeepsValid(t: Tables, id: Id)
    requires ValidTables(t)
    ensures ValidTables(Delete(t, id).after)
  {
    DeleteKeyed(t, id);
    DeleteRefs(t, id);
  }

  lemma DeleteKeyed(t: Tables, id: Id)
    requires Keyed(t)
    ensures Keyed(Delete(t, id).after)
  {
  }

  lemma DeleteRefs(t: Tables, id: Id)
    requires RefsExist(t)
    ensures RefsExist(Delete(t, id).after)
  {
  }

  /**
   * Deleting removes exactly that row and changes nothing else; the id is
   * then unknown, so a second delete or an update reports 404 and changes
   * nothing.
   */
  lemma DeleteThenMissing(t: Tables, id: Id, upd: LabReportUpdate)
    requires id in t.labReports
    ensures var s := Delete(t, id);
      s.result == Ok(DeletedMessage) && s.after == t.(labReports := t.labReports - {id}) &&
      Delete(s.after, id) == Step(Err(LabReportNotFound), s.after) &&
      Update(s.after, id, upd) == Step(Err(LabReportNotFound), s.after)
  {
  }
}
