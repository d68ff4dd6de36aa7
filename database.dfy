/**
 * The backend's tables: one map per table from row id to row, the rows as
 * the models declare them, and the HTTP errors the services raise. Row ids
 * (`uuid4` in the models) are drawn from one counter, so a new id never
 * repeats one in use. Timestamps (`datetime.utcnow()`) are integers the
 * caller supplies.
 */
module Database {
  import opened Wrappers

  type Id = nat

  datatype Patient = Patient(
    id: Id, fullName: string, email: string, passwordHash: string,
    dateOfBirth: Option<int>, gender: Option<string>, address: Option<string>, phone: Option<string>,
    createdAt: int)

  datatype Doctor = Doctor(
    id: Id, fullName: string, email: string, passwordHash: string,
    specialization: string, hospitalName: string, phone: Option<string>, createdAt: int)

  datatype DoctorPatient = DoctorPatient(
    id: Id, doctorId: Id, patientId: Id, assignedAt: int,
    relationshipType: Option<string>, isActive: bool)

  datatype Prescription = Prescription(
    id: Id, patientId: Id, doctorId: Id, medication: string, dosage: string,
    instructions: Option<string>, createdAt: int)

  datatype Appointment = Appointment(
    id: Id, patientId: Id, doctorId: Id, appointmentDate: int,
    reason: Option<string>, notes: Option<string>, status: string, createdAt: int)

  datatype Consent = Consent(
    id: Id, patientId: Id, doctorId: Id, accessStatus: string,
    grantedAt: Option<int>, revokedAt: Option<int>)

  datatype LabReport = LabReport(
    id: Id, patientId: Id, doctorId: Option<Id>, fileUrl: string, reportType: string, uploadedAt: int)

  datatype AuditLog = AuditLog(
    id: Id, actorId: Id, action: string, targetType: string, targetId: Option<Id>,
    timestamp: int, ipAddress: Option<string>)

  /** An `HTTPException`: status code and detail. */
  datatype HttpError = HttpError(status: int, detail: string)

  datatype Result<T> = Ok(value: T) | Err(error: HttpError)

  const PatientNotFound: HttpError := HttpError(404, "Patient not found")
  const DoctorNotFound: HttpError := HttpError(404, "Doctor not found")

  /** All tables at one moment, and the next id to hand out. */
  datatype Tables = Tables(
    patients: map<Id, Patient>,
    doctors: map<Id, Doctor>,
    doctorPatients: map<Id, DoctorPatient>,
    prescriptions: map<Id, Prescription>,
    appointments: map<Id, Appointment>,
    consents: map<Id, Consent>,
    labReports: map<Id, LabReport>,
    auditLogs: map<Id, AuditLog>,
    nextId: nat)

  /** A service call's result and the tables after it. */
  datatype Step<T> = Step(result: Result<T>, after: Tables)

  predicate PatientsKeyed(t: Tables) {
    forall k :: k in t.patients ==> k < t.nextId && t.patients[k].id == k
  }

  predicate DoctorsKeyed(t: Tables) {
    forall k :: k in t.doctors ==> k < t.nextId && t.doctors[k].id == k
  }

  predicate DoctorPatientsKeyed(t: Tables) {
    forall k :: k in t.doctorPatients ==> k < t.nextId && t.doctorPatients[k].id == k
  }

  predicate PrescriptionsKeyed(t: Tables) {
    forall k :: k in t.prescriptions ==> k < t.nextId && t.prescriptions[k].id == k
  }

  predicate AppointmentsKeyed(t: Tables) {
    forall k :: k in t.appointments ==> k < t.nextId && t.appointments[k].id == k
  }

  predicate ConsentsKeyed(t: Tables) {
    forall k :: k in t.consents ==> k < t.nextId && t.consents[k].id == k
  }

  predicate LabReportsKeyed(t: Tables) {
    forall k :: k in t.labReports ==> k < t.nextId && t.labReports[k].id == k
  }

  predicate AuditLogsKeyed(t: Tables) {
    forall k :: k in t.auditLogs ==> k < t.nextId && t.auditLogs[k].id == k
  }

  /** Every row is stored under its own id, and every id is below the counter. */
  predicate Keyed(t: Tables) {
    PatientsKeyed(t) && DoctorsKeyed(t) && DoctorPatientsKeyed(t) && PrescriptionsKeyed(t) &&
    AppointmentsKeyed(t) && ConsentsKeyed(t) && LabReportsKeyed(t) && AuditLogsKeyed(t)
  }

  /** The `unique=True` email columns. */
  predicate EmailsUnique(t: Tables) {
    (forall a, b :: a in t.patients && b in t.patients && t.patients[a].email == t.patients[b].email ==> a == b) &&
    (forall a, b :: a in t.doctors && b in t.doctors && t.doctors[a].email == t.doctors[b].email ==> a == b)
  }

  /** The patients registered with an email. */
  function PatientsWithEmail(ps: map<Id, Patient>, email: string): set<Id> {
    set k | k in ps && ps[k].email == email
  }

  /** The doctors registered with an email. */
  function DoctorsWithEmail(ds: map<Id, Doctor>, email: string): set<Id> {
    set k | k in ds && ds[k].email == email
  }

  /** The rows of `doctor_patient` for one pair. */
  function PairRows(dp: map<Id, DoctorPatient>, doctorId: Id, patientId: Id): set<Id> {
    set k | k in dp && dp[k].doctorId == doctorId && dp[k].patientId == patientId
  }

  /** The consents for one pair. */
  function ConsentRows(cs: map<Id, Consent>, patientId: Id, doctorId: Id): set<Id> {
    set k | k in cs && cs[k].patientId == patientId && cs[k].doctorId == doctorId
  }

  /**
   * At most one `doctor_patient` row and one consent per pair: the services'
   * `scalar_one_or_none` lookups of a pair rely on it.
   */
  predicate PairsUnique(t: Tables) {
    (forall a, b ::
       (a in t.doctorPatients && b in t.doctorPatients &&
        t.doctorPatients[a].doctorId == t.doctorPatients[b].doctorId &&
        t.doctorPatients[a].patientId == t.doctorPatients[b].patientId) ==> a == b) &&
    (forall a, b ::
       (a in t.consents && b in t.consents &&
        t.consents[a].patientId == t.consents[b].patientId &&
        t.consents[a].doctorId == t.consents[b].doctorId) ==> a == b)
  }

  /**
   * Pair uniqueness rules out a second link row or a second consent for a
   * pair, so the services' `scalar_one_or_none` lookups of a pair never raise.
   */
  lemma PairHasAtMostOneRow(t: Tables, doctorId: Id, patientId: Id)
    requires PairsUnique(t)
    ensures |PairRows(t.doctorPatients, doctorId, patientId)| <= 1
    ensures |ConsentRows(t.consents, patientId, doctorId)| <= 1
  {
    var links := PairRows(t.doctorPatients, doctorId, patientId);
    if links != {} {
      var k :| k in links;
      assert links == {k};
    }
    var consents := ConsentRows(t.consents, patientId, doctorId);
    if consents != {} {
      var k :| k in consents;
      assert consents == {k};
    }
  }

  /** Rows refer to patients and doctors that exist (no service deletes a patient or a doctor). */
  predicate RefsExist(t: Tables) {
    (forall k :: k in t.doctorPatients ==> t.doctorPatients[k].patientId in t.patients && t.doctorPatients[k].doctorId in t.doctors) &&
    (forall k :: k in t.prescriptions ==> t.prescriptions[k].patientId in t.patients && t.prescriptions[k].doctorId in t.doctors) &&
    (forall k :: k in t.appointments ==> t.appointments[k].patientId in t.patients && t.appointments[k].doctorId in t.doctors) &&
    (forall k :: k in t.consents ==> t.consents[k].patientId in t.patients && t.consents[k].doctorId in t.doctors) &&
    (forall k :: k in t.labReports ==>
       (t.labReports[k].patientId in t.patients &&
        (t.labReports[k].doctorId.Some? ==> t.labReports[k].doctorId.value in t.doctors)))
  }

  predicate ValidTables(t: Tables) {
    Keyed(t) && EmailsUnique(t) && PairsUnique(t) && RefsExist(t)
  }

  /** A new patient under the next id, whose email no patient has, keeps every invariant. */
  lemma PatientAddedKeepsValid(t: Tables, row: Patient)
    requires ValidTables(t) && row.id == t.nextId
    requires forall k :: k in t.patients ==> t.patients[k].email != row.email
    ensures ValidTables(t.(patients := t.patients[t.nextId := row], nextId := t.nextId + 1))
  {
    PatientAddedKeyed(t, row);
    PatientAddedRefs(t, row);
    PatientAddedUnique(t, row);
  }

  /** A new patient under the next id keeps every row keyed. */
  lemma PatientAddedKeyed(t: Tables, row: Patient)
    requires Keyed(t) && row.id == t.nextId
    ensures Keyed(t.(patients := t.patients[t.nextId := row], nextId := t.nextId + 1))
  {
  }

  /** Adding a patient breaks no reference and no pair. */
  lemma PatientAddedRefs(t: Tables, row: Patient)
    requires RefsExist(t) && PairsUnique(t)
    ensures var after := t.(patients := t.patients[t.nextId := row], nextId := t.nextId + 1);
      RefsExist(after) && PairsUnique(after)
  {
  }

  /** A new patient whose email no patient has keeps the email columns unique. */
  lemma PatientAddedUnique(t: Tables, row: Patient)
    requires EmailsUnique(t) && PatientsKeyed(t) && row.id == t.nextId
    requires forall k :: k in t.patients ==> t.patients[k].email != row.email
    ensures EmailsUnique(t.(patients := t.patients[t.nextId := row], nextId := t.nextId + 1))
  {
  }

  /** A new doctor under the next id, whose email no doctor has, keeps every invariant. */
  lemma DoctorAddedKeepsValid(t: Tables, row: Doctor)
    requires ValidTables(t) && row.id == t.nextId
    requires forall k :: k in t.doctors ==> t.doctors[k].email != row.email
    ensures ValidTables(t.(doctors := t.doctors[t.nextId := row], nextId := t.nextId + 1))
  {
    DoctorAddedKeyed(t, row);
    DoctorAddedRefs(t, row);
    DoctorAddedUnique(t, row);
  }

  /** A new doctor under the next id keeps every row keyed. */
  lemma DoctorAddedKeyed(t: Tables, row: Doctor)
    requires Keyed(t) && row.id == t.nextId
    ensures Keyed(t.(doctors := t.doctors[t.nextId := row], nextId := t.nextId + 1))
  {
  }

  /** Adding a doctor breaks no reference and no pair. */
  lemma DoctorAddedRefs(t: Tables, row: Doctor)
    requires RefsExist(t) && PairsUnique(t)
    ensures var after := t.(doctors := t.doctors[t.nextId := row], nextId := t.nextId + 1);
      RefsExist(after) && PairsUnique(after)
  {
  }

  /** A new doctor whose email no doctor has keeps the email columns unique. */
  lemma DoctorAddedUnique(t: Tables, row: Doctor)
    requires EmailsUnique(t) && DoctorsKeyed(t) && row.id == t.nextId
    requires forall k :: k in t.doctors ==> t.doctors[k].email != row.email
    ensures EmailsUnique(t.(doctors := t.doctors[t.nextId := row], nextId := t.nextId + 1))
  {
  }

  /** The database the services work on, each table a field they update in place. */
  class Db {
    var patients: map<Id, Patient>
    var doctors: map<Id, Doctor>
    var doctorPatients: map<Id, DoctorPatient>
    var prescriptions: map<Id, Prescription>
    var appointments: map<Id, Appointment>
    var consents: map<Id, Consent>
    var labReports: map<Id, LabReport>
    var auditLogs: map<Id, AuditLog>
    var nextId: nat

    function Snapshot(): Tables
      reads this
    {
      Tables(patients, doctors, doctorPatients, prescriptions, appointments, consents, labReports, auditLogs, nextId)
    }

    ghost predicate Valid()
      reads this
    {
      ValidTables(Snapshot())
    }

    constructor ()
      ensures Valid()
      ensures Snapshot() == Tables(map[], map[], map[], map[], map[], map[], map[], map[], 0)
    {
      patients, doctors, doctorPatients := map[], map[], map[];
      prescriptions, appointments, consents := map[], map[], map[];
      labReports, auditLogs := map[], map[];
      nextId := 0;
    }

    /** `uuid.uuid4()`: an id no row has. */
    method FreshId() returns (id: Id)
      modifies this
      ensures id == old(nextId)
      ensures Snapshot() == old(Snapshot()).(nextId := id + 1)
    {
      id := nextId;
      nextId := nextId + 1;
    }

    /** Replace every table at once with the given ones (one commit). */
    method Store(t: Tables)
      modifies this
      ensures Snapshot() == t
    {
      patients, doctors, doctorPatients := t.patients, t.doctors, t.doctorPatients;
      prescriptions, appointments, consents := t.prescriptions, t.appointments, t.consents;
      labReports, auditLogs := t.labReports, t.auditLogs;
      nextId := t.nextId;
    }
  }

  /** The keys of `table` among `keys` whose rows satisfy `matches`. */
  function MatchingKeys<T>(table: map<Id, T>, matches: T -> bool, keys: set<Id>): set<Id> {
    set k | k in table && k in keys && matches(table[k])
  }

  /** The rows of `table` under `keys` that satisfy `matches`. */
  function MatchingRows<T>(table: map<Id, T>, matches: T -> bool, keys: set<Id>): set<T> {
    set k | k in table && k in keys && matches(table[k]) :: table[k]
  }

  /**
   * `select(...).where(...)` followed by `scalars().all()`: exactly the
   * matching rows, one entry per matching key, in no particular order.
   */
  method Select<T>(table: map<Id, T>, matches: T -> bool) returns (rows: seq<T>)
    ensures forall x :: x in rows <==> x in MatchingRows(table, matches, table.Keys)
    ensures |rows| == |MatchingKeys(table, matches, table.Keys)|
  {
    var todo := table.Keys;
    ghost var done: set<Id> := {};
    rows := [];
    while todo != {}
      invariant todo + done == table.Keys && todo !! done
      invariant forall x :: x in rows <==> x in MatchingRows(table, matches, done)
      invariant |rows| == |MatchingKeys(table, matches, done)|
      decreases |todo|
    {
      var k :| k in todo;
      MatchingAddKey(table, matches, done, k);
      if matches(table[k]) {
        rows := rows + [table[k]];
      }
      todo := todo - {k};
      done := done + {k};
    }
  }

  /** Looking at one more key adds its row to the matches exactly when the row matches. */
  lemma MatchingAddKey<T>(table: map<Id, T>, matches: T -> bool, done: set<Id>, k: Id)
    requires k in table && k !in done
    ensures matches(table[k]) ==>
      MatchingRows(table, matches, done + {k}) == MatchingRows(table, matches, done) + {table[k]} &&
      MatchingKeys(table, matches, done + {k}) == MatchingKeys(table, matches, done) + {k}
    ensures !matches(table[k]) ==>
      MatchingRows(table, matches, done + {k}) == MatchingRows(table, matches, done) &&
      MatchingKeys(table, matches, done + {k}) == MatchingKeys(table, matches, done)
    ensures k !in MatchingKeys(table, matches, done)
  {
  }

  /**
   * `scalar_one_or_none()`: the one matching row, or none. More than one
   * match raises in the library, so callers must rule it out.
   */
  method ScalarOneOrNone<T>(table: map<Id, T>, matches: T -> bool) returns (r: Option<T>)
    requires |MatchingKeys(table, matches, table.Keys)| <= 1
    ensures r.None? <==> MatchingKeys(table, matches, table.Keys) == {}
    ensures r.Some? ==> exists k :: k in MatchingKeys(table, matches, table.Keys) && table[k] == r.value
  {
    var rows := Select(table, matches);
    if |rows| == 0 {
      r := None;
    } else {
      assert rows[0] in MatchingRows(table, matches, table.Keys);
      r := Some(rows[0]);
    }
  }
}
