/**
 * `DoctorAuthService` of the older authentication app: its own `doctor`
 * table, whose email and medical licence number are both unique columns.
 * The service itself checks only the email (400); a licence number already
 * in use is refused by the database when the row is committed. The hash and
 * its check are parameters.
 */
module LegacyDoctorAuth {
  import opened Wrappers
  import Database

  type Uid = nat

  datatype Doctor = Doctor(
    uid: Uid, firstname: string, lastname: string, medicalSpecialty: string,
    medicalLicenseNumber: string, phoneno: string, email: string, passwordHash: string,
    createdAt: int)

  datatype DoctorRegister = DoctorRegister(
    firstname: string, lastname: string, medicalSpecialty: string,
    medicalLicenseNumber: string, phoneno: string, email: string, password: string)

  /** An `HTTPException`, or the database refusing a commit that breaks a unique column. */
  datatype Failure = HttpError(status: int, detail: string) | UniqueViolation(column: string)

  datatype Result<T> = Ok(value: T) | Err(failure: Failure)

  const DoctorExists: Failure := HttpError(400, "Doctor already exists")
  const InvalidCredentials: Failure := HttpError(403, "Invalid email or password")
  const LicenseTaken: Failure := UniqueViolation("medical_license_number")

  /** The table at one moment, and the next `uid` to hand out. */
  datatype Table = Table(doctors: map<Uid, Doctor>, nextUid: nat)

  datatype Step<T> = Step(result: Result<T>, after: Table)

  function WithEmail(t: Table, email: string): set<Uid> {
    set k | k in t.doctors && t.doctors[k].email == email
  }

  function WithLicense(t: Table, license: string): set<Uid> {
    set k | k in t.doctors && t.doctors[k].medicalLicenseNumber == license
  }

  predicate Keyed(t: Table) {
    forall k :: k in t.doctors ==> k < t.nextUid && t.doctors[k].uid == k
  }

  /** The two `unique=True` columns. */
  predicate Unique(t: Table) {
    (forall a, b :: a in t.doctors && b in t.doctors && t.doctors[a].email == t.doctors[b].email ==> a == b) &&
    (forall a, b ::
       (a in t.doctors && b in t.doctors &&
        t.doctors[a].medicalLicenseNumber == t.doctors[b].medicalLicenseNumber) ==> a == b)
  }

  predicate ValidTable(t: Table) {
    Keyed(t) && Unique(t)
  }

  class DoctorTable {
    var doctors: map<Uid, Doctor>
    var nextUid: nat

    function Snapshot(): Table
      reads this
    {
      Table(doctors, nextUid)
    }

    ghost predicate Valid()
      reads this
    {
      ValidTable(Snapshot())
    }

    constructor ()
      ensures Valid() && Snapshot() == Table(map[], 0)
    {
      doctors := map[];
      nextUid := 0;
    }
  }

  function NewDoctor(t: Table, data: DoctorRegister, hash: string -> string, now: int): Doctor {
    Doctor(t.nextUid, data.firstname, data.lastname, data.medicalSpecialty,
           data.medicalLicenseNumber, data.phoneno, data.email, hash(data.password), now)
  }

  /** `register_doctor`, with `hash` for `generate_password_hash`, followed by the commit. */
  function Register(t: Table, data: DoctorRegister, hash: string -> string, now: int): Step<Doctor> {
    if WithEmail(t, data.email) != {} then Step(Err(DoctorExists), t)
    else if WithLicense(t, data.medicalLicenseNumber) != {} then Step(Err(LicenseTaken), t)
    else
      var row := NewDoctor(t, data, hash, now);
      Step(Ok(row), Table(t.doctors[t.nextUid := row], t.nextUid + 1))
  }

  /** `authenticate_doctor`, with `verify` for `verify_password`. */
  ghost function Authenticate(t: Table, email: string, password: string, verify: (string, string) -> bool): Result<Doctor> {
    if WithEmail(t, email) == {} then Err(InvalidCredentials)
    else
      var k :| k in WithEmail(t, email);
      if verify(password, t.doctors[k].passwordHash) then Ok(t.doctors[k]) else Err(InvalidCredentials)
  }

  /** `get_doctor_by_email`. */
  method GetDoctorByEmail(table: DoctorTable, email: string) returns (r: Option<Doctor>)
    requires table.Valid()
    ensures r.None? <==> WithEmail(table.Snapshot(), email) == {}
    ensures r.Some? ==> WithEmail(table.Snapshot(), email) == {r.value.uid} && table.doctors[r.value.uid] == r.value
  {
    var byEmail := (row: Doctor) => row.email == email;
    assert Database.MatchingKeys(table.doctors, byEmail, table.doctors.Keys) == WithEmail(table.Snapshot(), email);
    if WithEmail(table.Snapshot(), email) != {} {
      var k :| k in WithEmail(table.Snapshot(), email);
      EmailNamesOne(table.Snapshot(), email, k);
    }
    r := Database.ScalarOneOrNone(table.doctors, byEmail);
    if r.Some? {
      var k :| k in WithEmail(table.Snapshot(), email) && table.doctors[k] == r.value;
      EmailNamesOne(table.Snapshot(), email, k);
    }
  }

  /** `doctor_exists`. */
  method DoctorExistsByEmail(table: DoctorTable, email: string) returns (b: bool)
    requires table.Valid()
    ensures b <==> WithEmail(table.Snapshot(), email) != {}
  {
    var doctor := GetDoctorByEmail(table, email);
    b := doctor.Some?;
  }

  /** `register_doctor`, performed on `table`. */
  method RegisterDoctor(table: DoctorTable, data: DoctorRegister, hash: string -> string, now: int) returns (r: Result<Doctor>)
    requires table.Valid()
    modifies table
    ensures Step(r, table.Snapshot()) == Register(old(table.Snapshot()), data, hash, now)
    ensures table.Valid()
  {
    RegisterKeepsValid(table.Snapshot(), data, hash, now);
    var exists_ := DoctorExistsByEmail(table, data.email);
    if exists_ {
      return Err(DoctorExists);
    }
    if exists k :: k in table.doctors && table.doctors[k].medicalLicenseNumber == data.medicalLicenseNumber {
      ghost var k :| k in table.doctors && table.doctors[k].medicalLicenseNumber == data.medicalLicenseNumber;
      assert k in WithLicense(table.Snapshot(), data.medicalLicenseNumber);
      return Err(LicenseTaken);
    }
    assert WithLicense(table.Snapshot(), data.medicalLicenseNumber) == {};
    var passwordHash := hash(data.password);
    var row := Doctor(table.nextUid, data.firstname, data.lastname, data.medicalSpecialty,
                      data.medicalLicenseNumber, data.phoneno, data.email, passwordHash, now);
    table.doctors := table.doctors[table.nextUid := row];
    table.nextUid := table.nextUid + 1;
    r := Ok(row);
  }

  /** `authenticate_doctor` on `table`; nothing changes. */
  method AuthenticateDoctor(table: DoctorTable, email: string, password: string, verify: (string, string) -> bool)
    returns (r: Result<Doctor>)
    requires table.Valid()
    ensures r == Authenticate(table.Snapshot(), email, password, verify)
  {
    var doctor := GetDoctorByEmail(table, email);
    if doctor.None? || !verify(password, doctor.value.passwordHash) {
      r := Err(InvalidCredentials);
    } else {
      r := Ok(doctor.value);
    }
  }

  lemma EmailNamesOne(t: Table, email: string, k: Uid)
    requires Unique(t) && k in t.doctors && t.doctors[k].email == email
    ensures WithEmail(t, email) == {k}
  {
  }

  /** Registration keeps the uids and both unique columns intact. */
  lemma RegisterKeepsValid(t: Table, data: DoctorRegister, hash: string -> string, now: int)
    requires ValidTable(t)
    ensures ValidTable(Register(t, data, hash, now).after)
  {
    var s := Register(t, data, hash, now);
    if s.result.Ok? {
      assert forall k :: k in t.doctors && t.doctors[k].email == data.email ==> k in WithEmail(t, data.email);
      assert forall k :: (k in t.doctors && t.doctors[k].medicalLicenseNumber == data.medicalLicenseNumber) ==>
        k in WithLicense(t, data.medicalLicenseNumber);
      assert Unique(s.after);
    }
  }

  /**
   * The email is checked first (400), then the licence number (refused at the
   * commit); a failure leaves the table as it was. A new row holds the hash
   * and the submitted fields.
   */
  lemma RegisterOutcomes(t: Table, data: DoctorRegister, hash: string -> string, now: int)
    requires Keyed(t)
    ensures var s := Register(t, data, hash, now);
      (s.result == Err(DoctorExists) <==> exists k :: k in t.doctors && t.doctors[k].email == data.email) &&
      (s.result == Err(LicenseTaken) <==>
         (forall k :: k in t.doctors ==> t.doctors[k].email != data.email) &&
         (exists k :: k in t.doctors && t.doctors[k].medicalLicenseNumber == data.medicalLicenseNumber)) &&
      (s.result.Err? ==> s.after == t) &&
      (s.result.Ok? ==>
         var row := s.result.value;
         row.uid !in t.doctors && s.after.doctors == t.doctors[row.uid := row] &&
         row.passwordHash == hash(data.password) &&
         row.firstname == data.firstname && row.lastname == data.lastname &&
         row.medicalSpecialty == data.medicalSpecialty && row.medicalLicenseNumber == data.medicalLicenseNumber &&
         row.phoneno == data.phoneno && row.email == data.email)
  {
    if exists k :: k in t.doctors && t.doctors[k].email == data.email {
      var k :| k in t.doctors && t.doctors[k].email == data.email;
      assert k in WithEmail(t, data.email);
    } else {
      assert WithEmail(t, data.email) == {};
      if exists k :: k in t.doctors && t.doctors[k].medicalLicenseNumber == data.medicalLicenseNumber {
        var k :| k in t.doctors && t.doctors[k].medicalLicenseNumber == data.medicalLicenseNumber;
        assert k in WithLicense(t, data.medicalLicenseNumber);
      }
    }
  }

  /** With a `verify` that accepts a password against its own hash, a new doctor can log in. */
  lemma RegisterThenAuthenticate(t: Table, data: DoctorRegister, hash: string -> string, verify: (string, string) -> bool, now: int)
    requires ValidTable(t)
    requires verify(data.password, hash(data.password))
    requires Register(t, data, hash, now).result.Ok?
    ensures var s := Register(t, data, hash, now);
      Authenticate(s.after, data.email, data.password, verify) == Ok(s.result.value)
  {
    var s := Register(t, data, hash, now);
    RegisterKeepsValid(t, data, hash, now);
    EmailNamesOne(s.after, data.email, t.nextUid);
  }

  /** An unknown email and a wrong password give the same 403. */
  lemma AuthenticationFailureIsUniform(t: Table, email: string, password: string, verify: (string, string) -> bool)
    requires Unique(t)
    ensures Authenticate(t, email, password, verify).Err? ==> Authenticate(t, email, password, verify) == Err(InvalidCredentials)
    ensures WithEmail(t, email) == {} ==> Authenticate(t, email, password, verify) == Err(InvalidCredentials)
    ensures forall k :: k in t.doctors && t.doctors[k].email == email ==>
      (Authenticate(t, email, password, verify) == Ok(t.doctors[k]) <==> verify(password, t.doctors[k].passwordHash))
  {
    forall k | k in t.doctors && t.doctors[k].email == email
      ensures Authenticate(t, email, password, verify) == Ok(t.doctors[k]) <==> verify(password, t.doctors[k].passwordHash)
    {
      EmailNamesOne(t, email, k);
    }
  }
}
