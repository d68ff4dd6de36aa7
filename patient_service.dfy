/**
 * `PatientService`: registration refuses an email already in use and stores
 * the password's hash; authentication answers the same 403 for an unknown
 * email and for a wrong password. The hash and its check are parameters.
 */
module PatientService {
  import opened Wrappers
  import opened Database

  datatype PatientRegister = PatientRegister(
    fullName: string, email: string, password: string,
    dateOfBirth: Option<int>, gender: Option<string>, address: Option<string>, phone: Option<string>)

  const PatientExists: HttpError := HttpError(400, "Patient already exists")
  const InvalidCredentials: HttpError := HttpError(403, "Invalid email or password")

  function NewPatient(t: Tables, data: PatientRegister, hash: string -> string, now: int): Patient {
    Patient(t.nextId, data.fullName, data.email, hash(data.password),
            data.dateOfBirth, data.gender, data.address, data.phone, now)
  }

  /** `register_patient`, with `hash` for `generate_password_hash`. */
  function Register(t: Tables, data: PatientRegister, hash: string -> string, now: int): Step<Patient> {
    if PatientsWithEmail(t.patients, data.email) != {} then Step(Err(PatientExists), t)
    else
      var row := NewPatient(t, data, hash, now);
      Step(Ok(row), t.(patients := t.patients[t.nextId := row], nextId := t.nextId + 1))
  }

  /** `authenticate_patient`, with `verify` for `verify_password`. */
  ghost function Authenticate(t: Tables, email: string, password: string, verify: (string, string) -> bool): Result<Patient> {
    if PatientsWithEmail(t.patients, email) == {} then Err(InvalidCredentials)
    else
      var k :| k in PatientsWithEmail(t.patients, email);
      if verify(password, t.patients[k].passwordHash) then Ok(t.patients[k]) else Err(InvalidCredentials)
  }

  /** `get_patient_by_email`. */
  method GetPatientByEmail(db: Db, email: string) returns (r: Option<Patient>)
    requires db.Valid()
    ensures r.None? <==> PatientsWithEmail(db.patients, email) == {}
    ensures r.Some? ==> r.value.id in db.patients && db.patients[r.value.id] == r.value && r.value.email == email
  {
    var withEmail := (row: Patient) => row.email == email;
    assert MatchingKeys(db.patients, withEmail, db.patients.Keys) == PatientsWithEmail(db.patients, email);
    EmailNamesOnePatient(db.Snapshot(), email);
    r := ScalarOneOrNone(db.patients, withEmail);
  }

  /** `patient_exists`. */
  method PatientExistsByEmail(db: Db, email: string) returns (b: bool)
    requires db.Valid()
    ensures b <==> PatientsWithEmail(db.patients, email) != {}
  {
    var patient := GetPatientByEmail(db, email);
    b := patient.Some?;
  }

  /** `register_patient`, performed on `db`. */
  method RegisterPatient(db: Db, data: PatientRegister, hash: string -> string, now: int) returns (r: Result<Patient>)
    requires db.Valid()
    modifies db
    ensures Step(r, db.Snapshot()) == Register(old(db.Snapshot()), data, hash, now)
    ensures db.Valid()
  {
    RegisterKeepsValid(db.Snapshot(), data, hash, now);
    var exists_ := PatientExistsByEmail(db, data.email);
    if exists_ {
      return Err(PatientExists);
    }
    var passwordHash := hash(data.password);
    var id := db.FreshId();
    var row := Patient(id, data.fullName, data.email, passwordHash,
                       data.dateOfBirth, data.gender, data.address, data.phone, now);
    db.patients := db.patients[id := row];
    r := Ok(row);
  }

  /** `authenticate_patient` on `db`; nothing changes. */
  method AuthenticatePatient(db: Db, email: string, password: string, verify: (string, string) -> bool)
    returns (r: Result<Patient>)
    requires db.Valid()
    ensures r == Authenticate(db.Snapshot(), email, password, verify)
  {
    var patient := GetPatientByEmail(db, email);
    if patient.None? || !verify(password, patient.value.passwordHash) {
      r := Err(InvalidCredentials);
    } else {
      r := Ok(patient.value);
    }
    if patient.Some? {
      FoundPatientIsOnly(db.Snapshot(), email, patient.value.id);
    }
  }

  /** The unique email column: at most one patient per email. */
  lemma EmailNamesOnePatient(t: Tables, email: string)
    requires EmailsUnique(t)
    ensures |PatientsWithEmail(t.patients, email)| <= 1
  {
    if PatientsWithEmail(t.patients, email) != {} {
      var k :| k in PatientsWithEmail(t.patients, email);
      assert PatientsWithEmail(t.patients, email) == {k};
    }
  }

  lemma FoundPatientIsOnly(t: Tables, email: string, k: Id)
    requires EmailsUnique(t) && k in PatientsWithEmail(t.patients, email)
    ensures PatientsWithEmail(t.patients, email) == {k}
  {
  }

  /** Registration keeps every invariant, the email column's uniqueness among them. */
  lemma RegisterKeepsValid(t: Tables, data: PatientRegister, hash: string -> string, now: int)
    requires ValidTables(t)
    ensures ValidTables(Register(t, data, hash, now).after)
  {
    if PatientsWithEmail(t.patients, data.email) == {} {
      var row := NewPatient(t, data, hash, now);
      assert forall k :: k in t.patients && t.patients[k].email == row.email ==> k in PatientsWithEmail(t.patients, data.email);
      PatientAddedKeepsValid(t, row);
    }
  }

  /** A taken email is refused and nothing changes; a new one is stored with the hash, never the password itself. */
  lemma RegisterStoresHash(t: Tables, data: PatientRegister, hash: string -> string, now: int)
    requires PatientsKeyed(t)
    ensures var s := Register(t, data, hash, now);
      (s.result == Err(PatientExists) <==> exists k :: k in t.patients && t.patients[k].email == data.email) &&
      (s.result.Err? ==> s.after == t) &&
      (s.result.Ok? ==> s.result.value.passwordHash == hash(data.password) && s.result.value.email == data.email &&
                        s.result.value.id !in t.patients && s.after.patients == t.patients[s.result.value.id := s.result.value])
  {
    if exists k :: k in t.patients && t.patients[k].email == data.email {
      var k :| k in t.patients && t.patients[k].email == data.email;
      assert k in PatientsWithEmail(t.patients, data.email);
    }
  }

  /** Registering twice with one email: the second is refused. */
  lemma RegisterTwiceRefused(t: Tables, data: PatientRegister, again: PatientRegister, hash: string -> string, now: int, later: int)
    requires PatientsKeyed(t)
    requires Register(t, data, hash, now).result.Ok? && again.email == data.email
    ensures var after := Register(t, data, hash, now).after;
      Register(after, again, hash, later) == Step(Err(PatientExists), after)
  {
    var after := Register(t, data, hash, now).after;
    assert t.nextId in PatientsWithEmail(after.patients, again.email);
  }

  /** With a `verify` that accepts each password against its own hash, a new patient can log in with the password given. */
  lemma RegisterThenAuthenticate(t: Tables, data: PatientRegister, hash: string -> string, verify: (string, string) -> bool, now: int)
    requires ValidTables(t)
    requires verify(data.password, hash(data.password))
    requires Register(t, data, hash, now).result.Ok?
    ensures var s := Register(t, data, hash, now);
      Authenticate(s.after, data.email, data.password, verify) == Ok(s.result.value)
  {
    var s := Register(t, data, hash, now);
    RegisterKeepsValid(t, data, hash, now);
    assert PatientsWithEmail(t.patients, data.email) == {};
    assert PatientsWithEmail(s.after.patients, data.email) == {t.nextId};
  }

  /** An unknown email and a wrong password get the same answer, so a caller cannot tell them apart. */
  lemma AuthenticationFailureIsUniform(t: Tables, email: string, password: string, verify: (string, string) -> bool)
    requires EmailsUnique(t)
    ensures Authenticate(t, email, password, verify).Err? ==> Authenticate(t, email, password, verify) == Err(InvalidCredentials)
    ensures PatientsWithEmail(t.patients, email) == {} ==> Authenticate(t, email, password, verify) == Err(InvalidCredentials)
    ensures forall k :: k in t.patients && t.patients[k].email == email ==>
      (Authenticate(t, email, password, verify).Ok? <==> verify(password, t.patients[k].passwordHash))
  {
    forall k | k in t.patients && t.patients[k].email == email
      ensures Authenticate(t, email, password, verify).Ok? <==> verify(password, t.patients[k].passwordHash)
    {
      assert k in PatientsWithEmail(t.patients, email);
      FoundPatientIsOnly(t, email, k);
    }
  }
}
