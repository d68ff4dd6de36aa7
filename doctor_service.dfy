/**
 * `DoctorService`: registration refuses an email already in use and stores
 * the password's hash; authentication answers the same 403 for an unknown
 * email and for a wrong password. The hash and its check are parameters.
 */
module DoctorService {
  import opened Wrappers
  import opened Database

  datatype DoctorRegister = DoctorRegister(
    fullName: string, email: string, password: string,
    specialization: string, hospitalName: string, phone: Option<string>)

  const DoctorExists: HttpError := HttpError(400, "Doctor already exists")
  const InvalidCredentials: HttpError := HttpError(403, "Invalid email or password")

  function NewDoctor(t: Tables, data: DoctorRegister, hash: string -> string, now: int): Doctor {
    Doctor(t.nextId, data.fullName, data.email, hash(data.password),
           data.specialization, data.hospitalName, data.phone, now)
  }

  /** `register_doctor`, with `hash` for `generate_password_hash`. */
  function Register(t: Tables, data: DoctorRegister, hash: string -> string, now: int): Step<Doctor> {
    if DoctorsWithEmail(t.doctors, data.email) != {} then Step(Err(DoctorExists), t)
    else
      var row := NewDoctor(t, data, hash, now);
      Step(Ok(row), t.(doctors := t.doctors[t.nextId := row], nextId := t.nextId + 1))
  }

  /** `authenticate_doctor`, with `verify` for `verify_password`. */
  ghost function Authenticate(t: Tables, email: string, password: string, verify: (string, string) -> bool): Result<Doctor> {
    if DoctorsWithEmail(t.doctors, email) == {} then Err(InvalidCredentials)
    else
      var k :| k in DoctorsWithEmail(t.doctors, email);
      if verify(password, t.doctors[k].passwordHash) then Ok(t.doctors[k]) else Err(InvalidCredentials)
  }

  /** `get_doctor_by_email`. */
  method GetDoctorByEmail(db: Db, email: string) returns (r: Option<Doctor>)
    requires db.Valid()
    ensures r.None? <==> DoctorsWithEmail(db.doctors, email) == {}
    ensures r.Some? ==> r.value.id in db.doctors && db.doctors[r.value.id] == r.value && r.value.email == email
  {
    var withEmail := (row: Doctor) => row.email == email;
    assert MatchingKeys(db.doctors, withEmail, db.doctors.Keys) == DoctorsWithEmail(db.doctors, email);
    EmailNamesOneDoctor(db.Snapshot(), email);
    r := ScalarOneOrNone(db.doctors, withEmail);
  }

  /** `doctor_exists`. */
  method DoctorExistsByEmail(db: Db, email: string) returns (b: bool)
    requires db.Valid()
    ensures b <==> DoctorsWithEmail(db.doctors, email) != {}
  {
    var doctor := GetDoctorByEmail(db, email);
    b := doctor.Some?;
  }

  /** `register_doctor`, performed on `db`. */
  method RegisterDoctor(db: Db, data: DoctorRegister, hash: string -> string, now: int) returns (r: Result<Doctor>)
    requires db.Valid()
    modifies db
    ensures Step(r, db.Snapshot()) == Register(old(db.Snapshot()), data, hash, now)
    ensures db.Valid()
  {
    RegisterKeepsValid(db.Snapshot(), data, hash, now);
    var exists_ := DoctorExistsByEmail(db, data.email);
    if exists_ {
      return Err(DoctorExists);
    }
    var passwordHash := hash(data.password);
    var id := db.FreshId();
    var row := Doctor(id, data.fullName, data.email, passwordHash,
                      data.specialization, data.hospitalName, data.phone, now);
    db.doctors := db.doctors[id := row];
    r := Ok(row);
  }

  /** `authenticate_doctor` on `db`; nothing changes. */
  method AuthenticateDoctor(db: Db, email: string, password: string, verify: (string, string) -> bool)
    returns (r: Result<Doctor>)
    requires db.Valid()
    ensures r == Authenticate(db.Snapshot(), email, password, verify)
  {
    var doctor := GetDoctorByEmail(db, email);
    if doctor.None? || !verify(password, doctor.value.passwordHash) {
      r := Err(InvalidCredentials);
    } else {
      r := Ok(doctor.value);
    }
    if doctor.Some? {
      FoundDoctorIsOnly(db.Snapshot(), email, doctor.value.id);
    }
  }

  /** The unique email column: at most one doctor per email. */
  lemma EmailNamesOneDoctor(t: Tables, email: string)
    requires EmailsUnique(t)
    ensures |DoctorsWithEmail(t.doctors, email)| <= 1
  {
    if DoctorsWithEmail(t.doctors, email) != {} {
      var k :| k in DoctorsWithEmail(t.doctors, email);
      assert DoctorsWithEmail(t.doctors, email) == {k};
    }
  }

  lemma FoundDoctorIsOnly(t: Tables, email: string, k: Id)
    requires EmailsUnique(t) && k in DoctorsWithEmail(t.doctors, email)
    ensures DoctorsWithEmail(t.doctors, email) == {k}
  {
  }

  /** Registration keeps every invariant, the email column's uniqueness among them. */
  lemma RegisterKeepsValid(t: Tables, data: DoctorRegister, hash: string -> string, now: int)
    requires ValidTables(t)
    ensures ValidTables(Register(t, data, hash, now).after)
  {
    if DoctorsWithEmail(t.doctors, data.email) == {} {
      var row := NewDoctor(t, data, hash, now);
      assert forall k :: k in t.doctors && t.doctors[k].email == row.email ==> k in DoctorsWithEmail(t.doctors, data.email);
      DoctorAddedKeepsValid(t, row);
    }
  }

  /** A taken email is refused and nothing changes; a new one is stored with the hash, never the password itself. */
  lemma RegisterStoresHash(t: Tables, data: DoctorRegister, hash: string -> string, now: int)
    requires DoctorsKeyed(t)
    ensures var s := Register(t, data, hash, now);
      (s.result == Err(DoctorExists) <==> exists k :: k in t.doctors && t.doctors[k].email == data.email) &&
      (s.result.Err? ==> s.after == t) &&
      (s.result.Ok? ==> s.result.value.passwordHash == hash(data.password) && s.result.value.email == data.email &&
                        s.result.value.id !in t.doctors && s.after.doctors == t.doctors[s.result.value.id := s.result.value])
  {
    if exists k :: k in t.doctors && t.doctors[k].email == data.email {
      var k :| k in t.doctors && t.doctors[k].email == data.email;
      assert k in DoctorsWithEmail(t.doctors, data.email);
    }
  }

  /** Registering twice with one email: the second is refused. */
  lemma RegisterTwiceRefused(t: Tables, data: DoctorRegister, again: DoctorRegister, hash: string -> string, now: int, later: int)
    requires DoctorsKeyed(t)
    requires Register(t, data, hash, now).result.Ok? && again.email == data.email
    ensures var after := Register(t, data, hash, now).after;
      Register(after, again, hash, later) == Step(Err(DoctorExists), after)
  {
    var after := Register(t, data, hash, now).after;
    assert t.nextId in DoctorsWithEmail(after.doctors, again.email);
  }

  /** With a `verify` that accepts each password against its own hash, a new doctor can log in with the password given. */
  lemma RegisterThenAuthenticate(t: Tables, data: DoctorRegister, hash: string -> string, verify: (string, string) -> bool, now: int)
    requires ValidTables(t)
    requires verify(data.password, hash(data.password))
    requires Register(t, data, hash, now).result.Ok?
    ensures var s := Register(t, data, hash, now);
      Authenticate(s.after, data.email, data.password, verify) == Ok(s.result.value)
  {
    var s := Register(t, data, hash, now);
    RegisterKeepsValid(t, data, hash, now);
    assert DoctorsWithEmail(t.doctors, data.email) == {};
    assert DoctorsWithEmail(s.after.doctors, data.email) == {t.nextId};
  }

  /** An unknown email and a wrong password get the same answer, so a caller cannot tell them apart. */
  lemma AuthenticationFailureIsUniform(t: Tables, email: string, password: string, verify: (string, string) -> bool)
    requires EmailsUnique(t)
    ensures Authenticate(t, email, password, verify).Err? ==> Authenticate(t, email, password, verify) == Err(InvalidCredentials)
    ensures DoctorsWithEmail(t.doctors, email) == {} ==> Authenticate(t, email, password, verify) == Err(InvalidCredentials)
    ensures forall k :: k in t.doctors && t.doctors[k].email == email ==>
      (Authenticate(t, email, password, verify).Ok? <==> verify(password, t.doctors[k].passwordHash))
  {
    forall k | k in t.doctors && t.doctors[k].email == email
      ensures Authenticate(t, email, password, verify).Ok? <==> verify(password, t.doctors[k].passwordHash)
    {
      assert k in DoctorsWithEmail(t.doctors, email);
      FoundDoctorIsOnly(t, email, k);
    }
  }
}
