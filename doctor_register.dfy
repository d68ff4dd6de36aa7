/**
 * The doctor registration page: `handleRegister` rejects a password
 * mismatch, then any empty field, sends the doctor signup payload and on a
 * resolved signup writes the doctor session. This page is the only writer
 * of a doctor session.
 */
module DoctorRegister {
  import opened Wrappers
  import opened Js
  import opened Storage
  import Api
  import ProtectedRoute

  datatype DoctorForm = DoctorForm(
    name: string, email: string, phone: string, specialization: string,
    licenseNumber: string, password: string, confirmPassword: string)

  const PasswordsDontMatch: string := "Passwords don't match"
  const FillInAllFields: string := "Please fill in all fields"
  const RegistrationSuccessful: string := "Registration successful!"
  const RegistrationFallback: string := "Registration failed. Please try again."
  const Dashboard: string := "/doctor/dashboard"

  /** `Object.values(formData).every((val) => val)`: all seven fields are non-empty. */
  predicate AllFilled(f: DoctorForm) {
    f.name != "" && f.email != "" && f.phone != "" && f.specialization != "" &&
    f.licenseNumber != "" && f.password != "" && f.confirmPassword != ""
  }

  function Validate(f: DoctorForm): (r: Option<string>)
    ensures r == Some(PasswordsDontMatch) <==> f.password != f.confirmPassword
    ensures r == Some(FillInAllFields) <==> f.password == f.confirmPassword && !AllFilled(f)
    ensures r == None <==> f.password == f.confirmPassword && AllFilled(f)
  {
    if f.password != f.confirmPassword then Some(PasswordsDontMatch)
    else if !AllFilled(f) then Some(FillInAllFields)
    else None
  }

  /** The signup payload: the license number goes out as `medical_license_number` and the hospital is always empty. */
  function Payload(f: DoctorForm): Json {
    JObj([("full_name", JStr(f.name)),
          ("email", JStr(f.email)),
          ("phone", JStr(f.phone)),
          ("specialization", JStr(f.specialization)),
          ("medical_license_number", JStr(f.licenseNumber)),
          ("password", JStr(f.password)),
          ("hospital_name", JStr(""))])
  }

  function SignupCall(f: DoctorForm): Api.Call {
    Api.DoctorSignup(Payload(f))
  }

  /** The signup's result once `response.doctor` has been read (a `null` response throws there). */
  function Registered(o: Api.Outcome): Option<Json> {
    if o.Resolved? && !o.value.JNull? then Some(o.value) else None
  }

  function FailureOf(o: Api.Outcome): Api.Thrown
    requires Registered(o).None?
  {
    match o
    case Rejected(e) => e
    case Resolved(_) => Api.NullRead("doctor")
  }

  /** The store once the call has settled: the doctor session is written for any non-null response. */
  function SettledStore(m: Store, o: Api.Outcome): Store {
    if Registered(o).Some? then
      var v := Registered(o).value;
      WriteSession(m, Doctor, Coerce(Prop(v, "access_token")), Coerce(Prop(v, "refresh_token")), StoredJson(Prop(v, "doctor")))
    else m
  }

  function RegisterStore(m: Store, f: DoctorForm, o: Api.Outcome): Store {
    if Validate(f).None? then SettledStore(m, o) else m
  }

  /** What the page shows once the call has settled. */
  function SettledEffects(o: Api.Outcome): seq<Effect> {
    if Registered(o).Some? then [Toast(Success, RegistrationSuccessful), Navigate(Dashboard)]
    else [Toast(Failure, Api.MessageOr(FailureOf(o), RegistrationFallback))]
  }

  function RegisterEffects(f: DoctorForm, o: Api.Outcome): seq<Effect> {
    match Validate(f)
    case Some(problem) => [Toast(Failure, problem)]
    case None => [Send(Api.RequestFor(SignupCall(f)))] + SettledEffects(o)
  }

  class RegisterPage {
    var form: DoctorForm
    var loading: bool

    constructor (form: DoctorForm)
      ensures this.form == form && !loading
    {
      this.form := form;
      loading := false;
    }

    /** `handleRegister`, with `transport` what `fetch` produced. */
    method HandleRegister(b: Browser, transport: Api.Transport)
      modifies this, b
      ensures form == old(form)
      ensures loading == (if Validate(form).None? then false else old(loading))
      ensures b.storage == RegisterStore(old(b.storage), form, Api.Settle(transport))
      ensures b.effects == old(b.effects) + RegisterEffects(form, Api.Settle(transport))
    {
      if form.password != form.confirmPassword {
        b.Notify(Failure, PasswordsDontMatch);
        return;
      }
      if !AllFilled(form) {
        b.Notify(Failure, FillInAllFields);
        return;
      }
      loading := true;
      var sent, response := Api.Invoke(SignupCall(form), transport);
      b.Fetch(sent);
      ghost var sentEffects := b.effects;
      Settled(b, response);
      assert b.effects == sentEffects + SettledEffects(response);
      loading := false;
    }
  }

  /** The `await` onwards of `handleRegister`: what the page does with the settled call. */
  method Settled(b: Browser, o: Api.Outcome)
    modifies b
    ensures b.storage == SettledStore(old(b.storage), o)
    ensures b.effects == old(b.effects) + SettledEffects(o)
  {
    match o {
      case Rejected(error) =>
        b.Notify(Failure, if error.message != "" then error.message else RegistrationFallback);
      case Resolved(v) =>
        if v.JNull? {
          b.Notify(Failure, Api.NullRead("doctor").message);
        } else {
          b.SetItem(DataKey(Doctor), StoredJson(Prop(v, "doctor")));
          b.SetItem(AccessKey(Doctor), Coerce(Prop(v, "access_token")));
          b.SetItem(RefreshKey(Doctor), Coerce(Prop(v, "refresh_token")));
          b.Notify(Success, RegistrationSuccessful);
          b.Go(Dashboard);
        }
    }
  }

  /** Specialization and license number are required like the other fields. */
  lemma EveryFieldRequired(f: DoctorForm)
    requires f.password == f.confirmPassword
    ensures f.specialization == "" ==> Validate(f) == Some(FillInAllFields)
    ensures f.licenseNumber == "" ==> Validate(f) == Some(FillInAllFields)
  {
  }

  /** The payload: license number as `medical_license_number`, an empty hospital, no confirmation. */
  lemma PayloadMapsFields(f: DoctorForm)
    ensures var fields := Payload(f).fields;
      Lookup(fields, "full_name") == Some(JStr(f.name)) &&
      Lookup(fields, "medical_license_number") == Some(JStr(f.licenseNumber)) &&
      Lookup(fields, "hospital_name") == Some(JStr("")) &&
      forall i :: 0 <= i < |fields| ==> fields[i].0 != "confirmPassword"
  {
    var fields := Payload(f).fields;
    LookupDistinct(fields, 0);
    LookupDistinct(fields, 4);
    LookupDistinct(fields, 6);
    forall i | 0 <= i < |fields|
      ensures fields[i].0 != "confirmPassword"
    {
      assert i == 0 || i == 1 || i == 2 || i == 3 || i == 4 || i == 5 || i == 6;
    }
  }

  /** A failed signup, or a form that fails validation, writes nothing. */
  lemma FailureWritesNothing(m: Store, f: DoctorForm, o: Api.Outcome)
    requires Validate(f).Some? || Registered(o).None?
    ensures RegisterStore(m, f, o) == m
  {
  }

  /** Only the doctor's keys are written. */
  lemma RegisterWritesOnlyDoctorKeys(m: Store, f: DoctorForm, o: Api.Outcome, k: string)
    requires k !in SessionKeys(Doctor)
    ensures k in RegisterStore(m, f, o) <==> k in m
    ensures k in m ==> RegisterStore(m, f, o)[k] == m[k]
  {
  }

  /** Every failure toast carries a non-empty message. */
  lemma FailureMessageNonEmpty(f: DoctorForm, o: Api.Outcome)
    requires Validate(f).None? && Registered(o).None?
    ensures Api.MessageOr(FailureOf(o), RegistrationFallback) != ""
  {
  }

  /**
   * A valid form whose signup resolved to a non-null response writes all
   * three doctor keys (the tokens as `String()` of the response's fields, the
   * profile as JSON text), then toasts success and opens the dashboard.
   */
  lemma SuccessWritesDoctorSession(m: Store, f: DoctorForm, v: Json)
    requires Validate(f).None? && !v.JNull?
    ensures var m' := RegisterStore(m, f, Api.Resolved(v));
      m'.Keys == m.Keys + SessionKeys(Doctor) &&
      m'[AccessKey(Doctor)] == Coerce(Prop(v, "access_token")) &&
      m'[RefreshKey(Doctor)] == Coerce(Prop(v, "refresh_token")) &&
      m'[DataKey(Doctor)] == StoredJson(Prop(v, "doctor"))
    ensures var e := RegisterEffects(f, Api.Resolved(v));
      |e| == 3 && e[0] == Send(Api.RequestFor(SignupCall(f))) &&
      e[1] == Toast(Success, RegistrationSuccessful) && e[2] == Navigate(Dashboard)
  {
  }

  /**
   * A signup that returns a string token and a doctor profile with a truthy
   * `id` opens the doctor guard, provided `JSON.parse` reads back what
   * `JSON.stringify` wrote for that profile.
   */
  lemma RegisterOpensDoctorGuard(m: Store, f: DoctorForm, v: Json, token: string, profile: Json,
                                 parse: string -> Option<Json>)
    requires Validate(f).None?
    requires v.JObj? && Prop(v, "access_token") == Some(JStr(token)) && token != ""
    requires Prop(v, "doctor") == Some(profile) && !profile.JNull? && TruthyProp(Prop(profile, "id"))
    requires parse(Stringify(profile)) == Some(profile)
    ensures ProtectedRoute.Decide(RegisterStore(m, f, Api.Resolved(v)), Doctor, parse) == ProtectedRoute.Allow
  {
    StringifyStart(profile);
    var m' := RegisterStore(m, f, Api.Resolved(v));
    assert m'[AccessKey(Doctor)] == token;
    assert m'[DataKey(Doctor)] == Stringify(profile);
  }
}
