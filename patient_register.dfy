/**
 * The patient registration page: `handleRegister` rejects a password
 * mismatch, then an empty required field, builds the signup payload
 * (optional fields become `null`), and on a resolved signup writes the
 * patient session unconditionally. `new Date(...).toISOString()` is the
 * parameter `toIso`, `None` for text that is not a valid date.
 */
module PatientRegister {
  import opened Wrappers
  import opened Js
  import opened Storage
  import Api
  import ProtectedRoute

  datatype RegisterForm = RegisterForm(
    name: string, email: string, phone: string, password: string, confirmPassword: string,
    dateOfBirth: string, gender: string, address: string)

  const PasswordsDontMatch: string := "Passwords don't match"
  const FillInRequired: string := "Please fill in all required fields"
  const RegistrationSuccessful: string := "Registration successful!"
  const RegistrationFallback: string := "Registration failed. Please try again."
  const RegisterNetworkMessage: string :=
    "Network error: Failed to connect to the server. Please check your internet connection and try again."
  const RegisterGenericMessage: string :=
    "Registration failed due to a network or server error. Please try again."
  const Dashboard: string := "/patient/dashboard"

  /** The five fields that must be filled: name, email, phone, password and its confirmation. */
  predicate RequiredFilled(f: RegisterForm) {
    f.name != "" && f.email != "" && f.phone != "" && f.password != "" && f.confirmPassword != ""
  }

  /** The validation error, checked in order: mismatch first, then the required fields. */
  function Validate(f: RegisterForm): (r: Option<string>)
    ensures r == Some(PasswordsDontMatch) <==> f.password != f.confirmPassword
    ensures r == Some(FillInRequired) <==> f.password == f.confirmPassword && !RequiredFilled(f)
    ensures r == None <==> f.password == f.confirmPassword && RequiredFilled(f)
  {
    if f.password != f.confirmPassword then Some(PasswordsDontMatch)
    else if !RequiredFilled(f) then Some(FillInRequired)
    else None
  }

  /** `date_of_birth`: `null` for an empty field or an invalid date, otherwise its ISO text. */
  function DateOfBirth(text: string, toIso: string -> Option<string>): (d: Json)
    ensures d.JNull? || d.JStr?
    ensures d.JStr? <==> text != "" && toIso(text).Some?
    ensures d.JStr? ==> d.s == toIso(text).value
  {
    var dateOfBirth := JNull;
    if text == "" then dateOfBirth
    else match toIso(text)
      case None => dateOfBirth
      case Some(iso) => JStr(iso)
  }

  /** `x || null` for a text field. */
  function OrNull(s: string): Json {
    if s != "" then JStr(s) else JNull
  }

  /** The signup payload. */
  function Payload(f: RegisterForm, toIso: string -> Option<string>): Json {
    JObj([("full_name", JStr(f.name)),
          ("email", JStr(f.email)),
          ("phone", JStr(f.phone)),
          ("password", JStr(f.password)),
          ("date_of_birth", DateOfBirth(f.dateOfBirth, toIso)),
          ("gender", OrNull(f.gender)),
          ("address", OrNull(f.address))])
  }

  function NameText(n: Api.ErrorName): string {
    match n
    case Error => "Error"
    case TypeError => "TypeError"
    case SyntaxError => "SyntaxError"
    case OtherError(name) => name
  }

  /** `error.toString()` of an Error: its name, its message, or both joined by ": ". */
  function ErrorToString(e: Api.Thrown): string {
    var name := NameText(e.name);
    if name == "" then e.message
    else if e.message == "" then name
    else name + ": " + e.message
  }

  /** The message the `catch` shows. */
  function ErrorText(e: Api.Thrown): (s: string)
    ensures e.message != "" ==> s == e.message
  {
    if e.message != "" then e.message
    else if ErrorToString(e) != "[object Object]" then ErrorToString(e)
    else if NameText(e.name) == "TypeError" && Contains(e.message, "fetch") then RegisterNetworkMessage
    else RegisterGenericMessage
  }

  /** How the signup settles once the page has read `response.patient` (a `null` response throws there). */
  datatype Completion = Registered(response: Json) | Failed(error: Api.Thrown)

  function Complete(o: Api.Outcome): (c: Completion)
    ensures c.Registered? <==> o.Resolved? && !o.value.JNull?
    ensures c.Registered? ==> c.response == o.value
    ensures o.Rejected? ==> c == Failed(o.error)
    ensures o == Api.Resolved(JNull) ==> c == Failed(Api.NullRead("patient"))
  {
    match o
    case Rejected(e) => Failed(e)
    case Resolved(v) => if v.JNull? then Failed(Api.NullRead("patient")) else Registered(v)
  }

  function SignupCall(f: RegisterForm, toIso: string -> Option<string>): Api.Call {
    Api.PatientSignup(Payload(f, toIso))
  }

  /** The store once the call has settled: the patient session is written only on a completed registration. */
  function SettledStore(m: Store, o: Api.Outcome): Store {
    match Complete(o)
    case Registered(v) =>
      WriteSession(m, Patient, Coerce(Prop(v, "access_token")), Coerce(Prop(v, "refresh_token")), StoredJson(Prop(v, "patient")))
    case Failed(_) => m
  }

  function RegisterStore(m: Store, f: RegisterForm, o: Api.Outcome): Store {
    if Validate(f).None? then SettledStore(m, o) else m
  }

  /** What the page shows once the call has settled. */
  function SettledEffects(o: Api.Outcome): seq<Effect> {
    match Complete(o)
    case Registered(_) => [Toast(Success, RegistrationSuccessful), Navigate(Dashboard)]
    case Failed(e) => [Toast(Failure, ErrorText(e))]
  }

  function RegisterEffects(f: RegisterForm, toIso: string -> Option<string>, o: Api.Outcome): seq<Effect> {
    match Validate(f)
    case Some(problem) => [Toast(Failure, problem)]
    case None => [Send(Api.RequestFor(SignupCall(f, toIso)))] + SettledEffects(o)
  }

  class RegisterPage {
    var form: RegisterForm
    var loading: bool

    constructor (form: RegisterForm)
      ensures this.form == form && !loading
    {
      this.form := form;
      loading := false;
    }

    /** `handleRegister`, with `transport` what `fetch` produced. */
    method HandleRegister(b: Browser, toIso: string -> Option<string>, transport: Api.Transport)
      modifies this, b
      ensures form == old(form)
      ensures loading == (if Validate(form).None? then false else old(loading))
      ensures b.storage == RegisterStore(old(b.storage), form, Api.Settle(transport))
      ensures b.effects == old(b.effects) + RegisterEffects(form, toIso, Api.Settle(transport))
    {
      if form.password != form.confirmPassword {
        b.Notify(Failure, PasswordsDontMatch);
        return;
      }
      if !RequiredFilled(form) {
        b.Notify(Failure, FillInRequired);
        return;
      }
      loading := true;
      var sent, response := Api.Invoke(SignupCall(form, toIso), transport);
      b.Fetch(sent);
      ghost var sentEffects := b.effects;
      Settled(b, response);
      assert b.effects == sentEffects + SettledEffects(response);
      loading := false;
    }
  }

  /** The `await` onwards of `handleRegister`: what the page does with the settled call. */
  method Settled(b: Browser, o: Api.Outcome)
    modifies b
    ensures b.storage == SettledStore(old(b.storage), o)
    ensures b.effects == old(b.effects) + SettledEffects(o)
  {
    var done := Complete(o);
    match done {
      case Failed(error) =>
        b.Notify(Failure, ErrorText(error));
      case Registered(v) =>
        b.SetItem(DataKey(Patient), StoredJson(Prop(v, "patient")));
        b.SetItem(AccessKey(Patient), Coerce(Prop(v, "access_token")));
        b.SetItem(RefreshKey(Patient), Coerce(Prop(v, "refresh_token")));
        b.Notify(Success, RegistrationSuccessful);
        b.Go(Dashboard);
    }
  }

  /** A form that fails validation sends nothing and writes nothing. */
  lemma InvalidFormSendsNothing(m: Store, f: RegisterForm, toIso: string -> Option<string>, o: Api.Outcome)
    requires Validate(f).Some?
    ensures RegisterStore(m, f, o) == m
    ensures RegisterEffects(f, toIso, o) == [Toast(Failure, Validate(f).value)]
  {
  }

  /** A mismatch is reported even when required fields are empty too. */
  lemma MismatchReportedFirst(f: RegisterForm)
    requires f.password != f.confirmPassword
    ensures Validate(f) == Some(PasswordsDontMatch)
  {
  }

  /** Date of birth, gender and address may be empty. */
  lemma OptionalFieldsNotRequired(f: RegisterForm, dateOfBirth: string, gender: string, address: string)
    requires Validate(f).None?
    ensures Validate(f.(dateOfBirth := dateOfBirth, gender := gender, address := address)).None?
  {
  }

  /** The payload's fields: `name` goes out as `full_name`, empty optional fields as `null`, and the confirmation is never sent. */
  lemma PayloadMapsFields(f: RegisterForm, toIso: string -> Option<string>)
    ensures var fields := Payload(f, toIso).fields;
      Lookup(fields, "full_name") == Some(JStr(f.name)) &&
      Lookup(fields, "password") == Some(JStr(f.password)) &&
      Lookup(fields, "gender") == Some(if f.gender == "" then JNull else JStr(f.gender)) &&
      Lookup(fields, "address") == Some(if f.address == "" then JNull else JStr(f.address)) &&
      Lookup(fields, "date_of_birth") == Some(DateOfBirth(f.dateOfBirth, toIso)) &&
      forall i :: 0 <= i < |fields| ==> fields[i].0 != "confirmPassword"
  {
    var fields := Payload(f, toIso).fields;
    LookupDistinct(fields, 0);
    LookupDistinct(fields, 3);
    LookupDistinct(fields, 4);
    LookupDistinct(fields, 5);
    LookupDistinct(fields, 6);
    forall i | 0 <= i < |fields|
      ensures fields[i].0 != "confirmPassword"
    {
      assert i == 0 || i == 1 || i == 2 || i == 3 || i == 4 || i == 5 || i == 6;
    }
  }

  /** The session is written only after the signup resolves with a value that is not `null`. */
  lemma SessionWrittenOnlyOnResolve(m: Store, f: RegisterForm, o: Api.Outcome)
    requires RegisterStore(m, f, o) != m
    ensures Validate(f).None? && o.Resolved? && !o.value.JNull?
  {
  }

  /**
   * The `catch` shows `error.message` when there is one; otherwise, for the
   * errors the client raises, the error's name. The first fallback is never
   * shown for them, and neither is the page's own network message.
   */
  lemma ErrorTextForClientErrors(e: Api.Thrown)
    requires !e.name.OtherError?
    ensures ErrorText(e) == (if e.message != "" then e.message else NameText(e.name))
    ensures e.message != RegistrationFallback ==> ErrorText(e) != RegistrationFallback
    ensures e.message != RegisterNetworkMessage ==> ErrorText(e) != RegisterNetworkMessage
  {
    if e.message == "" {
      assert NameText(e.name)[0] != RegistrationFallback[0];
    }
  }

  /**
   * The page's own network-error branch can never be taken: it is reached
   * only with an empty message, which never contains "fetch".
   */
  lemma PageNetworkBranchUnreachable(e: Api.Thrown)
    ensures ErrorText(e) == RegisterNetworkMessage ==> e.message == RegisterNetworkMessage || ErrorToString(e) == RegisterNetworkMessage
  {
    if e.message == "" && ErrorToString(e) == "[object Object]" {
      assert !Contains(e.message, "fetch");
    }
  }

  /**
   * A failed response whose body is the JSON string "" raises an Error with
   * an empty message, and the page shows "Error".
   */
  lemma EmptyStringBodyShowsErrorName(r: Api.Response)
    requires !Api.Ok(r) && r.body == Api.Parsed(JStr(""))
    ensures Complete(Api.Settle(Api.Responded(r))).Failed?
    ensures ErrorText(Complete(Api.Settle(Api.Responded(r))).error) == "Error"
  {
    Api.ErrorMessageEmptyIff(r.status, r.statusText, r.body);
  }

  /**
   * A resolved signup stores the text "undefined" for a token the response
   * lacks; the guard counts that text as a token.
   */
  lemma MissingTokenStoredAsUndefined(m: Store, f: RegisterForm, v: Json)
    requires Validate(f).None? && v.JObj? && Prop(v, "access_token").None?
    ensures RegisterStore(m, f, Api.Resolved(v))[AccessKey(Patient)] == "undefined"
    ensures Present(RegisterStore(m, f, Api.Resolved(v)), AccessKey(Patient))
  {
  }

  /**
   * A valid form whose signup resolved to a non-null response writes all
   * three patient keys (the tokens as `String()` of the response's fields,
   * the profile as JSON text), then toasts success and opens the dashboard.
   */
  lemma SuccessWritesPatientSession(m: Store, f: RegisterForm, toIso: string -> Option<string>, v: Json)
    requires Validate(f).None? && !v.JNull?
    ensures var m' := RegisterStore(m, f, Api.Resolved(v));
      m'.Keys == m.Keys + SessionKeys(Patient) &&
      m'[AccessKey(Patient)] == Coerce(Prop(v, "access_token")) &&
      m'[RefreshKey(Patient)] == Coerce(Prop(v, "refresh_token")) &&
      m'[DataKey(Patient)] == StoredJson(Prop(v, "patient"))
    ensures var e := RegisterEffects(f, toIso, Api.Resolved(v));
      |e| == 3 && e[0] == Send(Api.RequestFor(SignupCall(f, toIso))) &&
      e[1] == Toast(Success, RegistrationSuccessful) && e[2] == Navigate(Dashboard)
  {
  }

  /**
   * A signup that returns a string token and a patient profile with a truthy
   * `id` opens the patient guard, provided `JSON.parse` reads back what
   * `JSON.stringify` wrote for that profile.
   */
  lemma RegisterOpensPatientGuard(m: Store, f: RegisterForm, v: Json, token: string, profile: Json,
                                  parse: string -> Option<Json>)
    requires Validate(f).None?
    requires v.JObj? && Prop(v, "access_token") == Some(JStr(token)) && token != ""
    requires Prop(v, "patient") == Some(profile) && !profile.JNull? && TruthyProp(Prop(profile, "id"))
    requires parse(Stringify(profile)) == Some(profile)
    ensures ProtectedRoute.Decide(RegisterStore(m, f, Api.Resolved(v)), Patient, parse) == ProtectedRoute.Allow
  {
    StringifyStart(profile);
    var m' := RegisterStore(m, f, Api.Resolved(v));
    assert m'[AccessKey(Patient)] == token;
    assert m'[DataKey(Patient)] == Stringify(profile);
  }
}
