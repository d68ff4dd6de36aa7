/**
 * The patient login page: `handleLogin` checks that both fields are filled,
 * calls the patient login endpoint, and on a response with a truthy
 * `access_token` writes the patient session and goes to the dashboard.
 * What the transport did is a parameter; the waiting itself is not modelled.
 */
module PatientLogin {
  import opened Wrappers
  import opened Js
  import opened Storage
  import Api
  import ProtectedRoute

  const FillInAllFields: string := "Please fill in all fields"
  const LoginSuccessful: string := "Login successful!"
  const LoginFailed: string := "Login failed. Please try again."
  const LoginFallback: string := "Login failed. Please check your credentials and try again."
  const Dashboard: string := "/patient/dashboard"

  /** `patientAuthApi.login({ email, password })`. */
  function LoginCall(email: string, password: string): Api.Call {
    Api.PatientLogin(JObj([("email", JStr(email)), ("password", JStr(password))]))
  }

  predicate Filled(email: string, password: string) {
    email != "" && password != ""
  }

  /** The response carries a truthy `access_token` (reading it on `null` throws instead). */
  predicate Accepted(o: Api.Outcome) {
    o.Resolved? && !o.value.JNull? && TruthyProp(Prop(o.value, "access_token"))
  }

  /** The store once the call has settled: the three patient keys are written only for an accepted response. */
  function SettledStore(m: Store, o: Api.Outcome): Store {
    if Accepted(o) then
      var v := o.value;
      WriteSession(m, Patient, Coerce(Prop(v, "access_token")), Coerce(Prop(v, "refresh_token")), StoredJson(Prop(v, "patient")))
    else m
  }

  /** The store after the call. */
  function LoginStore(m: Store, email: string, password: string, o: Api.Outcome): Store {
    if Filled(email, password) then SettledStore(m, o) else m
  }

  /** The message shown when the call does not end in a login. */
  function FailureMessage(o: Api.Outcome): string
    requires !Accepted(o)
  {
    match o
    case Rejected(e) => Api.MessageOr(e, LoginFallback)
    case Resolved(v) => if v.JNull? then Api.NullRead("access_token").message else LoginFailed
  }

  /** What the page shows once the call has settled. */
  function SettledEffects(o: Api.Outcome): seq<Effect> {
    if Accepted(o) then [Toast(Success, LoginSuccessful), Navigate(Dashboard)]
    else [Toast(Failure, FailureMessage(o))]
  }

  /** Everything the page does besides writing storage, in order. */
  function LoginEffects(email: string, password: string, o: Api.Outcome): seq<Effect> {
    if !Filled(email, password) then [Toast(Failure, FillInAllFields)]
    else [Send(Api.RequestFor(LoginCall(email, password)))] + SettledEffects(o)
  }

  class LoginPage {
    var email: string
    var password: string
    var loading: bool

    /** The page with its two inputs filled in as given. */
    constructor (email: string, password: string)
      ensures this.email == email && this.password == password && !loading
    {
      this.email := email;
      this.password := password;
      loading := false;
    }

    /** `handleLogin`, with `transport` what `fetch` produced. */
    method HandleLogin(b: Browser, transport: Api.Transport)
      modifies this, b
      ensures email == old(email) && password == old(password)
      ensures loading == (if Filled(email, password) then false else old(loading))
      ensures b.storage == LoginStore(old(b.storage), email, password, Api.Settle(transport))
      ensures b.effects == old(b.effects) + LoginEffects(email, password, Api.Settle(transport))
    {
      if email == "" || password == "" {
        b.Notify(Failure, FillInAllFields);
        return;
      }
      loading := true;
      var sent, response := Api.Invoke(LoginCall(email, password), transport);
      b.Fetch(sent);
      ghost var sentEffects := b.effects;
      Settled(b, response);
      assert b.effects == sentEffects + SettledEffects(response);
      loading := false;
    }
  }

  /** The `await` onwards of `handleLogin`: what the page does with the settled call. */
  method Settled(b: Browser, o: Api.Outcome)
    modifies b
    ensures b.storage == SettledStore(old(b.storage), o)
    ensures b.effects == old(b.effects) + SettledEffects(o)
  {
    match o {
      case Rejected(error) =>
        b.Notify(Failure, if error.message != "" then error.message else LoginFallback);
      case Resolved(v) =>
        if v.JNull? {
          b.Notify(Failure, Api.NullRead("access_token").message);
        } else if TruthyProp(Prop(v, "access_token")) {
          ghost var before := b.storage;
          b.SetItem(AccessKey(Patient), Coerce(Prop(v, "access_token")));
          b.SetItem(RefreshKey(Patient), Coerce(Prop(v, "refresh_token")));
          b.SetItem(DataKey(Patient), StoredJson(Prop(v, "patient")));
          WriteOrderIrrelevant(before, Patient, Coerce(Prop(v, "access_token")),
                               Coerce(Prop(v, "refresh_token")), StoredJson(Prop(v, "patient")));
          b.Notify(Success, LoginSuccessful);
          b.Go(Dashboard);
        } else {
          b.Notify(Failure, LoginFailed);
        }
    }
  }

  /** With a field empty, no request is sent and storage is untouched. */
  lemma EmptyFieldSendsNothing(m: Store, email: string, password: string, o: Api.Outcome)
    requires !Filled(email, password)
    ensures LoginStore(m, email, password, o) == m
    ensures forall e :: e in LoginEffects(email, password, o) ==> !e.Send?
  {
  }

  /** The request is the patient login POST with the two credentials as its JSON body. */
  lemma LoginRequestShape(email: string, password: string)
    ensures var r := Api.RequestFor(LoginCall(email, password));
      r.verb == Api.POST && r.url == Api.ApiBaseUrl + "/patients/login" &&
      r.headers == [Api.ContentTypeJson] &&
      r.body == Some(Stringify(JObj([("email", JStr(email)), ("password", JStr(password))])))
  {
  }

  /** Only the patient's keys are ever written; every other key keeps its value. */
  lemma LoginWritesOnlyPatientKeys(m: Store, email: string, password: string, o: Api.Outcome, k: string)
    requires k !in SessionKeys(Patient)
    ensures k in LoginStore(m, email, password, o) <==> k in m
    ensures k in m ==> LoginStore(m, email, password, o)[k] == m[k]
  {
  }

  /** Every failure toast carries a non-empty message, and a failure writes nothing. */
  lemma FailureShowsMessage(m: Store, email: string, password: string, o: Api.Outcome)
    requires Filled(email, password) && !Accepted(o)
    ensures LoginStore(m, email, password, o) == m
    ensures FailureMessage(o) != ""
    ensures LoginEffects(email, password, o)[|LoginEffects(email, password, o)| - 1] == Toast(Failure, FailureMessage(o))
  {
  }

  /**
   * A login that returns a string token and a patient profile with a truthy
   * `id` opens the patient guard, provided `JSON.parse` reads back what
   * `JSON.stringify` wrote for that profile.
   */
  lemma LoginOpensPatientGuard(m: Store, email: string, password: string, v: Json, token: string, profile: Json,
                               parse: string -> Option<Json>)
    requires Filled(email, password)
    requires v.JObj? && Prop(v, "access_token") == Some(JStr(token)) && token != ""
    requires Prop(v, "patient") == Some(profile) && !profile.JNull? && TruthyProp(Prop(profile, "id"))
    requires parse(Stringify(profile)) == Some(profile)
    ensures ProtectedRoute.Decide(LoginStore(m, email, password, Api.Resolved(v)), Patient, parse) == ProtectedRoute.Allow
  {
    StringifyStart(profile);
    var m' := LoginStore(m, email, password, Api.Resolved(v));
    assert m'[AccessKey(Patient)] == token;
    assert m'[DataKey(Patient)] == Stringify(profile);
  }
}
