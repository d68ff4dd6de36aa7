/**
 * The browser's API client: every endpoint's request (method, URL, headers,
 * body), the normalisation of a response into a resolved value or a thrown
 * error, and the mapping of a transport failure to the fixed network-error
 * message. `fetch` itself is not modelled: what it produced is a parameter.
 */
module Api {
  import opened Wrappers
  import opened Js

  const ApiBaseUrl: string := "http://localhost:8000/api"

  const NetworkErrorPrefix: string := "Network error: "

  const NetworkErrorMessage: string :=
    NetworkErrorPrefix + "Failed to connect to the server. Please check your internet connection and ensure the backend server is running."

  datatype Method = GET | POST | DELETE

  type Headers = seq<(string, string)>

  datatype Request = Request(verb: Method, url: string, headers: Headers, body: Option<string>)

  const ContentTypeJson: (string, string) := ("Content-Type", "application/json")

  function Bearer(token: string): (string, string) {
    ("Authorization", "Bearer " + token)
  }

  /** `getAuthHeaders(token)`. */
  function AuthHeaders(token: string): Headers {
    [ContentTypeJson, Bearer(token)]
  }

  /** One call of one of the client's endpoints, with the arguments the caller passes. */
  datatype Call =
    | PatientSignup(data: Json)
    | PatientLogin(data: Json)
    | PatientRefreshToken(refreshToken: string)
    | DoctorSignup(data: Json)
    | DoctorLogin(data: Json)
    | DoctorRefreshToken(refreshToken: string)
    | PatientGetAppointments(token: string, patientId: string)
    | PatientGetPrescriptions(token: string, patientId: string)
    | PatientGetMedicalHistory(token: string, patientId: string)
    | PatientGetAuditLogs(token: string, patientId: string)
    | PatientGetDoctors(token: string, patientId: string)
    | DoctorGetAppointments(token: string, doctorId: string)
    | DoctorGetPrescriptions(token: string, doctorId: string)
    | DoctorGetPatients(token: string, doctorId: string)
    | DoctorCreatePrescription(token: string, data: Json)
    | DoctorCreateAppointment(token: string, data: Json)

  /** Signup and login: unauthenticated POSTs with a JSON body. */
  predicate IsCredentialCall(c: Call) {
    c.PatientSignup? || c.PatientLogin? || c.DoctorSignup? || c.DoctorLogin?
  }

  predicate IsRefreshCall(c: Call) {
    c.PatientRefreshToken? || c.DoctorRefreshToken?
  }

  /** The authenticated GETs whose last path segment is the caller's id. */
  predicate IsListCall(c: Call) {
    c.PatientGetAppointments? || c.PatientGetPrescriptions? || c.PatientGetMedicalHistory? ||
    c.PatientGetAuditLogs? || c.PatientGetDoctors? ||
    c.DoctorGetAppointments? || c.DoctorGetPrescriptions? || c.DoctorGetPatients?
  }

  predicate IsCreateCall(c: Call) {
    c.DoctorCreatePrescription? || c.DoctorCreateAppointment?
  }

  /** The id a list call is about. */
  function OwnerId(c: Call): string
    requires IsListCall(c)
  {
    if c.PatientGetAppointments? || c.PatientGetPrescriptions? || c.PatientGetMedicalHistory? ||
       c.PatientGetAuditLogs? || c.PatientGetDoctors?
    then c.patientId
    else c.doctorId
  }

  /** The path after the base URL. */
  function Path(c: Call): (p: string)
    ensures IsListCall(c) ==>
      |p| > |OwnerId(c)| && p[|p| - |OwnerId(c)|..] == OwnerId(c) && p[|p| - |OwnerId(c)| - 1] == '/'
  {
    match c
    case PatientSignup(_) => "/patients/signup"
    case PatientLogin(_) => "/patients/login"
    case PatientRefreshToken(_) => "/patients/refresh-token"
    case DoctorSignup(_) => "/doctors/signup"
    case DoctorLogin(_) => "/doctors/login"
    case DoctorRefreshToken(_) => "/doctors/refresh-token"
    case PatientGetAppointments(_, id) => "/appointments/patient/" + id
    case PatientGetPrescriptions(_, id) => "/prescriptions/patient/" + id
    case PatientGetMedicalHistory(_, id) => "/lab-reports/patient/" + id
    case PatientGetAuditLogs(_, id) => "/audit-logs/actor/" + id
    case PatientGetDoctors(_, id) => "/doctor-patient/patient/" + id
    case DoctorGetAppointments(_, id) => "/appointments/doctor/" + id
    case DoctorGetPrescriptions(_, id) => "/prescriptions/doctor/" + id
    case DoctorGetPatients(_, id) => "/doctor-patient/doctor/" + id
    case DoctorCreatePrescription(_, _) => "/prescriptions/"
    case DoctorCreateAppointment(_, _) => "/appointments/"
  }

  /** The request `fetch` is given for a call. */
  function RequestFor(c: Call): (r: Request)
    ensures r.url == ApiBaseUrl + Path(c)
    ensures IsCredentialCall(c) ==>
      r.verb == POST && r.headers == [ContentTypeJson] && r.body == Some(Stringify(c.data))
    ensures IsRefreshCall(c) ==>
      r.verb == GET && r.headers == [Bearer(c.refreshToken)] && r.body == None
    ensures IsListCall(c) ==>
      r.verb == GET && r.headers == AuthHeaders(c.token) && r.body == None
    ensures IsCreateCall(c) ==>
      r.verb == POST && r.headers == AuthHeaders(c.token) && r.body == Some(Stringify(c.data))
  {
    var url := ApiBaseUrl + Path(c);
    if IsCredentialCall(c) then Request(POST, url, [ContentTypeJson], Some(Stringify(c.data)))
    else if IsRefreshCall(c) then Request(GET, url, [Bearer(c.refreshToken)], None)
    else if IsCreateCall(c) then Request(POST, url, AuthHeaders(c.token), Some(Stringify(c.data)))
    else Request(GET, url, AuthHeaders(c.token), None)
  }

  /** What `response.json()` gives: a value, or the SyntaxError message of a body that is not JSON. */
  datatype Body = Parsed(value: Json) | Unparseable(syntaxMessage: string)

  datatype Response = Response(status: int, statusText: string, body: Body)

  /** `response.ok`. */
  predicate Ok(r: Response) {
    200 <= r.status <= 299
  }

  datatype ErrorName = Error | TypeError | SyntaxError | OtherError(name: string)

  /** A thrown JavaScript error: its class and its `message`. */
  datatype Thrown = Thrown(name: ErrorName, message: string)

  /** How an endpoint's promise settles. */
  datatype Outcome = Resolved(value: Json) | Rejected(error: Thrown)

  /** What `fetch` did: the server answered, or the promise rejected. */
  datatype Transport = Responded(response: Response) | Failed(error: Thrown)

  function StatusLine(status: int): string {
    "HTTP error! status: " + IntToString(status)
  }

  /** The message for a `detail` or `message` value: a string as it is, anything else as JSON text. */
  function Describe(v: Json): (r: string)
    ensures v.JStr? ==> r == v.s
    ensures !v.JStr? ==> r == Stringify(v) && r != "[object Object]"
  {
    StringifyIsNotObjectCoercion(v);
    if v.JStr? then v.s else Stringify(v)
  }

  /**
   * The message of the Error thrown for a non-ok response. A body that is not
   * JSON, and a `null` body (reading `.detail` of `null` throws), fall back to
   * the status text, or to the status line when the status text is empty.
   */
  function ErrorMessage(status: int, statusText: string, body: Body): string {
    var fallback := StatusLine(status);
    if body.Unparseable? || body.value.JNull? then
      (if statusText != "" then statusText else fallback)
    else
      var v := body.value;
      if TruthyProp(Prop(v, "detail")) then Describe(Prop(v, "detail").value)
      else if TruthyProp(Prop(v, "message")) then Describe(Prop(v, "message").value)
      else if v.JStr? then v.s
      else if HasKeys(v) then Stringify(v)
      else fallback
  }

  /** `handleResponse(response)`. */
  function HandleResponse(r: Response): (o: Outcome)
    ensures Ok(r) && r.body.Parsed? ==> o == Resolved(r.body.value)
    ensures Ok(r) && r.body.Unparseable? ==> o == Rejected(Thrown(SyntaxError, r.body.syntaxMessage))
    ensures !Ok(r) ==> o == Rejected(Thrown(Error, ErrorMessage(r.status, r.statusText, r.body)))
  {
    if !Ok(r) then Rejected(Thrown(Error, ErrorMessage(r.status, r.statusText, r.body)))
    else match r.body
      case Parsed(v) => Resolved(v)
      case Unparseable(m) => Rejected(Thrown(SyntaxError, m))
  }

  /** The one failure the endpoints' `catch` rewrites. */
  predicate IsFetchTypeError(e: Thrown) {
    e.name == TypeError && Contains(e.message, "fetch")
  }

  /**
   * How an endpoint's promise settles. `handleResponse` is returned, not
   * awaited, inside the `try`, so its rejections pass the `catch` untouched;
   * only a rejected `fetch` reaches it.
   */
  function Settle(t: Transport): (o: Outcome)
    ensures t.Responded? ==> o == HandleResponse(t.response)
    ensures t.Failed? && IsFetchTypeError(t.error) ==> o == Rejected(Thrown(Error, NetworkErrorMessage))
    ensures t.Failed? && !IsFetchTypeError(t.error) ==> o == Rejected(t.error)
  {
    match t
    case Responded(r) => HandleResponse(r)
    case Failed(e) => if IsFetchTypeError(e) then Rejected(Thrown(Error, NetworkErrorMessage)) else Rejected(e)
  }

  /** `error.message || fallback` in a page's `catch`. */
  function MessageOr(e: Thrown, fallback: string): string {
    if e.message != "" then e.message else fallback
  }

  /** The TypeError a property read on `null` throws. */
  function NullRead(prop: string): Thrown {
    Thrown(TypeError, "Cannot read properties of null (reading '" + prop + "')")
  }

  /** One endpoint call: build the request, await the transport, normalise. */
  method Invoke(c: Call, transport: Transport) returns (sent: Request, result: Outcome)
    ensures sent == RequestFor(c)
    ensures result == Settle(transport)
  {
    sent := RequestFor(c);
    result := Settle(transport);
  }

  /**
   * The message of a non-ok response is empty exactly when the body is the
   * JSON string "": every other branch yields a non-empty status text, status
   * line, string or JSON text.
   */
  lemma ErrorMessageEmptyIff(status: int, statusText: string, body: Body)
    ensures ErrorMessage(status, statusText, body) == "" <==> body == Parsed(JStr(""))
  {
    assert |StatusLine(status)| > 0;
    if body.Parsed? && !body.value.JNull? {
      var v := body.value;
      var d := Prop(v, "detail");
      var m := Prop(v, "message");
      if TruthyProp(d) {
        StringifyStart(d.value);
      } else if TruthyProp(m) {
        StringifyStart(m.value);
      } else if !v.JStr? && HasKeys(v) {
        StringifyStart(v);
      }
    }
  }

  /**
   * A non-ok response's message is "[object Object]" only when the server
   * itself sent that text (as status text, or as a string the chain reports):
   * the chain never coerces an object with `String(...)`.
   */
  lemma ErrorMessageNeverCoercesObject(status: int, statusText: string, body: Body)
    ensures ErrorMessage(status, statusText, body) == "[object Object]" ==>
      statusText == "[object Object]" || ServerText(body, "[object Object]")
  {
    if body.Parsed? && !body.value.JNull? {
      var v := body.value;
      var d := Prop(v, "detail");
      var m := Prop(v, "message");
      if TruthyProp(d) {
        StringifyIsNotObjectCoercion(d.value);
      } else if TruthyProp(m) {
        StringifyIsNotObjectCoercion(m.value);
      } else if !v.JStr? && HasKeys(v) {
        StringifyIsNotObjectCoercion(v);
      }
    }
    assert StatusLine(status)[0] == 'H';
  }

  /** `text` occurs in the body as a string the message chain may report verbatim. */
  predicate ServerText(body: Body, text: string) {
    body.Parsed? && !body.value.JNull? &&
    (body.value == JStr(text) ||
     Prop(body.value, "detail") == Some(JStr(text)) ||
     Prop(body.value, "message") == Some(JStr(text)))
  }

  /**
   * A non-ok response's message is a text that neither JSON text nor the
   * status line can start with only when the server itself sent that text,
   * as status text or as a string the chain reports.
   */
  lemma ErrorMessageFromServer(status: int, statusText: string, body: Body, text: string)
    requires |text| > 0 && text[0] != 'H' && !JsonStart(text[0])
    ensures ErrorMessage(status, statusText, body) == text ==>
      statusText == text || ServerText(body, text)
  {
    if body.Parsed? && !body.value.JNull? {
      var v := body.value;
      var d := Prop(v, "detail");
      var m := Prop(v, "message");
      if TruthyProp(d) {
        StringifyStart(d.value);
      } else if TruthyProp(m) {
        StringifyStart(m.value);
      } else if !v.JStr? && HasKeys(v) {
        StringifyStart(v);
      }
    }
    assert StatusLine(status)[0] == 'H';
  }

  /**
   * What an endpoint's rejection message tells about its cause. The
   * network-error message comes from a `fetch` TypeError, or from an error
   * or a server that already carried that very text. An empty message comes
   * from a failing response whose body is the JSON string "", or from a
   * rethrown error without a message. "[object Object]" is never produced
   * by coercing an object.
   */
  lemma SettleMessageOrigin(t: Transport)
    ensures Settle(t) == Rejected(Thrown(Error, NetworkErrorMessage)) ==>
      (t.Failed? && (IsFetchTypeError(t.error) || t.error == Thrown(Error, NetworkErrorMessage))) ||
      (t.Responded? && !Ok(t.response) &&
       (t.response.statusText == NetworkErrorMessage || ServerText(t.response.body, NetworkErrorMessage)))
    ensures Settle(t).Rejected? && Settle(t).error.message == "" ==>
      (t.Responded? && !Ok(t.response) && t.response.body == Parsed(JStr(""))) ||
      (t.Responded? && Ok(t.response) && t.response.body == Unparseable("")) ||
      (t.Failed? && t.error.message == "")
    ensures Settle(t).Rejected? && Settle(t).error.message == "[object Object]" ==>
      (t.Responded? && !Ok(t.response) &&
       (t.response.statusText == "[object Object]" || ServerText(t.response.body, "[object Object]"))) ||
      (t.Responded? && Ok(t.response) && t.response.body == Unparseable("[object Object]")) ||
      (t.Failed? && t.error.message == "[object Object]")
  {
    if t.Responded? && !Ok(t.response) {
      var r := t.response;
      assert NetworkErrorMessage[0] == NetworkErrorPrefix[0] == 'N';
      ErrorMessageFromServer(r.status, r.statusText, r.body, NetworkErrorMessage);
      ErrorMessageEmptyIff(r.status, r.statusText, r.body);
      ErrorMessageNeverCoercesObject(r.status, r.statusText, r.body);
    } else if t.Failed? {
      assert NetworkErrorMessage[0] == 'N';
    }
  }
}
