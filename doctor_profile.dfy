/**
 * The doctor profile page: the form is filled once from `doctor_data`
 * (hard-coded defaults when there is none or it does not parse), and the
 * account deletion asks for confirmation, needs the doctor's access token,
 * sends a DELETE and on success removes the doctor's three keys.
 */
module DoctorProfile {
  import opened Wrappers
  import opened Js
  import opened Storage
  import Api
  import ProtectedRoute

  datatype ProfileForm = ProfileForm(
    name: string, email: string, phone: string, specialization: string, licenseNumber: string,
    hospital: string, experience: string, education: string, bio: string)

  const Experience: string := "15 years"
  const Education: string := "MD from Harvard Medical School"
  const Bio: string := "Board-certified cardiologist with 15 years of experience in treating cardiovascular diseases."

  const DefaultForm: ProfileForm := ProfileForm(
    "Dr. Jane Smith", "jane.smith@hospital.com", "+1 (555) 234-5678", "Cardiology", "ML123456",
    "City Medical Center", Experience, Education, Bio)

  /** `parsedData.field || ""`: the field's text when it is truthy, otherwise empty. */
  function FieldText(p: Option<Json>): (s: string)
    ensures !TruthyProp(p) ==> s == ""
    ensures p.Some? && p.value.JStr? ==> s == p.value.s
  {
    if TruthyProp(p) then ToText(p.value) else ""
  }

  /** The form after the mount effect. */
  function InitialForm(m: Store, parse: string -> Option<Json>): (f: ProfileForm)
    ensures f.experience == Experience && f.education == Education && f.bio == Bio
    ensures !Present(m, DataKey(Doctor)) ==> f == DefaultForm
    ensures Present(m, DataKey(Doctor)) && (parse(m[DataKey(Doctor)]).None? || parse(m[DataKey(Doctor)]) == Some(JNull)) ==>
      f == DefaultForm
  {
    if !Present(m, DataKey(Doctor)) then DefaultForm
    else
      match parse(m[DataKey(Doctor)])
      case None => DefaultForm
      case Some(v) =>
        if v.JNull? then DefaultForm
        else ProfileForm(
          FieldText(Prop(v, "full_name")), FieldText(Prop(v, "email")), FieldText(Prop(v, "phone")),
          FieldText(Prop(v, "specialization")), FieldText(Prop(v, "medical_license_number")),
          FieldText(Prop(v, "hospital_name")), Experience, Education, Bio)
  }

  const ProfileUpdated: string := "Profile updated successfully!"
  const AuthenticationRequired: string := "Authentication required"
  const AccountDeleted: string := "Account deleted successfully"
  const DeleteFailed: string := "Failed to delete account"
  const DeleteFailedRetry: string := "Failed to delete account. Please try again."
  const DeleteAccountUrl: string := "http://localhost:8000/api/doctors/delete-account"

  /** The DELETE request, authorised by the bearer token alone. */
  function DeleteRequest(token: string): (r: Api.Request)
    ensures r.verb == Api.DELETE && r.url == Api.ApiBaseUrl + "/doctors/delete-account"
    ensures r.headers == [Api.Bearer(token)] && r.body == None
  {
    Api.Request(Api.DELETE, DeleteAccountUrl, [Api.Bearer(token)], None)
  }

  /** The server confirmed the deletion. */
  predicate Deleted(t: Api.Transport) {
    t.Responded? && Api.Ok(t.response)
  }

  /** The failure toast for a transport that did not delete the account. */
  function DeleteFailureMessage(t: Api.Transport): (s: string)
    requires !Deleted(t)
    ensures t.Failed? ==> s == DeleteFailedRetry
  {
    match t
    case Failed(_) => DeleteFailedRetry
    case Responded(r) =>
      match r.body
      case Unparseable(_) => DeleteFailedRetry
      case Parsed(errorData) =>
        if errorData.JNull? then DeleteFailedRetry
        else if TruthyProp(Prop(errorData, "detail")) then
          ToText(Prop(errorData, "detail").value)
        else DeleteFailed
  }

  function DeleteStore(m: Store, confirmed: bool, t: Api.Transport): Store {
    if confirmed && Present(m, AccessKey(Doctor)) && Deleted(t) then ClearSession(m, Doctor) else m
  }

  function DeleteEffects(m: Store, confirmed: bool, t: Api.Transport): seq<Effect> {
    if !confirmed then []
    else if !Present(m, AccessKey(Doctor)) then [Toast(Failure, AuthenticationRequired)]
    else
      [Send(DeleteRequest(m[AccessKey(Doctor)]))] +
      (if Deleted(t) then [Toast(Success, AccountDeleted), Navigate("/")]
       else [Toast(Failure, DeleteFailureMessage(t))])
  }

  class ProfilePage {
    var form: ProfileForm
    var isEditing: bool

    /** Mounting the page runs its effect once. */
    constructor Mount(b: Browser, parse: string -> Option<Json>)
      ensures form == InitialForm(b.storage, parse) && !isEditing
    {
      isEditing := false;
      form := DefaultForm;
      var doctorData := b.GetItem(DataKey(Doctor));
      if doctorData.Some? && doctorData.value != "" {
        var parsed := parse(doctorData.value);
        if parsed.Some? && !parsed.value.JNull? {
          var v := parsed.value;
          form := ProfileForm(
            FieldText(Prop(v, "full_name")), FieldText(Prop(v, "email")), FieldText(Prop(v, "phone")),
            FieldText(Prop(v, "specialization")), FieldText(Prop(v, "medical_license_number")),
            FieldText(Prop(v, "hospital_name")), Experience, Education, Bio);
        }
      }
    }

    /** `handleSave`: a toast and the end of editing; nothing is sent or stored. */
    method HandleSave(b: Browser)
      modifies this, b
      ensures form == old(form) && !isEditing
      ensures b.storage == old(b.storage) && b.effects == old(b.effects) + [Toast(Success, ProfileUpdated)]
    {
      b.Notify(Success, ProfileUpdated);
      isEditing := false;
    }

    /** `handleDeleteAccount`; `confirmed` is the answer to the confirm dialog. */
    method HandleDeleteAccount(b: Browser, confirmed: bool, transport: Api.Transport)
      modifies b
      ensures b.storage == DeleteStore(old(b.storage), confirmed, transport)
      ensures b.effects == old(b.effects) + DeleteEffects(old(b.storage), confirmed, transport)
    {
      if !confirmed {
        return;
      }
      var token := b.GetItem(AccessKey(Doctor));
      if token.None? || token.value == "" {
        b.Notify(Failure, AuthenticationRequired);
        return;
      }
      b.Fetch(DeleteRequest(token.value));
      if Deleted(transport) {
        ghost var before := b.storage;
        b.RemoveItem(AccessKey(Doctor));
        b.RemoveItem(RefreshKey(Doctor));
        b.RemoveItem(DataKey(Doctor));
        assert b.storage == ClearSession(before, Doctor);
        b.Notify(Success, AccountDeleted);
        b.Go("/");
      } else {
        b.Notify(Failure, DeleteFailureMessage(transport));
      }
    }
  }

  /** Declining the dialog does nothing at all. */
  lemma DeclineDoesNothing(m: Store, t: Api.Transport)
    ensures DeleteStore(m, false, t) == m && DeleteEffects(m, false, t) == []
  {
  }

  /** Without an access token no request is sent and storage is untouched. */
  lemma NoTokenSendsNothing(m: Store, confirmed: bool, t: Api.Transport)
    requires !Present(m, AccessKey(Doctor))
    ensures DeleteStore(m, confirmed, t) == m
    ensures forall e :: e in DeleteEffects(m, confirmed, t) ==> !e.Send?
  {
  }

  /**
   * A confirmed deletion removes exactly the doctor's three keys, leaves the
   * patient session as it was, and the doctor guard then denies access.
   */
  lemma DeletionEndsDoctorSession(m: Store, t: Api.Transport, parse: string -> Option<Json>)
    requires Present(m, AccessKey(Doctor)) && Deleted(t)
    ensures DeleteStore(m, true, t).Keys == m.Keys - SessionKeys(Doctor)
    ensures ProtectedRoute.Decide(DeleteStore(m, true, t), Doctor, parse) == ProtectedRoute.Deny(ProtectedRoute.NotAuthenticated)
    ensures ProtectedRoute.Decide(DeleteStore(m, true, t), Patient, parse) == ProtectedRoute.Decide(m, Patient, parse)
  {
    assert AccessKey(Doctor) in SessionKeys(Doctor);
    RoleKeysDisjoint(Doctor, Patient);
    assert AccessKey(Patient) in SessionKeys(Patient) && DataKey(Patient) in SessionKeys(Patient);
    ProtectedRoute.DecideReadsOnlyTokenAndProfile(DeleteStore(m, true, t), m, Patient, parse);
  }

  /** A deletion the server did not confirm leaves storage as it was. */
  lemma FailedDeletionKeepsStorage(m: Store, confirmed: bool, t: Api.Transport)
    requires !Deleted(t)
    ensures DeleteStore(m, confirmed, t) == m
  {
  }

  /** The server's string `detail` is shown as it is. */
  lemma DetailShown(t: Api.Transport, fields: seq<(string, Json)>, detail: string)
    requires t.Responded? && !Api.Ok(t.response) && t.response.body == Api.Parsed(JObj(fields))
    requires Lookup(fields, "detail") == Some(JStr(detail)) && detail != ""
    ensures DeleteFailureMessage(t) == detail
  {
  }

  /**
   * A form field filled by `value || ""`: empty when the value is missing or
   * falsy, the text itself for a string, and `String(value)` for any other
   * truthy value.
   */
  ghost predicate FilledFrom(text: string, p: Option<Json>) {
    (!TruthyProp(p) ==> text == "") &&
    (forall s :: p == Some(JStr(s)) ==> text == s) &&
    (TruthyProp(p) ==> text == ToText(p.value))
  }

  /** A stored profile object fills each of the six fields from its own field of the same meaning. */
  lemma FormFromProfile(m: Store, parse: string -> Option<Json>, fields: seq<(string, Json)>)
    requires Present(m, DataKey(Doctor)) && parse(m[DataKey(Doctor)]) == Some(JObj(fields))
    ensures var f := InitialForm(m, parse);
      FilledFrom(f.name, Lookup(fields, "full_name")) &&
      FilledFrom(f.email, Lookup(fields, "email")) &&
      FilledFrom(f.phone, Lookup(fields, "phone")) &&
      FilledFrom(f.specialization, Lookup(fields, "specialization")) &&
      FilledFrom(f.licenseNumber, Lookup(fields, "medical_license_number")) &&
      FilledFrom(f.hospital, Lookup(fields, "hospital_name")) &&
      f.experience == Experience && f.education == Education && f.bio == Bio
  {
  }
}
