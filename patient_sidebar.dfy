/**
 * The patient sidebar: the name it shows, read once from `patient_data`, and
 * its logout, which removes the patient's three keys, says so and goes home.
 */
module PatientSidebar {
  import opened Wrappers
  import opened Js
  import opened Storage
  import ProtectedRoute

  const DefaultName: Json := JStr("Patient")

  const LoggedOutMessage: string := "Logged out successfully"

  /**
   * The `patientName` state after the mount effect. `None` is `undefined`,
   * what `parsedData.full_name` is when the profile has no such field. A missing
   * or empty `patient_data`, text that does not parse and a `null` profile
   * (reading `full_name` of `null` throws; the error is only logged) all leave
   * the initial name.
   */
  function NameFromStorage(m: Store, parse: string -> Option<Json>): (name: Option<Json>)
    ensures !Present(m, DataKey(Patient)) ==> name == Some(DefaultName)
    ensures Present(m, DataKey(Patient)) && parse(m[DataKey(Patient)]).None? ==> name == Some(DefaultName)
    ensures Present(m, DataKey(Patient)) && parse(m[DataKey(Patient)]) == Some(JNull) ==> name == Some(DefaultName)
  {
    if !Present(m, DataKey(Patient)) then Some(DefaultName)
    else
      match parse(m[DataKey(Patient)])
      case None => Some(DefaultName)
      case Some(v) => if v.JNull? then Some(DefaultName) else Prop(v, "full_name")
  }

  class Sidebar {
    var patientName: Option<Json>

    /** Mounting the sidebar runs its effect once. */
    constructor Mount(b: Browser, parse: string -> Option<Json>)
      ensures patientName == NameFromStorage(b.storage, parse)
    {
      var stored := b.GetItem(DataKey(Patient));
      patientName := Some(DefaultName);
      if stored.Some? && stored.value != "" {
        var parsed := parse(stored.value);
        if parsed.Some? && !parsed.value.JNull? {
          patientName := Prop(parsed.value, "full_name");
        }
      }
    }

    /** `handleLogout`. */
    method HandleLogout(b: Browser)
      modifies b
      ensures b.storage == ClearSession(old(b.storage), Patient)
      ensures b.effects == old(b.effects) + [Toast(Success, LoggedOutMessage), Navigate("/")]
    {
      ghost var before := b.storage;
      b.RemoveItem(AccessKey(Patient));
      b.RemoveItem(RefreshKey(Patient));
      b.RemoveItem(DataKey(Patient));
      assert b.storage == ClearSession(before, Patient);
      b.Notify(Success, LoggedOutMessage);
      b.Go("/");
    }
  }

  /**
   * After logout the patient guard takes its "not authenticated" branch, and
   * the doctor guard decides exactly as before.
   */
  lemma LogoutEndsPatientSessionOnly(m: Store, parse: string -> Option<Json>)
    ensures ProtectedRoute.Decide(ClearSession(m, Patient), Patient, parse) == ProtectedRoute.Deny(ProtectedRoute.NotAuthenticated)
    ensures ProtectedRoute.Decide(ClearSession(m, Patient), Doctor, parse) == ProtectedRoute.Decide(m, Doctor, parse)
  {
    assert AccessKey(Patient) in SessionKeys(Patient);
    RoleKeysDisjoint(Patient, Doctor);
    assert AccessKey(Doctor) in SessionKeys(Doctor) && DataKey(Doctor) in SessionKeys(Doctor);
    ProtectedRoute.DecideReadsOnlyTokenAndProfile(ClearSession(m, Patient), m, Doctor, parse);
  }

  /** Logging out twice is the same as logging out once. */
  lemma LogoutIdempotent(m: Store)
    ensures ClearSession(ClearSession(m, Patient), Patient) == ClearSession(m, Patient)
  {
  }

  /** A stored profile that parses to an object shows that object's `full_name`. */
  lemma NameIsStoredFullName(m: Store, parse: string -> Option<Json>, fields: seq<(string, Json)>, name: string)
    requires Present(m, DataKey(Patient))
    requires parse(m[DataKey(Patient)]) == Some(JObj(fields))
    requires Lookup(fields, "full_name") == Some(JStr(name))
    ensures NameFromStorage(m, parse) == Some(JStr(name))
  {
  }
}
