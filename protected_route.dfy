/**
 * The route guard `checkAuth`: a role's page is shown when that role's access
 * token and profile are stored and the profile parses with a truthy `id`.
 * A missing token or profile redirects to the login page and leaves storage
 * alone; a corrupt profile removes the role's three keys and redirects.
 * `JSON.parse` is the parameter `parse`, `None` where it throws.
 */
module ProtectedRoute {
  import opened Wrappers
  import opened Js
  import opened Storage

  datatype Reason = NotAuthenticated | InvalidSession

  datatype Decision = Allow | Deny(reason: Reason)

  /** The stored profile text parses to a value whose `id` is truthy (reading `id` of `null` throws). */
  predicate ValidProfile(text: string, parse: string -> Option<Json>) {
    var p := parse(text);
    p.Some? && !p.value.JNull? && TruthyProp(Prop(p.value, "id"))
  }

  /** Both keys the guard requires are set to non-empty text. */
  predicate HasSession(m: Store, role: Role) {
    Present(m, AccessKey(role)) && Present(m, DataKey(role))
  }

  function Decide(m: Store, role: Role, parse: string -> Option<Json>): (d: Decision)
    ensures d == Deny(NotAuthenticated) <==> !HasSession(m, role)
    ensures d == Allow <==> HasSession(m, role) && ValidProfile(m[DataKey(role)], parse)
    ensures d == Deny(InvalidSession) <==> HasSession(m, role) && !ValidProfile(m[DataKey(role)], parse)
  {
    if !HasSession(m, role) then Deny(NotAuthenticated)
    else if ValidProfile(m[DataKey(role)], parse) then Allow
    else Deny(InvalidSession)
  }

  /** The store after the check: only an invalid session is cleared. */
  function After(m: Store, role: Role, parse: string -> Option<Json>): Store {
    if Decide(m, role, parse) == Deny(InvalidSession) then ClearSession(m, role) else m
  }

  const SessionInvalidMessage: string := "Session invalid. Please log in again."

  function NotLoggedInMessage(role: Role): string {
    "Please log in as " + RoleName(role) + " to access this page"
  }

  /** The toast and the redirect a denial produces; nothing for an allowed visit. */
  function GuardEffects(role: Role, d: Decision): seq<Effect> {
    match d
    case Allow => []
    case Deny(NotAuthenticated) => [Toast(Failure, NotLoggedInMessage(role)), Navigate(LoginPath(role))]
    case Deny(InvalidSession) => [Toast(Failure, SessionInvalidMessage), Navigate(LoginPath(role))]
  }

  /** `checkAuth`, run once when the guarded page mounts. */
  method CheckAuth(b: Browser, role: Role, parse: string -> Option<Json>) returns (d: Decision)
    modifies b
    ensures d == Decide(old(b.storage), role, parse)
    ensures b.storage == After(old(b.storage), role, parse)
    ensures b.effects == old(b.effects) + GuardEffects(role, d)
  {
    var accessToken := b.GetItem(AccessKey(role));
    var userData := b.GetItem(DataKey(role));
    if accessToken.None? || accessToken.value == "" || userData.None? || userData.value == "" {
      b.Notify(Failure, NotLoggedInMessage(role));
      b.Go(LoginPath(role));
      d := Deny(NotAuthenticated);
      return;
    }
    var parsed := parse(userData.value);
    if parsed.Some? && !parsed.value.JNull? && TruthyProp(Prop(parsed.value, "id")) {
      d := Allow;
    } else {
      ghost var before := b.storage;
      b.Notify(Failure, SessionInvalidMessage);
      b.RemoveItem(AccessKey(role));
      b.RemoveItem(RefreshKey(role));
      b.RemoveItem(DataKey(role));
      b.Go(LoginPath(role));
      d := Deny(InvalidSession);
      assert b.storage == ClearSession(before, role);
    }
  }

  /**
   * Running the guard again after it has run changes nothing: an allowed
   * session is still allowed, and every denial is now "not authenticated",
   * whose branch leaves storage as it is.
   */
  lemma GuardIdempotent(m: Store, role: Role, parse: string -> Option<Json>)
    ensures After(After(m, role, parse), role, parse) == After(m, role, parse)
    ensures Decide(After(m, role, parse), role, parse) ==
      (if Decide(m, role, parse) == Allow then Allow else Deny(NotAuthenticated))
  {
    if Decide(m, role, parse) == Deny(InvalidSession) {
      assert DataKey(role) in SessionKeys(role);
      assert !HasSession(After(m, role, parse), role);
    }
  }

  /** The guard never reads or removes a key outside the checked role's session. */
  lemma GuardTouchesOnlyRoleKeys(m: Store, role: Role, parse: string -> Option<Json>, k: string)
    requires k !in SessionKeys(role)
    ensures k in After(m, role, parse) <==> k in m
    ensures k in m ==> After(m, role, parse)[k] == m[k]
  {
  }

  /** A corrupt session loses exactly the role's three keys. */
  lemma InvalidSessionClearsExactlyRoleKeys(m: Store, role: Role, parse: string -> Option<Json>)
    requires Decide(m, role, parse) == Deny(InvalidSession)
    ensures After(m, role, parse).Keys == m.Keys - SessionKeys(role)
  {
  }

  /** The decision depends only on the role's access token and profile. */
  lemma DecideReadsOnlyTokenAndProfile(m1: Store, m2: Store, role: Role, parse: string -> Option<Json>)
    requires AccessKey(role) in m1 <==> AccessKey(role) in m2
    requires AccessKey(role) in m1 ==> m1[AccessKey(role)] == m2[AccessKey(role)]
    requires DataKey(role) in m1 <==> DataKey(role) in m2
    requires DataKey(role) in m1 ==> m1[DataKey(role)] == m2[DataKey(role)]
    ensures Decide(m1, role, parse) == Decide(m2, role, parse)
  {
  }

  /** The refresh token is neither needed nor inspected: setting or removing it never changes the decision. */
  lemma RefreshTokenIrrelevant(m: Store, role: Role, parse: string -> Option<Json>, text: string)
    ensures Decide(m[RefreshKey(role) := text], role, parse) == Decide(m, role, parse)
    ensures Decide(m - {RefreshKey(role)}, role, parse) == Decide(m, role, parse)
  {
    assert RefreshKey(role) != AccessKey(role) by {
      assert RefreshKey(role)[|RoleName(role)| + 1] == 'r';
      assert AccessKey(role)[|RoleName(role)| + 1] == 'a';
    }
    assert RefreshKey(role) != DataKey(role) by {
      assert RefreshKey(role)[|RoleName(role)| + 1] == 'r';
      assert DataKey(role)[|RoleName(role)| + 1] == 'd';
    }
    DecideReadsOnlyTokenAndProfile(m[RefreshKey(role) := text], m, role, parse);
    DecideReadsOnlyTokenAndProfile(m - {RefreshKey(role)}, m, role, parse);
  }

  /** A guard for one role never changes the other role's decision. */
  lemma GuardKeepsOtherRoleDecision(m: Store, role: Role, other: Role, parse: string -> Option<Json>)
    requires role != other
    ensures Decide(After(m, role, parse), other, parse) == Decide(m, other, parse)
  {
    RoleKeysDisjoint(role, other);
    assert AccessKey(other) in SessionKeys(other) && DataKey(other) in SessionKeys(other);
    DecideReadsOnlyTokenAndProfile(After(m, role, parse), m, other, parse);
  }
}
