/**
 * The browser side of a session: `localStorage` as a map from key to text,
 * with three keys per role, and the effects a page has on the outside world
 * (toasts, navigation, requests sent), recorded in order.
 */
module Storage {
  import opened Wrappers
  import Api

  datatype Role = Patient | Doctor

  /** The role as it appears in keys and paths: `patient` / `doctor`. */
  function RoleName(r: Role): string {
    match r
    case Patient => "patient"
    case Doctor => "doctor"
  }

  function AccessKey(r: Role): string { RoleName(r) + "_access_token" }
  function RefreshKey(r: Role): string { RoleName(r) + "_refresh_token" }
  function DataKey(r: Role): string { RoleName(r) + "_data" }

  /** The three keys that make up one role's session. */
  function SessionKeys(r: Role): set<string> {
    {AccessKey(r), RefreshKey(r), DataKey(r)}
  }

  type Store = map<string, string>

  /** `localStorage.getItem(k)` is truthy: the key is set and its text is not empty. */
  predicate Present(m: Store, k: string) {
    k in m && m[k] != ""
  }

  /** The three `removeItem` calls for a role. */
  function ClearSession(m: Store, r: Role): (m': Store)
    ensures forall k :: k in m' <==> k in m && k !in SessionKeys(r)
    ensures forall k :: k in m' ==> m'[k] == m[k]
  {
    m - SessionKeys(r)
  }

  /** The three `setItem` calls of a successful login or signup. */
  function WriteSession(m: Store, r: Role, access: string, refresh: string, data: string): (m': Store)
    ensures m'.Keys == m.Keys + SessionKeys(r)
    ensures m'[AccessKey(r)] == access && m'[RefreshKey(r)] == refresh && m'[DataKey(r)] == data
    ensures forall k :: k in m && k !in SessionKeys(r) ==> m'[k] == m[k]
  {
    m[DataKey(r) := data][AccessKey(r) := access][RefreshKey(r) := refresh]
  }

  datatype ToastKind = Success | Failure

  /** Something a page does outside the store. */
  datatype Effect =
    | Toast(kind: ToastKind, text: string)
    | Navigate(path: string)
    | Send(request: Api.Request)

  /** The login page of a role: `/patient/login`, `/doctor/login`. */
  function LoginPath(r: Role): string {
    "/" + RoleName(r) + "/login"
  }

  /** The browser: its storage and the effects pages have had so far. */
  class Browser {
    var storage: Store
    var effects: seq<Effect>

    constructor (initial: Store)
      ensures storage == initial && effects == []
    {
      storage := initial;
      effects := [];
    }

    /** `localStorage.getItem(k)`, `None` for `null`. */
    function GetItem(k: string): (v: Option<string>)
      reads this
      ensures v.Some? <==> k in storage
      ensures v.Some? ==> v.value == storage[k]
    {
      if k in storage then Some(storage[k]) else None
    }

    method SetItem(k: string, v: string)
      modifies this
      ensures storage == old(storage)[k := v] && effects == old(effects)
    {
      storage := storage[k := v];
    }

    method RemoveItem(k: string)
      modifies this
      ensures storage == old(storage) - {k} && effects == old(effects)
    {
      storage := storage - {k};
    }

    method Notify(kind: ToastKind, text: string)
      modifies this
      ensures storage == old(storage) && effects == old(effects) + [Toast(kind, text)]
    {
      effects := effects + [Toast(kind, text)];
    }

    method Go(path: string)
      modifies this
      ensures storage == old(storage) && effects == old(effects) + [Navigate(path)]
    {
      effects := effects + [Navigate(path)];
    }

    method Fetch(r: Api.Request)
      modifies this
      ensures storage == old(storage) && effects == old(effects) + [Send(r)]
    {
      effects := effects + [Send(r)];
    }
  }

  /** The two roles' keys never collide: one role's session never touches the other's. */
  lemma RoleKeysDisjoint(r1: Role, r2: Role)
    requires r1 != r2
    ensures SessionKeys(r1) !! SessionKeys(r2)
  {
    KeysStartWithRole(r1);
    KeysStartWithRole(r2);
    assert RoleName(Patient)[0] == 'p' && RoleName(Doctor)[0] == 'd';
  }

  lemma KeysStartWithRole(r: Role)
    ensures forall k :: k in SessionKeys(r) ==> |k| > 0 && k[0] == RoleName(r)[0]
  {
    assert AccessKey(r)[0] == RoleName(r)[0];
    assert RefreshKey(r)[0] == RoleName(r)[0];
    assert DataKey(r)[0] == RoleName(r)[0];
  }

  /** The three keys of a role differ, so the order of the three writes does not matter. */
  lemma WriteOrderIrrelevant(m: Store, r: Role, access: string, refresh: string, data: string)
    ensures m[AccessKey(r) := access][RefreshKey(r) := refresh][DataKey(r) := data] == WriteSession(m, r, access, refresh, data)
  {
    assert |AccessKey(r)| != |DataKey(r)| && |RefreshKey(r)| != |DataKey(r)| && |AccessKey(r)| != |RefreshKey(r)|;
  }

  /** Clearing a role's session removes what writing it added, and nothing else. */
  lemma ClearUndoesWrite(m: Store, r: Role, access: string, refresh: string, data: string)
    ensures ClearSession(WriteSession(m, r, access, refresh, data), r) == ClearSession(m, r)
  {
  }

  /** Clearing one role leaves the other role's session exactly as it was. */
  lemma ClearKeepsOtherRole(m: Store, r: Role, other: Role)
    requires r != other
    ensures forall k :: k in SessionKeys(other) ==>
      (k in ClearSession(m, r) <==> k in m) && (k in m ==> ClearSession(m, r)[k] == m[k])
  {
    RoleKeysDisjoint(r, other);
  }

  /** Writing one role's session leaves the other role's session exactly as it was. */
  lemma WriteKeepsOtherRole(m: Store, r: Role, other: Role, access: string, refresh: string, data: string)
    requires r != other
    ensures forall k :: k in SessionKeys(other) ==>
      (k in WriteSession(m, r, access, refresh, data) <==> k in m) &&
      (k in m ==> WriteSession(m, r, access, refresh, data)[k] == m[k])
  {
    RoleKeysDisjoint(r, other);
  }
}
