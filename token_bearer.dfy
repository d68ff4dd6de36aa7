/**
 * The bearer dependencies of the older authentication app. `TokenBearer`
 * decodes the presented token, refuses one that does not decode (403), then
 * hands the claims to the subclass's `verify_token_data`: the access bearer
 * refuses refresh tokens, the refresh bearer refuses access tokens, and the
 * base class raises `NotImplementedError`. `decode_token` is a parameter.
 */
module TokenBearer {
  import opened Wrappers

  /** A JSON value as `jwt.decode` hands it back, with Python truthiness. */
  datatype PyValue =
    | PyNone
    | PyBool(b: bool)
    | PyInt(i: int)
    | PyStr(s: string)
    | PyList(items: seq<PyValue>)
    | PyDict(entries: map<string, PyValue>)

  function Truthy(v: PyValue): bool {
    match v
    case PyNone => false
    case PyBool(b) => b
    case PyInt(i) => i != 0
    case PyStr(s) => s != ""
    case PyList(items) => items != []
    case PyDict(entries) => entries != map[]
  }

  /** The decoded claims of a token. */
  type Claims = map<string, PyValue>

  /** What `decode_token` does: return the claims, return `None`, or let an exception out. */
  datatype Decoded = Decoded(claims: Claims) | DecodedNone | DecodeRaised(exception: string)

  /** Which class's `verify_token_data` runs. */
  datatype Kind = Base | Access | Refresh

  /** The dependency's outcome: the claims, a 403, or an exception the handler does not catch. */
  datatype Outcome =
    | Accepted(claims: Claims)
    | Forbidden(detail: string)
    | KeyError(key: string)
    | NotImplemented(message: string)
    | Raised(exception: string)

  const InvalidToken: string := "Invalid or expired token"
  const AccessRequired: string := "Access token required, not refresh token"
  const RefreshRequired: string := "Refresh token required, not access token"
  const OverrideInSubclass: string := "Please override in subclass"
  const RefreshClaim: string := "refresh"

  /**
   * `verify_token_data`: `None` when it returns normally, otherwise what it
   * raises. `token_data and token_data['refresh']` reads the claim only of a
   * non-empty dict, and reading a missing claim raises `KeyError`.
   */
  function VerifyTokenData(kind: Kind, data: Claims): (r: Option<Outcome>)
    ensures r.Some? ==> !r.value.Accepted?
    ensures kind == Base <==> r == Some(NotImplemented(OverrideInSubclass))
    ensures kind != Base && data == map[] ==> r == None
    ensures kind != Base && data != map[] && RefreshClaim !in data ==> r == Some(KeyError(RefreshClaim))
  {
    match kind
    case Base => Some(NotImplemented(OverrideInSubclass))
    case Access =>
      if data == map[] then None
      else if RefreshClaim !in data then Some(KeyError(RefreshClaim))
      else if Truthy(data[RefreshClaim]) then Some(Forbidden(AccessRequired))
      else None
    case Refresh =>
      if data == map[] then None
      else if RefreshClaim !in data then Some(KeyError(RefreshClaim))
      else if !Truthy(data[RefreshClaim]) then Some(Forbidden(RefreshRequired))
      else None
  }

  /**
   * `TokenBearer.__call__` on the presented token. The token is decoded once
   * for the claims and once more by `token_valid`; `decode` is a function of
   * the token, so both readings agree.
   */
  function Call(kind: Kind, decode: string -> Decoded, token: string): (r: Outcome)
    ensures decode(token).DecodedNone? ==> r == Forbidden(InvalidToken)
    ensures decode(token).DecodeRaised? ==> r == Raised(decode(token).exception)
    ensures r.Accepted? <==> decode(token).Decoded? && VerifyTokenData(kind, decode(token).claims).None?
    ensures r.Accepted? ==> r.claims == decode(token).claims
    ensures decode(token).Decoded? && VerifyTokenData(kind, decode(token).claims).Some? ==>
      r == VerifyTokenData(kind, decode(token).claims).value
  {
    var tokenData := decode(token);
    if tokenData.DecodeRaised? then Raised(tokenData.exception)
    else if !TokenValid(decode, token) then Forbidden(InvalidToken)
    else
      match VerifyTokenData(kind, tokenData.claims)
      case None => Accepted(tokenData.claims)
      case Some(failure) => failure
  }

  /** `token_valid`: the token decodes to something other than `None` (an exception would already have left `__call__`). */
  function TokenValid(decode: string -> Decoded, token: string): (b: bool)
    requires !decode(token).DecodeRaised?
    ensures b <==> decode(token).Decoded?
  {
    decode(token) != DecodedNone
  }

  /** The base class accepts no token at all. */
  lemma BaseAcceptsNothing(decode: string -> Decoded, token: string)
    ensures !Call(Base, decode, token).Accepted?
    ensures decode(token).Decoded? ==> Call(Base, decode, token) == NotImplemented(OverrideInSubclass)
  {
  }

  /** A token that does not decode gets the same 403 from every bearer, before any claim is read. */
  lemma UndecodableRefusedByAll(decode: string -> Decoded, token: string, kind: Kind)
    requires decode(token).DecodedNone?
    ensures Call(kind, decode, token) == Forbidden(InvalidToken)
    ensures Call(kind, decode, token) == Call(Base, decode, token)
  {
  }

  /**
   * A token carrying the `refresh` claim is accepted by exactly one of the
   * two bearers: the access bearer when the claim is falsy, the refresh
   * bearer when it is truthy; the other one answers its own 403.
   */
  lemma ExactlyOneBearerAccepts(decode: string -> Decoded, token: string)
    requires decode(token).Decoded? && RefreshClaim in decode(token).claims
    ensures var refresh := Truthy(decode(token).claims[RefreshClaim]);
      (Call(Access, decode, token).Accepted? <==> !refresh) &&
      (Call(Refresh, decode, token).Accepted? <==> refresh) &&
      (refresh ==> Call(Access, decode, token) == Forbidden(AccessRequired)) &&
      (!refresh ==> Call(Refresh, decode, token) == Forbidden(RefreshRequired))
  {
  }

  /** `create_access_token` writes `refresh` as a boolean: such a token passes exactly the bearer its flag names. */
  lemma IssuedTokenPassesItsBearer(decode: string -> Decoded, token: string, claims: Claims, refresh: bool)
    requires decode(token) == Decoded(claims[RefreshClaim := PyBool(refresh)])
    ensures Call(Access, decode, token) == (if refresh then Forbidden(AccessRequired) else Accepted(claims[RefreshClaim := PyBool(refresh)]))
    ensures Call(Refresh, decode, token) == (if refresh then Accepted(claims[RefreshClaim := PyBool(refresh)]) else Forbidden(RefreshRequired))
  {
    assert RefreshClaim in decode(token).claims;
  }

  /** Empty claims pass both bearers (an empty dict is falsy); non-empty claims without `refresh` raise `KeyError` in both. */
  lemma ClaimsWithoutRefresh(decode: string -> Decoded, token: string)
    requires decode(token).Decoded? && RefreshClaim !in decode(token).claims
    ensures decode(token).claims == map[] ==>
      Call(Access, decode, token) == Accepted(map[]) && Call(Refresh, decode, token) == Accepted(map[])
    ensures decode(token).claims != map[] ==>
      Call(Access, decode, token) == KeyError(RefreshClaim) && Call(Refresh, decode, token) == KeyError(RefreshClaim)
  {
  }
}
