/** The claim checks of middleware/authenticator.py that run after a
    token has been decoded: `get_current_user` for clients and
    `get_current_repartidor` for couriers.

    Signature checking and expiry are the JWT library's business; its
    verdict is the input `Decoded`. Whether a text is an e-mail address
    (`EmailStr`) is the external predicate `isEmail`. */
module Authenticator {
  import opened Base
  import opened Text

  /** What `jwt.decode` does with a token: raises ExpiredSignatureError,
      raises another PyJWTError, or returns the payload. */
  datatype Decoded = Expired | Invalid | Payload(claims: map<string, Value>)

  const ROLE_CLIENTE := "cliente"
  const ROLE_REPARTIDOR := "repartidor"

  /** `payload.get(key)`: an absent claim and a JSON null both read as None. */
  function Claim(p: map<string, Value>, key: string): Value
  {
    if key in p then p[key] else Null
  }

  function DecodeOrRaise(d: Decoded): Outcome<map<string, Value>>
  {
    match d
    case Expired => Raised(JwtExpired)
    case Invalid => Raised(JwtInvalid)
    case Payload(p) => Returned(p)
  }

  // ------------------------------------------------------------- clients

  /** `TokenDataUser(user_id=sub, role=role)`; the class is not part of
      this model, so both claims are kept as they were decoded. */
  datatype TokenDataUser = TokenDataUser(userId: Value, role: Value)

  const USER_CREDENTIALS := HttpError(UNAUTHORIZED, "No se pudieron validar las credenciales del usuario")
  const USER_EXPIRED := HttpError(UNAUTHORIZED, "Token de usuario ha expirado")
  const USER_INTERNAL := HttpError(INTERNAL_ERROR, "Error interno del servidor durante la autenticación del usuario")

  /** The claims get_current_user accepts: a subject, and the role "cliente". */
  predicate ClientClaims(p: map<string, Value>)
  {
    Claim(p, "sub") != Null && Claim(p, "role") == Str(ROLE_CLIENTE)
  }

  /** The `try` body of get_current_user. */
  function UserBody(d: Decoded): Outcome<TokenDataUser>
  {
    match DecodeOrRaise(d)
    case Raised(e) => Raised(e)
    case Returned(p) =>
      var sub := Claim(p, "sub");
      var role := Claim(p, "role");
      if sub == Null || role == Null then Raised(HttpExc(USER_CREDENTIALS))
      else if role != Str(ROLE_CLIENTE) then RaiseHttp(FORBIDDEN, "Rol de usuario no autorizado: " + Repr(role))
      else Returned(TokenDataUser(sub, role))
  }

  /** `except ExpiredSignatureError` / `except PyJWTError` / `except Exception`. */
  function UserHandler(e: Exc): HttpError
  {
    match e
    case JwtExpired => USER_EXPIRED
    case JwtInvalid => USER_CREDENTIALS
    case _ => USER_INTERNAL
  }

  /** get_current_user with the `except` chain `handler`. Missing
      credentials are refused before the `try`, so before any decoding. */
  function GetCurrentUserWith(handler: Exc -> HttpError, credentials: Option<Decoded>): Result<TokenDataUser>
  {
    match credentials
    case None => Err(USER_CREDENTIALS)
    case Some(d) => Handle(UserBody(d), handler)
  }

  /** get_current_user as written: user data exactly for a payload with a
      subject and the role "cliente"; an expired token and a bad token are
      401 with their own details; a payload that lacks a claim or carries
      another role is 500, because the 401 or 403 raised for it is caught
      by `except Exception`. */
  function GetCurrentUser(credentials: Option<Decoded>): (r: Result<TokenDataUser>)
    ensures credentials.None? ==> r == Err(USER_CREDENTIALS)
    ensures credentials == Some(Expired) ==> r == Err(USER_EXPIRED)
    ensures credentials == Some(Invalid) ==> r == Err(USER_CREDENTIALS)
    ensures r.Ok? <==> credentials.Some? && credentials.value.Payload? && ClientClaims(credentials.value.claims)
    ensures r.Ok? ==> r.value == TokenDataUser(Claim(credentials.value.claims, "sub"), Str(ROLE_CLIENTE))
    ensures credentials.Some? && credentials.value.Payload? && !ClientClaims(credentials.value.claims) ==>
      r == Err(USER_INTERNAL)
  {
    GetCurrentUserWith(UserHandler, credentials)
  }

  /** get_current_user with the HTTP errors re-raised: a missing claim is
      401 and a foreign role is 403, as their raise sites say. */
  function GetCurrentUserIntended(credentials: Option<Decoded>): (r: Result<TokenDataUser>)
    ensures r.Ok? <==> credentials.Some? && credentials.value.Payload? && ClientClaims(credentials.value.claims)
    ensures (credentials.Some? && credentials.value.Payload? &&
             (Claim(credentials.value.claims, "sub") == Null || Claim(credentials.value.claims, "role") == Null))
      ==> r == Err(USER_CREDENTIALS)
    ensures (credentials.Some? && credentials.value.Payload? &&
             Claim(credentials.value.claims, "sub") != Null && Claim(credentials.value.claims, "role") != Null &&
             Claim(credentials.value.claims, "role") != Str(ROLE_CLIENTE))
      ==> r.Err? && r.error.status == FORBIDDEN
  {
    GetCurrentUserWith(Reraising(UserHandler), credentials)
  }

  // ------------------------------------------------------------ couriers

  /** `TokenDataRepartidor`: the address, the numeric id and the role. */
  datatype TokenDataRepartidor = TokenDataRepartidor(correo: string, idRepartidor: int, role: string)

  const COURIER_CREDENTIALS := HttpError(UNAUTHORIZED, "No se pudieron validar las credenciales del repartidor")
  const COURIER_EXPIRED := HttpError(UNAUTHORIZED, "Token de repartidor ha expirado")
  const COURIER_INTERNAL :=
    HttpError(INTERNAL_ERROR, "Error interno del servidor durante la autenticación del repartidor")

  /** All three claims are present and the role is "repartidor". */
  predicate CourierClaimsPresent(p: map<string, Value>)
  {
    && Claim(p, "sub") != Null
    && Claim(p, "id_repartidor") != Null
    && Claim(p, "role") == Str(ROLE_REPARTIDOR)
  }

  /** The claims also fit `TokenDataRepartidor`: "sub" is an e-mail
      address and "id_repartidor" an integer. */
  predicate CourierClaims(p: map<string, Value>, isEmail: string -> bool)
  {
    && CourierClaimsPresent(p)
    && Claim(p, "sub").Str? && isEmail(Claim(p, "sub").s)
    && Claim(p, "id_repartidor").Int?
  }

  /** The `try` body of get_current_repartidor. Building the
      `TokenDataRepartidor` validates its fields, and a failure raises
      pydantic's ValidationError. */
  function CourierBody(d: Decoded, isEmail: string -> bool): Outcome<TokenDataRepartidor>
  {
    match DecodeOrRaise(d)
    case Raised(e) => Raised(e)
    case Returned(p) =>
      var sub := Claim(p, "sub");
      var idr := Claim(p, "id_repartidor");
      var role := Claim(p, "role");
      if sub == Null || idr == Null || role == Null then Raised(HttpExc(COURIER_CREDENTIALS))
      else if role != Str(ROLE_REPARTIDOR) then RaiseHttp(FORBIDDEN, "Rol no autorizado para repartidor: " + Repr(role))
      else if !(sub.Str? && isEmail(sub.s)) || !idr.Int? then Raised(ValidationExc)
      else Returned(TokenDataRepartidor(sub.s, idr.i, ROLE_REPARTIDOR))
  }

  function CourierHandler(e: Exc): HttpError
  {
    match e
    case JwtExpired => COURIER_EXPIRED
    case JwtInvalid => COURIER_CREDENTIALS
    case _ => COURIER_INTERNAL
  }

  /** get_current_repartidor as written: courier data exactly for a
      payload whose three claims are present, whose role is "repartidor"
      and whose subject and id fit the model, copied unchanged; expiry and
      bad tokens are 401 with their own details; every other rejection is
      500, the 401 and 403 raised inside the `try` included. */
  function GetCurrentRepartidor(d: Decoded, isEmail: string -> bool): (r: Result<TokenDataRepartidor>)
    ensures d == Expired ==> r == Err(COURIER_EXPIRED)
    ensures d == Invalid ==> r == Err(COURIER_CREDENTIALS)
    ensures r.Ok? <==> d.Payload? && CourierClaims(d.claims, isEmail)
    ensures r.Ok? ==> r.value == TokenDataRepartidor(
      Claim(d.claims, "sub").s, Claim(d.claims, "id_repartidor").i, ROLE_REPARTIDOR)
    ensures d.Payload? && !CourierClaims(d.claims, isEmail) ==> r == Err(COURIER_INTERNAL)
  {
    Handle(CourierBody(d, isEmail), CourierHandler)
  }

  /** get_current_repartidor with the HTTP errors re-raised. */
  function GetCurrentRepartidorIntended(d: Decoded, isEmail: string -> bool): (r: Result<TokenDataRepartidor>)
    ensures r.Ok? <==> d.Payload? && CourierClaims(d.claims, isEmail)
    ensures (d.Payload? &&
             (Claim(d.claims, "sub") == Null || Claim(d.claims, "id_repartidor") == Null || Claim(d.claims, "role") == Null))
      ==> r == Err(COURIER_CREDENTIALS)
    ensures (d.Payload? && Claim(d.claims, "sub") != Null && Claim(d.claims, "id_repartidor") != Null &&
             Claim(d.claims, "role") != Null && Claim(d.claims, "role") != Str(ROLE_REPARTIDOR))
      ==> r.Err? && r.error.status == FORBIDDEN
  {
    Handle(CourierBody(d, isEmail), Reraising(CourierHandler))
  }
}
