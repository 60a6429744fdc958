/** How the tokens issued at courier login fare in the token validator,
    and what the validators answer once their own 401 and 403 are caught
    by their trailing `except Exception`. */
module TokenProperties {
  import opened Base
  import opened Text
  import opened CourierModels
  import Service = CourierService
  import opened Authenticator

  /** `str(n)` of an int holds only digits and a sign. */
  lemma IdTextHasNoAtSign(n: int)
    ensures '@' !in IntToString(n)
  {
  }

  /** The login as written puts the numeric id under "sub", where the
      validator expects an e-mail address. For any notion of e-mail
      address that needs an '@', every token a successful login issues is
      refused, and as written the refusal is a 500. */
  lemma IssuedTokenRejected(found: Option<Service.Courier>, password: string,
                            verify: (string, Value) -> bool, isEmail: string -> bool)
    requires forall e :: isEmail(e) ==> '@' in e
    requires Service.AuthenticateRepartidor(found, password, verify, isEmail).Granted?
    ensures var claims := Service.AuthenticateRepartidor(found, password, verify, isEmail).token.claims;
      && GetCurrentRepartidor(Payload(claims), isEmail) == Err(COURIER_INTERNAL)
      && GetCurrentRepartidorIntended(Payload(claims), isEmail) == Err(COURIER_INTERNAL)
  {
    var claims := Service.AuthenticateRepartidor(found, password, verify, isEmail).token.claims;
    IdTextHasNoAtSign(found.value.id);
    assert Claim(claims, "sub") == Str(IntToString(found.value.id));
    assert !isEmail(IntToString(found.value.id));
  }

  /** With the address under "sub", the token of an account whose stored
      address is an e-mail address is accepted, and the validator hands
      back that address and the account's id. */
  lemma IntendedTokenAccepted(found: Option<Service.Courier>, password: string,
                              verify: (string, Value) -> bool, isEmail: string -> bool)
    requires Service.AuthenticateRepartidorIntended(found, password, verify, isEmail).Granted?
    requires Service.Column(found.value, CORREO).Str? && isEmail(Service.Column(found.value, CORREO).s)
    ensures var claims := Service.AuthenticateRepartidorIntended(found, password, verify, isEmail).token.claims;
      GetCurrentRepartidor(Payload(claims), isEmail) ==
        Ok(TokenDataRepartidor(Service.Column(found.value, CORREO).s, found.value.id, ROLE_REPARTIDOR))
  {
    var claims := Service.AuthenticateRepartidorIntended(found, password, verify, isEmail).token.claims;
    assert Claim(claims, "sub") == Service.Column(found.value, CORREO);
    assert Claim(claims, "id_repartidor") == Int(found.value.id);
    assert Claim(claims, "role") == Str(ROLE_REPARTIDOR);
  }

  /** A courier registered with a valid body and the default account
      state, signing in with the password whose hash was stored, cannot
      use the token the login as written gives them. */
  lemma RegisteredCourierIsLockedOut(s: Service.CourierStore, raw: Body, isEmail: string -> bool,
                                     hashed: string, newId: int, password: string,
                                     verify: (string, Value) -> bool)
    requires forall e :: isEmail(e) ==> '@' in e
    requires ValidateCreate(raw, isEmail).Ok? && ESTADO !in raw
    requires newId !in s
    requires verify(password, Str(hashed))
    ensures var d := ValidateCreate(raw, isEmail).value;
      var t := Service.CreateRepartidor(s, d, hashed, newId, None).state;
      && newId in t
      && var token := Service.AuthenticateRepartidor(Some(t[newId]), password, verify, isEmail);
      && token.Granted?
      && GetCurrentRepartidor(Payload(token.token.claims), isEmail) == Err(COURIER_INTERNAL)
  {
    var d := ValidateCreate(raw, isEmail).value;
    var t := Service.CreateRepartidor(s, d, hashed, newId, None).state;
    ValidateCreateCarries(raw, isEmail, d);
    Service.CreateColumnsDefaults(d, hashed);
    assert Service.Column(t[newId], ESTADO) == Str(ACTIVO);
    assert Service.Column(t[newId], CONTRASENIA) == Str(hashed);
    IssuedTokenRejected(Some(t[newId]), password, verify, isEmail);
  }

  /** The same courier with the corrected login: the validator accepts
      the token and identifies the courier by the registered address and
      the id the table handed out. */
  lemma RegisteredCourierSignsIn(s: Service.CourierStore, raw: Body, isEmail: string -> bool,
                                 hashed: string, newId: int, password: string,
                                 verify: (string, Value) -> bool)
    requires ValidateCreate(raw, isEmail).Ok? && ESTADO !in raw
    requires newId !in s
    requires verify(password, Str(hashed))
    ensures var d := ValidateCreate(raw, isEmail).value;
      var t := Service.CreateRepartidor(s, d, hashed, newId, None).state;
      && newId in t
      && var token := Service.AuthenticateRepartidorIntended(Some(t[newId]), password, verify, isEmail);
      && token.Granted?
      && GetCurrentRepartidor(Payload(token.token.claims), isEmail) ==
           Ok(TokenDataRepartidor(d.correo, newId, ROLE_REPARTIDOR))
  {
    var d := ValidateCreate(raw, isEmail).value;
    var t := Service.CreateRepartidor(s, d, hashed, newId, None).state;
    ValidateCreateCarries(raw, isEmail, d);
    Service.CreateColumnsDefaults(d, hashed);
    assert Service.Column(t[newId], ESTADO) == Str(ACTIVO);
    assert Service.Column(t[newId], CONTRASENIA) == Str(hashed);
    assert Service.Column(t[newId], CORREO) == Str(d.correo);
    assert t[newId].id == newId;
    IntendedTokenAccepted(Some(t[newId]), password, verify, isEmail);
  }

  /** Re-raising the HTTP errors changes only how a token is refused:
      both validators accept the same tokens with the same data. */
  lemma ReraisingKeepsAcceptance(d: Decoded, isEmail: string -> bool, credentials: Option<Decoded>)
    ensures GetCurrentRepartidor(d, isEmail).Ok? <==> GetCurrentRepartidorIntended(d, isEmail).Ok?
    ensures GetCurrentRepartidor(d, isEmail).Ok? ==>
      GetCurrentRepartidor(d, isEmail).value == GetCurrentRepartidorIntended(d, isEmail).value
    ensures GetCurrentUser(credentials).Ok? <==> GetCurrentUserIntended(credentials).Ok?
    ensures GetCurrentUser(credentials).Ok? ==>
      GetCurrentUser(credentials).value == GetCurrentUserIntended(credentials).value
  {
  }

  /** A client token shown to the courier validator: as written a 500,
      re-raising gives the 403 the role check raises. */
  lemma ClientTokenAtCourierValidator(isEmail: string -> bool)
    ensures var p := map["sub" := Str("ana@example.com"), "id_repartidor" := Int(3), "role" := Str(ROLE_CLIENTE)];
      && GetCurrentRepartidor(Payload(p), isEmail) == Err(COURIER_INTERNAL)
      && GetCurrentRepartidorIntended(Payload(p), isEmail) ==
           Err(HttpError(FORBIDDEN, "Rol no autorizado para repartidor: cliente"))
  {
  }

  /** A token that carries a subject but no role: as written a 500,
      re-raising gives the 401 of the missing claim. */
  lemma RolelessTokenAtUserValidator()
    ensures var p := map["sub" := Str("5")];
      && GetCurrentUser(Some(Payload(p))) == Err(USER_INTERNAL)
      && GetCurrentUserIntended(Some(Payload(p))) == Err(USER_CREDENTIALS)
  {
  }
}
