/** Properties of the courier account operations that relate several
    calls or several definitions: validation against the update
    whitelist, which column a duplicate-key message blames, what an update
    leaves to the login, and the 404 the update handlers lose. */
module CourierProperties {
  import opened Base
  import opened Text
  import opened CourierModels
  import opened CourierService

  /** The whitelist keeps a payload whose keys it all admits unchanged. */
  lemma {:induction false} FilterKeepsUpdatable(p: seq<Assignment>)
    requires forall a :: a in p ==> Updatable(a.0)
    ensures FilterFields(p) == p
    decreases |p|
  {
    if |p| > 0 {
      assert p[0] in p;
      forall a | a in p[1..] ensures Updatable(a.0) {
        assert a in p;
      }
      FilterKeepsUpdatable(p[1..]);
      assert [p[0]] + p[1..] == p;
    }
  }

  /** Every field `RepartidorUpdate` accepts is a creation field other
      than the password, so a validated update body passes the whitelist
      of update_repartidor untouched. */
  lemma ValidatedUpdateSurvivesFilter(raw: Body, isEmail: string -> bool)
    requires ValidateUpdate(raw, isEmail).Ok?
    ensures FilterFields(ValidateUpdate(raw, isEmail).value) == ValidateUpdate(raw, isEmail).value
  {
    var dump := ValidateUpdate(raw, isEmail).value;
    forall a | a in dump ensures Updatable(a.0) {
      assert a.0 in UPDATE_FIELDS;
    }
    FilterKeepsUpdatable(dump);
  }

  /** An empty JSON body validates to an empty dump, which the service
      refuses with its first 400. */
  lemma EmptyBodyIsRejected(s: CourierStore, id: int, isEmail: string -> bool, fault: Option<DbFault>)
    ensures ValidateUpdate(map[], isEmail) == Ok([])
    ensures UpdateRepartidor(s, id, [], fault) ==
      Reply(s, Err(NO_DATA))
  {
  }

  /** The culprit is chosen on the lower-cased message, so the case of
      the server's message does not matter. */
  lemma CulpritIgnoresCase(message: string)
    ensures CulpritOf(Lower(message)) == CulpritOf(message)
  {
    LowerIdempotent(message);
  }

  lemma LowerAppend(a: string, b: string)
    ensures Lower(a + b) == Lower(a) + Lower(b)
  {
  }

  /** The message PostgreSQL writes when an INSERT repeats an address,
      with the name PostgreSQL gives a UNIQUE column constraint by default
      (`<table>_<column>_key`); the schema itself is not part of this
      model. */
  const DUPLICATE_ADDRESS_MESSAGE := "duplicate key value violates unique constraint \"tbl_repartidor_" + CORREO + "_key\""

  /** That message blames the address, and the 409 names it. */
  lemma DuplicateAddressIsNamed(d: RepartidorCreate)
    ensures CulpritOf(DUPLICATE_ADDRESS_MESSAGE) == CorreoTaken
    ensures DuplicateDetail(DUPLICATE_ADDRESS_MESSAGE, d) ==
      "Error al crear repartidor: El correo '" + d.correo + "' ya existe."
  {
    var head := "duplicate key value violates unique constraint \"tbl_repartidor_";
    var tail := "_key\"";
    LowerAppend(head + CORREO, tail);
    LowerAppend(head, CORREO);
    assert Lower(CORREO) == CORREO;
    var low := Lower(DUPLICATE_ADDRESS_MESSAGE);
    assert low == Lower(head) + CORREO + Lower(tail);
    assert low[|head|..|head| + |CORREO|] == CORREO;
    assert OccursAt(low, CORREO, |head|);
  }

  /** Creating a courier from a body that leaves out the availability, or
      sends it as null, stores it available; leaving out the state stores
      the account as "ACTIVO". */
  lemma CreatedCourierDefaults(s: CourierStore, raw: Body, isEmail: string -> bool, hashed: string, newId: int)
    requires ValidateCreate(raw, isEmail).Ok?
    requires newId !in s
    ensures var d := ValidateCreate(raw, isEmail).value;
      var t := CreateRepartidor(s, d, hashed, newId, None).state;
      && newId in t
      && (DISPONIBILIDAD !in raw || raw[DISPONIBILIDAD] == Null ==> Column(t[newId], DISPONIBILIDAD) == Bool(true))
      && (ESTADO !in raw ==> Column(t[newId], ESTADO) == Str(ACTIVO))
      && Column(t[newId], CONTRASENIA) == Str(hashed)
  {
    var d := ValidateCreate(raw, isEmail).value;
    ValidateCreateCarries(raw, isEmail, d);
    CreateColumnsDefaults(d, hashed);
  }

  /** An update that does not send the account state leaves the login
      decision for that account as it was: the password hash is never
      written and the state column is kept. */
  lemma UpdateKeepsLogin(s: CourierStore, id: int, payload: seq<Assignment>, password: string,
                         verify: (string, Value) -> bool)
    requires DistinctKeys(payload)
    requires forall a :: a in payload ==> a.0 != ESTADO
    requires UpdateRepartidor(s, id, payload, None).result.Ok?
    ensures var t := UpdateRepartidor(s, id, payload, None).state;
      LoginAdmits(Some(t[id]), password, verify) == LoginAdmits(Some(s[id]), password, verify)
  {
    var t := UpdateRepartidor(s, id, payload, None).state;
    UpdateWritesKeptOnly(UpdateHandler, s, id, payload, None);
    assert Column(t[id], ESTADO) == Column(s[id], ESTADO);
    assert Column(t[id], CONTRASENIA) == Column(s[id], CONTRASENIA);
  }

  /** Switching availability never changes who can sign in. */
  lemma AvailabilityKeepsLogin(s: CourierStore, id: int, disponible: bool, password: string,
                               verify: (string, Value) -> bool)
    requires UpdateDisponibilidad(s, id, disponible, None).result.Ok?
    ensures var t := UpdateDisponibilidad(s, id, disponible, None).state;
      LoginAdmits(Some(t[id]), password, verify) == LoginAdmits(Some(s[id]), password, verify)
  {
    var t := UpdateDisponibilidad(s, id, disponible, None).state;
    assert Column(t[id], ESTADO) == Column(s[id], ESTADO);
    assert Column(t[id], CONTRASENIA) == Column(s[id], CONTRASENIA);
  }

  /** Two tokens whose "sub" claims agree were issued to the same courier. */
  lemma SubjectIdentifiesCourier(c1: Courier, c2: Courier, p1: string, p2: string, verify: (string, Value) -> bool,
                                  isEmail: string -> bool)
    requires AuthenticateRepartidor(Some(c1), p1, verify, isEmail).Granted?
    requires AuthenticateRepartidor(Some(c2), p2, verify, isEmail).Granted?
    requires AuthenticateRepartidor(Some(c1), p1, verify, isEmail).token.claims["sub"] ==
             AuthenticateRepartidor(Some(c2), p2, verify, isEmail).token.claims["sub"]
    ensures c1.id == c2.id
  {
    IntToStringInjective(c1.id, c2.id);
  }

  /** A row the response model accepts, with an e-mail address, always
      fits the token answer: for such rows the login raises nothing and
      the two versions refuse and grant alike. */
  lemma ServableRowNeverFailsLogin(c: Courier, password: string, verify: (string, Value) -> bool,
                                   isEmail: string -> bool)
    requires Servable(c) && isEmail(Column(c, CORREO).s)
    ensures !AuthenticateRepartidor(Some(c), password, verify, isEmail).Failed?
    ensures !AuthenticateRepartidorIntended(Some(c), password, verify, isEmail).Failed?
    ensures AuthenticateRepartidor(Some(c), password, verify, isEmail).Granted? <==>
            LoginAdmits(Some(c), password, verify)
  {
  }

  /** A row written outside the core with no name: the right password on
      an active account still ends in the token answer's validation
      error. */
  lemma NamelessRowFailsLogin(isEmail: string -> bool)
    requires isEmail("ana@example.com")
    ensures var c := Courier(4, map[ESTADO := Str(ACTIVO), NOMBRE := Null, APELLIDO := Str("Ruiz"),
                                    CORREO := Str("ana@example.com"), CONTRASENIA := Str("h")]);
      AuthenticateRepartidor(Some(c), "pw", (p, h) => true, isEmail) == Failed(ValidationExc)
  {
  }


  /** `RepartidorUpdate` accepts an explicit null for every field, and the
      dump keeps it; written into a column the response model needs, it
      leaves a row that model rejects, so the update answers 500 and the
      table is rolled back. */
  lemma ExplicitNullIsRefused(s: CourierStore, id: int, raw: Body, isEmail: string -> bool, k: string)
    requires k in NON_NULL_COLUMNS
    requires id in s
    requires k in raw && raw[k] == Null
    requires ValidateUpdate(raw, isEmail).Ok?
    ensures var dump := ValidateUpdate(raw, isEmail).value;
      UpdateRepartidor(s, id, dump, None) ==
        Reply(s, Err(HttpError(INTERNAL_ERROR, "Error inesperado al actualizar repartidor.")))
  {
    var dump := ValidateUpdate(raw, isEmail).value;
    assert (k, Null) in dump;
    NullWriteNotServable(s, id, dump, k);
    assert Updatable(k) && HasUpdatable(dump);
    var r := UpdateRepartidor(s, id, dump, None);
    assert r.result == Err(HttpError(INTERNAL_ERROR, "Error inesperado al actualizar repartidor."));
    assert r.state == s;
  }

  /** Validation lets an explicit null through for every field. */
  lemma NullPassesValidation(k: string, isEmail: string -> bool)
    requires k in UPDATE_FIELDS
    ensures ValidateUpdate(map[k := Null], isEmail).Ok?
    ensures (k, Null) in ValidateUpdate(map[k := Null], isEmail).value
  {
  }

  /** A successful registration from a validated body keeps every row
      of the table acceptable to the response model. */
  lemma CreateKeepsTableServable(s: CourierStore, raw: Body, isEmail: string -> bool, hashed: string, newId: int)
    requires AllServable(s) && newId !in s
    requires ValidateCreate(raw, isEmail).Ok?
    ensures var r := CreateRepartidor(s, ValidateCreate(raw, isEmail).value, hashed, newId, None);
      r.result.Ok? && AllServable(r.state)
  {
  }

  /** Every update keeps every row acceptable: a row the response model
      would reject is rolled back. */
  lemma UpdateKeepsTableServable(s: CourierStore, id: int, payload: seq<Assignment>, fault: Option<DbFault>)
    requires DistinctKeys(payload) && AllServable(s)
    ensures AllServable(UpdateRepartidor(s, id, payload, fault).state)
  {
    UpdateWritesKeptOnly(UpdateHandler, s, id, payload, fault);
  }

  /** On a table whose rows the response model accepts, switching the
      availability of a known courier succeeds and keeps the table so. */
  lemma AvailabilityKeepsServable(s: CourierStore, id: int, disponible: bool)
    requires AllServable(s) && id in s
    ensures var r := UpdateDisponibilidad(s, id, disponible, None);
      r.result.Ok? && AllServable(r.state)
  {
    assert Servable(s[id]);
  }

  /** The update of an unknown courier: the service raises 404 inside its
      `try`, the trailing `except Exception` turns it into 500, and the
      re-raising handler keeps the 404. */
  lemma UnknownCourierUpdateIs500(s: CourierStore, id: int, payload: seq<Assignment>)
    requires DistinctKeys(payload) && HasUpdatable(payload)
    requires id !in s
    ensures UpdateRepartidor(s, id, payload, None).result.error.status == INTERNAL_ERROR
    ensures UpdateRepartidorIntended(s, id, payload, None).result.error.status == NOT_FOUND
  {
  }

  /** The same for the availability switch, on a concrete call. */
  lemma UnknownCourierAvailabilityIs500()
    ensures UpdateDisponibilidad(map[], 7, false, None).result ==
      Err(HttpError(INTERNAL_ERROR, "Error inesperado al actualizar disponibilidad."))
    ensures UpdateDisponibilidadIntended(map[], 7, false, None).result ==
      Err(HttpError(NOT_FOUND, "Repartidor con ID 7 no encontrado."))
  {
    assert NotFoundDetail(7) == "Repartidor con ID 7 no encontrado.";
  }
}
