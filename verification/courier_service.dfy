/** Courier accounts (services/delivery_service.py): registration with
    its defaults and its classification of unique-key violations, login,
    the whitelisted profile update and the availability switch.

    `tbl_repartidor` is a map from `id_repartidor` to the row's other
    columns. Password hashing, password checking, token signing and the
    database's own errors come from outside and are inputs here: the hash
    as a string, the check as a predicate, a database error as an
    optional `DbFault` the statement raises. */
module CourierService {
  import opened Base
  import opened Text
  import opened CourierModels

  /** A row of `tbl_repartidor`. `fecha_registro_repartidor` is not part
      of this model. */
  datatype Courier = Courier(id: int, columns: map<string, Value>)

  type CourierStore = map<int, Courier>

  predicate WellKeyed(s: CourierStore)
  {
    forall k :: k in s ==> s[k].id == k
  }

  /** A column as the driver reads it: a missing column reads as NULL. */
  function Column(c: Courier, name: string): Value
  {
    if name in c.columns then c.columns[name] else Null
  }

  /** The `Repartidor` response: the row without its password hash. */
  function Public(c: Courier): (p: Courier)
    ensures p.id == c.id
    ensures CONTRASENIA !in p.columns
    ensures forall k :: k in c.columns && k != CONTRASENIA ==> k in p.columns && p.columns[k] == c.columns[k]
    ensures forall k :: k in p.columns ==> k in c.columns
  {
    Courier(c.id, c.columns - {CONTRASENIA})
  }

  /** The `Repartidor` response model accepts the row: the names are
      texts of the minimum length, the address and the state are texts,
      availability is a bool, and the other text columns are null or
      text. Every service answers through `Repartidor(**row)` inside its
      `try`, so a row this rejects raises a validation error there. */
  predicate Servable(c: Courier)
  {
    && Column(c, NOMBRE).Str? && |Column(c, NOMBRE).s| >= NAME_MIN_LENGTH
    && Column(c, APELLIDO).Str? && |Column(c, APELLIDO).s| >= NAME_MIN_LENGTH
    && Column(c, CORREO).Str?
    && Column(c, DISPONIBILIDAD).Bool?
    && Column(c, ESTADO).Str?
    && (Column(c, DIRECCION).Null? || Column(c, DIRECCION).Str?)
    && (Column(c, TELEFONO).Null? || Column(c, TELEFONO).Str?)
    && (Column(c, DNI).Null? || Column(c, DNI).Str?)
    && (Column(c, VEHICULO).Null? || Column(c, VEHICULO).Str?)
  }

  /** Every row of the table can be answered. */
  predicate AllServable(s: CourierStore)
  {
    forall k :: k in s ==> Servable(s[k])
  }

  // ---------------------------------------------------------------- create

  /** Text column from an optional field: None is stored as NULL. */
  function TextColumn(o: Option<string>): Value
  {
    match o
    case None => Null
    case Some(s) => Str(s)
  }

  /** The value `create_repartidor` inserts into column `f`: the given
      names and address, the optional texts (None as NULL), the hash in
      place of the password, and True and "ACTIVO" for a missing
      availability and a missing or empty state. */
  function CreateValue(d: RepartidorCreate, hashed: string, f: string): Value
  {
    if f == NOMBRE then Str(d.nombre)
    else if f == APELLIDO then Str(d.apellido)
    else if f == CORREO then Str(d.correo)
    else if f == DIRECCION then TextColumn(d.direccion)
    else if f == TELEFONO then TextColumn(d.telefono)
    else if f == DNI then TextColumn(d.dni)
    else if f == VEHICULO then TextColumn(d.vehiculo)
    else if f == DISPONIBILIDAD then Bool(if d.disponibilidad.Some? then d.disponibilidad.value else true)
    else if f == ESTADO then Str(if d.estado.Some? && d.estado.value != "" then d.estado.value else ACTIVO)
    else Str(hashed)
  }

  /** The row `create_repartidor` inserts: a column for every creation
      field, the given names and address, and the hash in place of the
      password. */
  function CreateColumns(d: RepartidorCreate, hashed: string): (cols: map<string, Value>)
    ensures cols.Keys == set f | f in CREATE_FIELDS
    ensures cols[NOMBRE] == Str(d.nombre) && cols[APELLIDO] == Str(d.apellido) && cols[CORREO] == Str(d.correo)
    ensures cols[CONTRASENIA] == Str(hashed)
  {
    ColumnNamesDistinct();
    map f | f in CREATE_FIELDS :: CreateValue(d, hashed, f)
  }

  /** The inserted row stores the optional texts as given, None as NULL. */
  lemma CreateColumnsTexts(d: RepartidorCreate, hashed: string)
    ensures var cols := CreateColumns(d, hashed);
      && cols[DIRECCION] == TextColumn(d.direccion)
      && cols[TELEFONO] == TextColumn(d.telefono)
      && cols[DNI] == TextColumn(d.dni)
      && cols[VEHICULO] == TextColumn(d.vehiculo)
  {
    ColumnNamesDistinct();
  }

  /** The inserted row reads a missing availability as True and a
      missing or empty state as "ACTIVO". */
  lemma CreateColumnsDefaults(d: RepartidorCreate, hashed: string)
    ensures var cols := CreateColumns(d, hashed);
      && (d.disponibilidad.None? ==> cols[DISPONIBILIDAD] == Bool(true))
      && (d.disponibilidad.Some? ==> cols[DISPONIBILIDAD] == Bool(d.disponibilidad.value))
      && (d.estado.None? || d.estado == Some("") ==> cols[ESTADO] == Str(ACTIVO))
      && (d.estado.Some? && d.estado.value != "" ==> cols[ESTADO] == Str(d.estado.value))
  {
  }

  /** The response model accepts an inserted row exactly when the names
      have the minimum length: the other columns always fit it. */
  lemma CreatedRowServable(d: RepartidorCreate, hashed: string, newId: int)
    ensures Servable(Courier(newId, CreateColumns(d, hashed))) <==>
      |d.nombre| >= NAME_MIN_LENGTH && |d.apellido| >= NAME_MIN_LENGTH
  {
    CreateColumnsTexts(d, hashed);
    CreateColumnsDefaults(d, hashed);
  }

  const UNIQUE_VIOLATION := "23505"

  /** Which unique column a duplicate-key message names. */
  datatype Culprit = CorreoTaken | DniTaken | TelefonoTaken | SomeValueTaken

  /** The first of correo, dni and telefono whose column name occurs in
      the lower-cased message. */
  function CulpritOf(message: string): (c: Culprit)
    ensures c == CorreoTaken <==> Contains(Lower(message), CORREO)
    ensures c == DniTaken <==> !Contains(Lower(message), CORREO) && Contains(Lower(message), DNI)
    ensures c == TelefonoTaken <==>
      !Contains(Lower(message), CORREO) && !Contains(Lower(message), DNI) && Contains(Lower(message), TELEFONO)
  {
    var m := Lower(message);
    if Contains(m, CORREO) then CorreoTaken
    else if Contains(m, DNI) then DniTaken
    else if Contains(m, TELEFONO) then TelefonoTaken
    else SomeValueTaken
  }

  /** The 409 detail of a duplicate key, naming the offending value. */
  function DuplicateDetail(message: string, d: RepartidorCreate): string
  {
    "Error al crear repartidor: " +
    match CulpritOf(message)
    case CorreoTaken => "El correo '" + d.correo + "' ya existe."
    case DniTaken => "El DNI '" + OptText(d.dni) + "' ya existe."
    case TelefonoTaken => "El teléfono '" + OptText(d.telefono) + "' ya existe."
    case SomeValueTaken => "Un valor único ya existe."
  }

  /** The `except` chain of create_repartidor. The 409 and the 500 of the
      psycopg2 handler are raised from inside an `except` clause, so the
      trailing `except Exception` does not catch them. */
  function CreateHandler(d: RepartidorCreate, e: Exc): HttpError
  {
    match e
    case DbExc(f) =>
      if f.pgcode == UNIQUE_VIOLATION then HttpError(CONFLICT, DuplicateDetail(f.message, d))
      else HttpError(INTERNAL_ERROR, "Error interno del servidor.")
    case _ => HttpError(INTERNAL_ERROR, "Error inesperado al crear repartidor.")
  }

  /** The `try` body: the INSERT either raises `fault` or adds the row
      under the id the table's sequence hands out; a row the response
      model rejects raises a validation error. */
  function CreateBody(s: CourierStore, d: RepartidorCreate, hashed: string, newId: int, fault: Option<DbFault>)
    : Outcome<(CourierStore, Courier)>
  {
    match fault
    case Some(f) => Raised(DbExc(f))
    case None =>
      var c := Courier(newId, CreateColumns(d, hashed));
      if !Servable(c) then Raised(ValidationExc)
      else Returned((s[newId := c], Public(c)))
  }

  /** create_repartidor: registers a courier. On success the table gains
      exactly the new row and the answer is that row without its hash; a
      unique violation is 409 with a detail that names the duplicate; any
      other database error is 500; so are names shorter than the response
      model allows, which a validated body never has; a failure adds
      nothing. */
  function CreateRepartidor(s: CourierStore, d: RepartidorCreate, hashed: string, newId: int, fault: Option<DbFault>)
    : (r: Reply<CourierStore, Courier>)
    requires newId !in s
    ensures r.result.Ok? <==> fault.None? && |d.nombre| >= NAME_MIN_LENGTH && |d.apellido| >= NAME_MIN_LENGTH
    ensures r.result.Err? ==> r.state == s
    ensures r.result.Ok? ==>
      && r.state.Keys == s.Keys + {newId}
      && (forall k :: k in s ==> r.state[k] == s[k])
      && r.state[newId].columns == CreateColumns(d, hashed)
      && r.result.value == Public(r.state[newId])
      && r.result.value.id == newId
    ensures fault.Some? && fault.value.pgcode == UNIQUE_VIOLATION ==>
      r.result == Err(HttpError(CONFLICT, DuplicateDetail(fault.value.message, d)))
    ensures fault.Some? && fault.value.pgcode != UNIQUE_VIOLATION ==>
      r.result == Err(HttpError(INTERNAL_ERROR, "Error interno del servidor."))
    ensures fault.None? && (|d.nombre| < NAME_MIN_LENGTH || |d.apellido| < NAME_MIN_LENGTH) ==>
      r.result == Err(HttpError(INTERNAL_ERROR, "Error inesperado al crear repartidor."))
  {
    CreatedRowServable(d, hashed, newId);
    Conclude(s, CreateBody(s, d, hashed, newId, fault), e => CreateHandler(d, e))
  }

  // ----------------------------------------------------------------- login

  const ROLE_REPARTIDOR := "repartidor"
  const TOKEN_TYPE := "bearer"

  /** The `TokenRepartidor` answer. The signed token itself is left to the
      external encoder: the model keeps the claims handed to it. Name,
      surname and address are the model's `str`, `str` and `EmailStr`
      fields, so a built answer holds them as texts. */
  datatype TokenRepartidor = TokenRepartidor(
    claims: map<string, Value>,
    tokenType: string,
    idRepartidor: int,
    nombre: string,
    apellido: string,
    correo: string,
    role: string)

  /** What authenticate_repartidor does: it answers None, answers a
      token, or raises while building the token answer from the row. */
  datatype Login = Refused | Granted(token: TokenRepartidor) | Failed(exc: Exc)

  /** The claims authenticate_repartidor signs: the id as text under
      "sub", the id as a number, and the courier role. */
  function LoginClaims(c: Courier): map<string, Value>
  {
    map["sub" := Str(IntToString(c.id)), "id_repartidor" := Int(c.id), "role" := Str(ROLE_REPARTIDOR)]
  }

  /** The claims with the address under "sub", as the token validator
      expects them. */
  function IntendedLoginClaims(c: Courier): map<string, Value>
  {
    map["sub" := Column(c, CORREO), "id_repartidor" := Int(c.id), "role" := Str(ROLE_REPARTIDOR)]
  }

  /** Whether the login decision chain admits `found` with `password`:
      an account was found, its state is exactly "ACTIVO", and only then
      the password check. */
  predicate LoginAdmits(found: Option<Courier>, password: string, verify: (string, Value) -> bool)
  {
    && found.Some?
    && Column(found.value, ESTADO) == Str(ACTIVO)
    && verify(password, Column(found.value, CONTRASENIA))
  }

  /** Whether `TokenRepartidor(...)` accepts what the row hands it: the
      name and surname as `str`, the address as `EmailStr`. Phone and
      vehicle are not passed, so their defaults apply. */
  predicate Issuable(c: Courier, isEmail: string -> bool)
  {
    && Column(c, NOMBRE).Str? && Column(c, APELLIDO).Str?
    && Column(c, CORREO).Str? && isEmail(Column(c, CORREO).s)
  }

  /** Builds the answer from the row; a row the token model rejects
      raises pydantic's `ValidationError`, outside any `try` of the
      service. */
  function Issue(c: Courier, claims: map<string, Value>, isEmail: string -> bool): Login
  {
    if Issuable(c, isEmail) then
      Granted(TokenRepartidor(claims, TOKEN_TYPE, c.id, Column(c, NOMBRE).s, Column(c, APELLIDO).s,
                              Column(c, CORREO).s, ROLE_REPARTIDOR))
    else Failed(ValidationExc)
  }

  /** authenticate_repartidor, given the row the lookup by address found
      (`get_repartidor_by_correo`) and the password checker. Answers
      nothing for an unknown address, an account that is not "ACTIVO" or
      a wrong password; otherwise a courier token for that row, unless
      the row does not fit the token answer, which raises. */
  function AuthenticateRepartidor(found: Option<Courier>, password: string, verify: (string, Value) -> bool,
                                  isEmail: string -> bool)
    : (r: Login)
    ensures found.None? ==> r.Refused?
    ensures found.Some? && Column(found.value, ESTADO) != Str(ACTIVO) ==> r.Refused?
    ensures r.Refused? <==> !LoginAdmits(found, password, verify)
    ensures r.Granted? <==> LoginAdmits(found, password, verify) && Issuable(found.value, isEmail)
    ensures r.Failed? <==> LoginAdmits(found, password, verify) && !Issuable(found.value, isEmail)
    ensures r.Failed? ==> r.exc == ValidationExc
    ensures r.Granted? ==>
      && r.token.claims.Keys == {"sub", "id_repartidor", "role"}
      && r.token.claims["sub"] == Str(IntToString(found.value.id))
      && r.token.claims["id_repartidor"] == Int(found.value.id)
      && r.token.claims["role"] == Str(ROLE_REPARTIDOR)
      && r.token.role == ROLE_REPARTIDOR
      && r.token.tokenType == TOKEN_TYPE
      && r.token.idRepartidor == found.value.id
    ensures r.Granted? ==>
      && Column(found.value, NOMBRE) == Str(r.token.nombre)
      && Column(found.value, APELLIDO) == Str(r.token.apellido)
      && Column(found.value, CORREO) == Str(r.token.correo)
      && isEmail(r.token.correo)
  {
    if found.None? then Refused
    else if Column(found.value, ESTADO) != Str(ACTIVO) then Refused
    else if !verify(password, Column(found.value, CONTRASENIA)) then Refused
    else Issue(found.value, LoginClaims(found.value), isEmail)
  }

  /** The same decision chain issuing the claims the validator expects. */
  function AuthenticateRepartidorIntended(found: Option<Courier>, password: string, verify: (string, Value) -> bool,
                                          isEmail: string -> bool)
    : (r: Login)
    ensures r.Refused? <==> !LoginAdmits(found, password, verify)
    ensures r.Granted? <==> LoginAdmits(found, password, verify) && Issuable(found.value, isEmail)
    ensures r.Failed? <==> LoginAdmits(found, password, verify) && !Issuable(found.value, isEmail)
    ensures r.Failed? ==> r.exc == ValidationExc
    ensures r.Granted? ==>
      && r.token.claims.Keys == {"sub", "id_repartidor", "role"}
      && r.token.claims["sub"] == Column(found.value, CORREO)
      && r.token.claims["id_repartidor"] == Int(found.value.id)
      && r.token.claims["role"] == Str(ROLE_REPARTIDOR)
      && r.token.idRepartidor == found.value.id
    ensures r.Granted? ==>
      && Column(found.value, NOMBRE) == Str(r.token.nombre)
      && Column(found.value, APELLIDO) == Str(r.token.apellido)
      && Column(found.value, CORREO) == Str(r.token.correo)
      && isEmail(r.token.correo)
  {
    if LoginAdmits(found, password, verify) then Issue(found.value, IntendedLoginClaims(found.value), isEmail)
    else Refused
  }

  // ---------------------------------------------------------------- update

  /** `key in RepartidorCreate.model_fields and key != "contrasenia"`. */
  predicate Updatable(key: string)
  {
    key in CREATE_FIELDS && key != CONTRASENIA
  }

  /** The assignments update_repartidor keeps: those whose key is a
      creation field other than the password. */
  function FilterFields(p: seq<Assignment>): seq<Assignment>
    decreases |p|
  {
    if |p| == 0 then []
    else if Updatable(p[0].0) then [p[0]] + FilterFields(p[1..])
    else FilterFields(p[1..])
  }

  /** The filter keeps exactly the whitelisted assignments, in the order
      given, and so keeps keys distinct. */
  lemma {:induction false} FilterFieldsKeeps(p: seq<Assignment>)
    ensures forall a :: a in FilterFields(p) <==> a in p && Updatable(a.0)
    ensures IsSubsequence(FilterFields(p), p)
    ensures DistinctKeys(p) ==> DistinctKeys(FilterFields(p))
    decreases |p|
  {
    if |p| > 0 {
      var rest := FilterFields(p[1..]);
      FilterFieldsKeeps(p[1..]);
      assert [p[0]] + p[1..] == p;
      if Updatable(p[0].0) {
        SubsequenceCons(rest, p[1..], p[0]);
      } else {
        SubsequenceSkip(rest, p[1..], p[0]);
      }
    }
  }

  /** One step of the filter: the first assignment is kept or dropped. */
  lemma {:induction false} FilterFieldsStep(p: seq<Assignment>)
    requires |p| > 0
    ensures FilterFields(p) == (if Updatable(p[0].0) then [p[0]] else []) + FilterFields(p[1..])
  {
  }

  lemma {:induction false} FilterFieldsAppend(a: seq<Assignment>, b: seq<Assignment>)
    ensures FilterFields(a + b) == FilterFields(a) + FilterFields(b)
    decreases |a|
  {
    if |a| > 0 {
      assert (a + b)[0] == a[0];
      assert (a + b)[1..] == a[1..] + b;
      FilterFieldsStep(a + b);
      FilterFieldsStep(a);
      FilterFieldsAppend(a[1..], b);
    } else {
      assert a + b == b;
    }
  }

  /** Filtering a payload one assignment longer. */
  lemma FilterFieldsSnoc(p: seq<Assignment>, x: Assignment)
    ensures FilterFields(p + [x]) == FilterFields(p) + (if Updatable(x.0) then [x] else [])
  {
    FilterFieldsAppend(p, [x]);
    FilterFieldsStep([x]);
    assert [x][1..] == [];
  }

  /** Column names and values, side by side. */
  function Zip(ks: seq<string>, vs: seq<Value>): (p: seq<Assignment>)
    requires |ks| == |vs|
    ensures |p| == |ks|
    ensures forall i :: 0 <= i < |ks| ==> p[i] == (ks[i], vs[i])
  {
    seq(|ks|, i requires 0 <= i < |ks| => (ks[i], vs[i]))
  }

  lemma ZipSnoc(ks: seq<string>, vs: seq<Value>, k: string, v: Value)
    requires |ks| == |vs|
    ensures Zip(ks + [k], vs + [v]) == Zip(ks, vs) + [(k, v)]
  {
  }

  /** The UPDATE update_repartidor sends: the columns of its SET list
      (each rendered as `column = %s`) and its parameters. */
  datatype UpdateQuery = UpdateQuery(setColumns: seq<string>, params: seq<Value>)

  /** The loop of update_repartidor that builds the SET list and the
      parameters: each kept key with its value, in payload order, and the
      courier id appended as the last parameter. */
  method BuildUpdateQuery(id: int, payload: seq<Assignment>) returns (q: UpdateQuery)
    ensures |q.params| == |q.setColumns| + 1
    ensures q.params[|q.setColumns|] == Int(id)
    ensures Zip(q.setColumns, q.params[..|q.setColumns|]) == FilterFields(payload)
  {
    var setColumns: seq<string> := [];
    var values: seq<Value> := [];
    var i := 0;
    while i < |payload|
      invariant 0 <= i <= |payload|
      invariant |setColumns| == |values|
      invariant Zip(setColumns, values) == FilterFields(payload[..i])
    {
      var (key, value) := payload[i];
      FilterFieldsSnoc(payload[..i], payload[i]);
      assert payload[..i + 1] == payload[..i] + [payload[i]];
      if Updatable(key) {
        ZipSnoc(setColumns, values, key, value);
        setColumns := setColumns + [key];
        values := values + [value];
      }
      i := i + 1;
    }
    assert payload[..i] == payload;
    q := UpdateQuery(setColumns, values + [Int(id)]);
    assert q.params[..|q.setColumns|] == values;
  }

  /** The row after `SET k1 = v1, k2 = v2, ...`. */
  function Assign(cols: map<string, Value>, kept: seq<Assignment>): map<string, Value>
    decreases |kept|
  {
    if |kept| == 0 then cols else Assign(cols[kept[0].0 := kept[0].1], kept[1..])
  }

  /** With distinct keys, every assignment lands and every other column
      keeps its value. */
  lemma {:induction false} AssignFacts(cols: map<string, Value>, kept: seq<Assignment>)
    requires DistinctKeys(kept)
    ensures forall a :: a in kept ==> a.0 in Assign(cols, kept) && Assign(cols, kept)[a.0] == a.1
    ensures forall k :: k in cols && (forall a :: a in kept ==> a.0 != k) ==>
      k in Assign(cols, kept) && Assign(cols, kept)[k] == cols[k]
    ensures forall k :: k !in cols && (forall a :: a in kept ==> a.0 != k) ==> k !in Assign(cols, kept)
    decreases |kept|
  {
    if |kept| > 0 {
      var rest := kept[1..];
      assert DistinctKeys(rest) by {
        forall i, j | 0 <= i < j < |rest| ensures rest[i].0 != rest[j].0 {
          assert rest[i] == kept[i + 1] && rest[j] == kept[j + 1];
        }
      }
      forall a | a in rest ensures a.0 != kept[0].0 {
        var j :| 0 <= j < |rest| && rest[j] == a;
        assert kept[j + 1] == a;
      }
      assert kept == [kept[0]] + rest;
      AssignFacts(cols[kept[0].0 := kept[0].1], rest);
    }
  }

  function NotFoundDetail(id: int): string
  {
    "Repartidor con ID " + IntToString(id) + " no encontrado."
  }

  /** The row an update of courier `id` writes: the whitelisted
      assignments of `payload` over the old row. */
  function UpdatedRow(s: CourierStore, id: int, payload: seq<Assignment>): Courier
    requires id in s
  {
    Courier(id, Assign(s[id].columns, FilterFields(payload)))
  }

  /** The `try` body of update_repartidor: run the UPDATE; no row
      returned raises 404; a returned row the response model rejects (an
      explicit null sent for a name, say) raises a validation error. */
  function UpdateBody(s: CourierStore, id: int, kept: seq<Assignment>, fault: Option<DbFault>)
    : Outcome<(CourierStore, Courier)>
  {
    if fault.Some? then Raised(DbExc(fault.value))
    else if id !in s then RaiseHttp(NOT_FOUND, NotFoundDetail(id))
    else
      var c := Courier(id, Assign(s[id].columns, kept));
      if !Servable(c) then Raised(ValidationExc)
      else Returned((s[id := c], Public(c)))
  }

  /** The columns the response model cannot read as null. */
  const NON_NULL_COLUMNS := {NOMBRE, APELLIDO, CORREO, DISPONIBILIDAD, ESTADO}

  /** A whitelisted null written into one of those columns leaves a row
      the response model rejects. */
  lemma NullWriteNotServable(s: CourierStore, id: int, payload: seq<Assignment>, k: string)
    requires id in s && DistinctKeys(payload)
    requires k in NON_NULL_COLUMNS && (k, Null) in payload
    ensures !Servable(UpdatedRow(s, id, payload))
  {
    FilterFieldsKeeps(payload);
    assert (k, Null) in FilterFields(payload);
    var cols := Assign(s[id].columns, FilterFields(payload));
    AssignFacts(s[id].columns, FilterFields(payload));
    assert k in cols && cols[k] == Null;
    NullColumnNotServable(UpdatedRow(s, id, payload), k);
  }

  /** A row holding null in a column the response model requires is
      rejected by it. */
  lemma NullColumnNotServable(c: Courier, k: string)
    requires k in NON_NULL_COLUMNS && Column(c, k) == Null
    ensures !Servable(c)
  {
  }

  /** `except psycopg2.Error` (409 for a unique violation, 500 otherwise)
      then `except Exception`, which also catches the 404 raised in the
      body. */
  function UpdateHandler(e: Exc): HttpError
  {
    match e
    case DbExc(f) =>
      if f.pgcode == UNIQUE_VIOLATION then HttpError(CONFLICT, "Error al actualizar: un valor único ya está en uso.")
      else HttpError(INTERNAL_ERROR, "Error interno al actualizar repartidor.")
    case _ => HttpError(INTERNAL_ERROR, "Error inesperado al actualizar repartidor.")
  }

  const NO_DATA := HttpError(BAD_REQUEST, "No se proporcionaron datos para actualizar.")
  const NO_VALID_FIELD := HttpError(BAD_REQUEST, "Ningún campo válido proporcionado para la actualización.")

  /** update_repartidor with the `except` chain `handler`. Both 400s are
      raised before the `try`, so they reach the caller unchanged; in the
      `try`, a database error comes first, then the 404 of an id that
      matched no row, then the validation of the returned row, and all
      three go through `handler`. */
  function UpdateRepartidorWith(handler: Exc -> HttpError, s: CourierStore, id: int, payload: seq<Assignment>, fault: Option<DbFault>)
    : (r: Reply<CourierStore, Courier>)
    requires DistinctKeys(payload)
    ensures r.result.Err? ==> r.state == s
    ensures |payload| == 0 ==> r.result == Err(NO_DATA)
    ensures |payload| > 0 && !HasUpdatable(payload) ==> r.result == Err(NO_VALID_FIELD)
    ensures r.result.Ok? <==> HasUpdatable(payload) && fault.None? && id in s && Servable(UpdatedRow(s, id, payload))
    ensures HasUpdatable(payload) && fault.Some? ==> r.result == Err(handler(DbExc(fault.value)))
    ensures HasUpdatable(payload) && fault.None? && id !in s ==>
      r.result == Err(handler(HttpExc(HttpError(NOT_FOUND, NotFoundDetail(id)))))
    ensures HasUpdatable(payload) && fault.None? && id in s && !Servable(UpdatedRow(s, id, payload)) ==>
      r.result == Err(handler(ValidationExc))
    ensures r.result.Ok? ==> id in r.state && Servable(r.state[id])
  {
    HasUpdatableIffKept(payload);
    if |payload| == 0 then
      Reply(s, Err(NO_DATA))
    else
      var kept := FilterFields(payload);
      if |kept| == 0 then
        Reply(s, Err(NO_VALID_FIELD))
      else
        Conclude(s, UpdateBody(s, id, kept, fault), handler)
  }

  /** Some assignment survives the whitelist. */
  predicate HasUpdatable(payload: seq<Assignment>)
  {
    exists a :: a in payload && Updatable(a.0)
  }

  lemma HasUpdatableIffKept(payload: seq<Assignment>)
    ensures HasUpdatable(payload) <==> |FilterFields(payload)| > 0
  {
    FilterFieldsKeeps(payload);
    if HasUpdatable(payload) {
      var a :| a in payload && Updatable(a.0);
      assert a in FilterFields(payload);
    }
    if |FilterFields(payload)| > 0 {
      assert FilterFields(payload)[0] in FilterFields(payload);
    }
  }

  /** Whatever the handler, a successful update writes the kept
      assignments into the one row, leaves every other column (the
      password hash among them) and every other row alone, and answers
      the row without its password. */
  lemma UpdateWritesKeptOnly(handler: Exc -> HttpError, s: CourierStore, id: int, payload: seq<Assignment>, fault: Option<DbFault>)
    requires DistinctKeys(payload)
    ensures var r := UpdateRepartidorWith(handler, s, id, payload, fault);
      r.result.Ok? ==>
      && id in s
      && r.state == s[id := r.state[id]]
      && r.state[id].id == id
      && (forall a :: a in payload && Updatable(a.0) ==> a.0 in r.state[id].columns && r.state[id].columns[a.0] == a.1)
      && (forall k :: k in s[id].columns && (forall a :: a in payload ==> a.0 != k || !Updatable(a.0)) ==>
            k in r.state[id].columns && r.state[id].columns[k] == s[id].columns[k])
      && (CONTRASENIA in s[id].columns ==>
            CONTRASENIA in r.state[id].columns && r.state[id].columns[CONTRASENIA] == s[id].columns[CONTRASENIA])
      && (forall k :: (forall a :: a in payload ==> a.0 != k || !Updatable(a.0)) ==>
            Column(r.state[id], k) == Column(s[id], k))
      && r.result.value == Public(r.state[id])
  {
    var r := UpdateRepartidorWith(handler, s, id, payload, fault);
    if r.result.Ok? {
      var kept := FilterFields(payload);
      FilterFieldsKeeps(payload);
      assert |payload| > 0 && |kept| > 0 && fault.None? && id in s;
      var cols := Assign(s[id].columns, kept);
      AssignFacts(s[id].columns, kept);
      assert r.state == s[id := Courier(id, cols)];
      forall a | a in payload && Updatable(a.0)
        ensures a.0 in cols && cols[a.0] == a.1
      {
        assert a in kept;
      }
      forall k | k in s[id].columns && (forall a :: a in payload ==> a.0 != k || !Updatable(a.0))
        ensures k in cols && cols[k] == s[id].columns[k]
      {
        assert forall a :: a in kept ==> a.0 != k;
      }
      forall k | (forall a :: a in payload ==> a.0 != k || !Updatable(a.0))
        ensures Column(r.state[id], k) == Column(s[id], k)
      {
        assert forall a :: a in kept ==> a.0 != k;
      }
    }
  }

  /** update_repartidor as written. An empty payload, and a payload whose
      keys are all dropped by the whitelist, are 400 before any write; an
      unknown id is 500, because the 404 is caught by `except Exception`,
      and so is a written row the response model rejects. What a success
      writes is `UpdateWritesKeptOnly`. */
  function UpdateRepartidor(s: CourierStore, id: int, payload: seq<Assignment>, fault: Option<DbFault>)
    : (r: Reply<CourierStore, Courier>)
    requires DistinctKeys(payload)
    ensures r.result.Err? ==> r.state == s
    ensures |payload| == 0 ==> r.result == Err(NO_DATA)
    ensures |payload| > 0 && !HasUpdatable(payload) ==> r.result == Err(NO_VALID_FIELD)
    ensures r.result.Ok? <==> HasUpdatable(payload) && fault.None? && id in s && Servable(UpdatedRow(s, id, payload))
    ensures HasUpdatable(payload) && fault.None? && id !in s ==>
      r.result == Err(HttpError(INTERNAL_ERROR, "Error inesperado al actualizar repartidor."))
    ensures HasUpdatable(payload) && fault.None? && id in s && !Servable(UpdatedRow(s, id, payload)) ==>
      r.result == Err(HttpError(INTERNAL_ERROR, "Error inesperado al actualizar repartidor."))
    ensures HasUpdatable(payload) && fault.Some? ==>
      r.result.Err? && r.result.error.status == (if fault.value.pgcode == UNIQUE_VIOLATION then CONFLICT else INTERNAL_ERROR)
  {
    UpdateRepartidorWith(UpdateHandler, s, id, payload, fault)
  }

  /** update_repartidor with the HTTP errors re-raised before the generic
      handler: an unknown id is reported as 404. */
  function UpdateRepartidorIntended(s: CourierStore, id: int, payload: seq<Assignment>, fault: Option<DbFault>)
    : (r: Reply<CourierStore, Courier>)
    requires DistinctKeys(payload)
    ensures r.result.Err? ==> r.state == s
    ensures HasUpdatable(payload) && fault.None? && id !in s ==>
      r.result == Err(HttpError(NOT_FOUND, NotFoundDetail(id)))
    ensures r.result.Ok? <==> HasUpdatable(payload) && fault.None? && id in s && Servable(UpdatedRow(s, id, payload))
  {
    UpdateRepartidorWith(Reraising(UpdateHandler), s, id, payload, fault)
  }

  /** The `try` body of update_repartidor_disponibilidad. */
  function DisponibilidadBody(s: CourierStore, id: int, disponible: bool, fault: Option<DbFault>)
    : Outcome<(CourierStore, Courier)>
  {
    if fault.Some? then Raised(DbExc(fault.value))
    else if id !in s then RaiseHttp(NOT_FOUND, NotFoundDetail(id))
    else
      var c := Courier(id, s[id].columns[DISPONIBILIDAD := Bool(disponible)]);
      if !Servable(c) then Raised(ValidationExc)
      else Returned((s[id := c], Public(c)))
  }

  /** Every database error is 500 here, a unique violation included. */
  function DisponibilidadHandler(e: Exc): HttpError
  {
    match e
    case DbExc(_) => HttpError(INTERNAL_ERROR, "Error al actualizar disponibilidad.")
    case _ => HttpError(INTERNAL_ERROR, "Error inesperado al actualizar disponibilidad.")
  }

  /** update_repartidor_disponibilidad: sets one column of one courier.
      An unknown id is 500, the 404 being caught by `except Exception`;
      a row the response model rejects is 500 too, and cannot come from a
      row that it accepted before (`AvailabilityKeepsServable`). */
  function UpdateDisponibilidad(s: CourierStore, id: int, disponible: bool, fault: Option<DbFault>)
    : (r: Reply<CourierStore, Courier>)
    ensures r.result.Err? ==> r.state == s
    ensures r.result.Ok? <==> fault.None? && id in s && Servable(Courier(id, s[id].columns[DISPONIBILIDAD := Bool(disponible)]))
    ensures fault.None? && id !in s ==>
      r.result == Err(HttpError(INTERNAL_ERROR, "Error inesperado al actualizar disponibilidad."))
    ensures fault.None? && id in s && !Servable(Courier(id, s[id].columns[DISPONIBILIDAD := Bool(disponible)])) ==>
      r.result == Err(HttpError(INTERNAL_ERROR, "Error inesperado al actualizar disponibilidad."))
    ensures fault.Some? ==> r.result == Err(HttpError(INTERNAL_ERROR, "Error al actualizar disponibilidad."))
    ensures r.result.Ok? ==>
      && r.state == s[id := Courier(id, s[id].columns[DISPONIBILIDAD := Bool(disponible)])]
      && r.result.value == Public(r.state[id])
  {
    Conclude(s, DisponibilidadBody(s, id, disponible, fault), DisponibilidadHandler)
  }

  /** update_repartidor_disponibilidad with the HTTP errors re-raised. */
  function UpdateDisponibilidadIntended(s: CourierStore, id: int, disponible: bool, fault: Option<DbFault>)
    : (r: Reply<CourierStore, Courier>)
    ensures r.result.Err? ==> r.state == s
    ensures fault.None? && id !in s ==> r.result == Err(HttpError(NOT_FOUND, NotFoundDetail(id)))
    ensures r.result.Ok? <==> fault.None? && id in s && Servable(Courier(id, s[id].columns[DISPONIBILIDAD := Bool(disponible)]))
  {
    Conclude(s, DisponibilidadBody(s, id, disponible, fault), Reraising(DisponibilidadHandler))
  }
}
