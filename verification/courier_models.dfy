/** The courier request models of models/delivery_model.py, with the
    validation pydantic applies to a JSON body before a service sees it:
    required and optional fields, minimum lengths, the e-mail check, the
    creation defaults, and `model_dump(exclude_unset=True)` of an update.

    Whether a text is an e-mail address (`EmailStr`) is decided by an
    external validator, passed in as the predicate `isEmail`. */
module CourierModels {
  import opened Base

  // Column and field names of a courier.
  const NOMBRE := "nombre_repartidor"
  const APELLIDO := "apellido_repartidor"
  const CORREO := "correo_repartidor"
  const DIRECCION := "direccion_repartidor"
  const TELEFONO := "telefono_repartidor"
  const DNI := "dni_repartidor"
  const VEHICULO := "vehiculo_repartidor"
  const DISPONIBILIDAD := "disponibilidad"
  const ESTADO := "estado_repartidor"
  const CONTRASENIA := "contrasenia"

  const ACTIVO := "ACTIVO"
  const NAME_MIN_LENGTH := 1
  const PASSWORD_MIN_LENGTH := 8

  /** The column names are pairwise distinct, so a row's columns never
      shadow one another. */
  lemma ColumnNamesDistinct()
    ensures NOMBRE != APELLIDO && NOMBRE != CORREO && NOMBRE != DIRECCION && NOMBRE != TELEFONO && NOMBRE != DNI && NOMBRE != VEHICULO && NOMBRE != DISPONIBILIDAD && NOMBRE != ESTADO && NOMBRE != CONTRASENIA
    ensures APELLIDO != CORREO && APELLIDO != DIRECCION && APELLIDO != TELEFONO && APELLIDO != DNI && APELLIDO != VEHICULO && APELLIDO != DISPONIBILIDAD && APELLIDO != ESTADO && APELLIDO != CONTRASENIA
    ensures CORREO != DIRECCION && CORREO != TELEFONO && CORREO != DNI && CORREO != VEHICULO && CORREO != DISPONIBILIDAD && CORREO != ESTADO && CORREO != CONTRASENIA
    ensures DIRECCION != TELEFONO && DIRECCION != DNI && DIRECCION != VEHICULO && DIRECCION != DISPONIBILIDAD && DIRECCION != ESTADO && DIRECCION != CONTRASENIA
    ensures TELEFONO != DNI && TELEFONO != VEHICULO && TELEFONO != DISPONIBILIDAD && TELEFONO != ESTADO && TELEFONO != CONTRASENIA
    ensures DNI != VEHICULO && DNI != DISPONIBILIDAD && DNI != ESTADO && DNI != CONTRASENIA
    ensures VEHICULO != DISPONIBILIDAD && VEHICULO != ESTADO && VEHICULO != CONTRASENIA
    ensures DISPONIBILIDAD != ESTADO && DISPONIBILIDAD != CONTRASENIA
    ensures ESTADO != CONTRASENIA
  {
    assert APELLIDO[0] != TELEFONO[0] && TELEFONO[0] != VEHICULO[0] && APELLIDO[0] != VEHICULO[0];
    assert NOMBRE[0] != CORREO[0] && CORREO[0] != ESTADO[0] && NOMBRE[0] != ESTADO[0];
    assert DNI[1] != DISPONIBILIDAD[1];
  }

  /** The fields of `RepartidorCreate`, in declaration order. */
  const CREATE_FIELDS: seq<string> :=
    [NOMBRE, APELLIDO, CORREO, DIRECCION, TELEFONO, DNI, VEHICULO, DISPONIBILIDAD, ESTADO, CONTRASENIA]

  /** The fields of `RepartidorUpdate`, in declaration order. */
  const UPDATE_FIELDS: seq<string> :=
    [NOMBRE, APELLIDO, CORREO, DIRECCION, TELEFONO, DNI, VEHICULO, DISPONIBILIDAD, ESTADO]

  /** A validated `RepartidorCreate`. */
  datatype RepartidorCreate = RepartidorCreate(
    nombre: string,
    apellido: string,
    correo: string,
    direccion: Option<string>,
    telefono: Option<string>,
    dni: Option<string>,
    vehiculo: Option<string>,
    disponibilidad: Option<bool>,
    estado: Option<string>,
    contrasenia: string)

  /** A JSON body: field name to value. */
  type Body = map<string, Value>

  /** One field of an update as `model_dump` lists it. */
  type Assignment = (string, Value)

  /** A required `str` field with a minimum length. */
  function RequiredText(raw: Body, key: string, minLength: nat): Option<string>
  {
    if key in raw && raw[key].Str? && |raw[key].s| >= minLength then Some(raw[key].s) else None
  }

  /** An `Optional[str]` field: absent or null is None, a string is kept,
      anything else is a validation error (the outer None). */
  function OptionalText(raw: Body, key: string, default: Option<string>): Option<Option<string>>
  {
    if key !in raw then Some(default)
    else match raw[key]
      case Null => Some(None)
      case Str(s) => Some(Some(s))
      case _ => None
  }

  /** An `Optional[bool]` field with a default for when it is absent. */
  function OptionalFlag(raw: Body, key: string, default: Option<bool>): Option<Option<bool>>
  {
    if key !in raw then Some(default)
    else match raw[key]
      case Null => Some(None)
      case Bool(b) => Some(Some(b))
      case _ => None
  }

  /** FastAPI answers a body that fails validation with 422 and the list
      of validation errors; the model keeps the status only. */
  function Invalid<T>(): Result<T>
  {
    Err(HttpError(UNPROCESSABLE, "validation error"))
  }

  /** The optional fields of `RepartidorCreate`. */
  const OPTIONAL_FIELDS: seq<string> := [DIRECCION, TELEFONO, DNI, VEHICULO, DISPONIBILIDAD, ESTADO]

  /** The value an optional creation field accepts: null, or a bool for
      the availability flag and a text for every other field. */
  predicate OptionalValueOk(key: string, v: Value)
  {
    v.Null? || (if key == DISPONIBILIDAD then v.Bool? else v.Str?)
  }

  /** `RepartidorCreate` accepts the body: the four required fields are
      texts of their minimum lengths, the address is an e-mail, and every
      optional field sent holds a value it accepts. */
  predicate CreateAccepts(raw: Body, isEmail: string -> bool)
  {
    && NOMBRE in raw && raw[NOMBRE].Str? && |raw[NOMBRE].s| >= NAME_MIN_LENGTH
    && APELLIDO in raw && raw[APELLIDO].Str? && |raw[APELLIDO].s| >= NAME_MIN_LENGTH
    && CORREO in raw && raw[CORREO].Str? && isEmail(raw[CORREO].s)
    && CONTRASENIA in raw && raw[CONTRASENIA].Str? && |raw[CONTRASENIA].s| >= PASSWORD_MIN_LENGTH
    && (forall f :: f in OPTIONAL_FIELDS && f in raw ==> OptionalValueOk(f, raw[f]))
  }

  /** An optional text field `key` of the body holds `o`: None when the
      field is absent or null, the text sent otherwise. */
  predicate Carries(raw: Body, key: string, o: Option<string>)
  {
    && (o.None? <==> key !in raw || raw[key].Null?)
    && (o.Some? ==> key in raw && raw[key] == Str(o.value))
  }

  /** Validation of a `RepartidorCreate` body. Names need at least one
      character, the password at least eight, the address must be an
      e-mail; `disponibilidad` and `estado_repartidor` default to True and
      "ACTIVO" when absent but may be sent as null explicitly; unknown keys
      are ignored. */
  function ValidateCreate(raw: Body, isEmail: string -> bool): (r: Result<RepartidorCreate>)
    ensures r.Ok? <==> CreateAccepts(raw, isEmail)
    ensures r.Ok? ==>
      && |r.value.nombre| >= NAME_MIN_LENGTH
      && |r.value.apellido| >= NAME_MIN_LENGTH
      && |r.value.contrasenia| >= PASSWORD_MIN_LENGTH
      && isEmail(r.value.correo)
      && NOMBRE in raw && raw[NOMBRE] == Str(r.value.nombre)
      && APELLIDO in raw && raw[APELLIDO] == Str(r.value.apellido)
      && CORREO in raw && raw[CORREO] == Str(r.value.correo)
      && CONTRASENIA in raw && raw[CONTRASENIA] == Str(r.value.contrasenia)
    ensures NOMBRE !in raw || APELLIDO !in raw || CORREO !in raw || CONTRASENIA !in raw ==> r.Err?
    ensures CONTRASENIA in raw && raw[CONTRASENIA].Str? && |raw[CONTRASENIA].s| < PASSWORD_MIN_LENGTH ==> r.Err?
    ensures NOMBRE in raw && raw[NOMBRE] == Str("") ==> r.Err?
    ensures APELLIDO in raw && raw[APELLIDO] == Str("") ==> r.Err?
    ensures r.Err? ==> r.error.status == UNPROCESSABLE
  {
    var nombre := RequiredText(raw, NOMBRE, NAME_MIN_LENGTH);
    var apellido := RequiredText(raw, APELLIDO, NAME_MIN_LENGTH);
    var correo := RequiredText(raw, CORREO, 0);
    var direccion := OptionalText(raw, DIRECCION, None);
    var telefono := OptionalText(raw, TELEFONO, None);
    var dni := OptionalText(raw, DNI, None);
    var vehiculo := OptionalText(raw, VEHICULO, None);
    var disponibilidad := OptionalFlag(raw, DISPONIBILIDAD, Some(true));
    var estado := OptionalText(raw, ESTADO, Some(ACTIVO));
    var contrasenia := RequiredText(raw, CONTRASENIA, PASSWORD_MIN_LENGTH);
    if && nombre.Some? && apellido.Some? && correo.Some? && isEmail(correo.value)
       && direccion.Some? && telefono.Some? && dni.Some? && vehiculo.Some?
       && disponibilidad.Some? && estado.Some? && contrasenia.Some?
    then
      Ok(RepartidorCreate(nombre.value, apellido.value, correo.value, direccion.value, telefono.value,
                          dni.value, vehiculo.value, disponibilidad.value, estado.value, contrasenia.value))
    else
      Invalid()
  }

  /** What an accepted create body carries into the optional fields:
      the client's value when given, the declared default when absent,
      and nothing when sent as null. */
  lemma ValidateCreateCarries(raw: Body, isEmail: string -> bool, d: RepartidorCreate)
    requires ValidateCreate(raw, isEmail) == Ok(d)
    ensures && Carries(raw, DIRECCION, d.direccion)
            && Carries(raw, TELEFONO, d.telefono)
            && Carries(raw, DNI, d.dni)
            && Carries(raw, VEHICULO, d.vehiculo)
    ensures DISPONIBILIDAD in raw && raw[DISPONIBILIDAD].Bool? ==> d.disponibilidad == Some(raw[DISPONIBILIDAD].b)
    ensures ESTADO in raw && raw[ESTADO].Str? ==> d.estado == Some(raw[ESTADO].s)
    ensures DISPONIBILIDAD !in raw ==> d.disponibilidad == Some(true)
    ensures ESTADO !in raw ==> d.estado == Some(ACTIVO)
    ensures DISPONIBILIDAD in raw && raw[DISPONIBILIDAD] == Null ==> d.disponibilidad.None?
    ensures ESTADO in raw && raw[ESTADO] == Null ==> d.estado.None?
  {
  }

  /** The value a `RepartidorUpdate` field accepts. Every field is
      optional, so null is always accepted; names need at least one
      character and the address must be an e-mail when given. */
  predicate UpdateValueOk(key: string, v: Value, isEmail: string -> bool)
  {
    match v
    case Null => true
    case Str(s) =>
      && key != DISPONIBILIDAD
      && (key == NOMBRE || key == APELLIDO ==> |s| >= NAME_MIN_LENGTH)
      && (key == CORREO ==> isEmail(s))
    case Bool(_) => key == DISPONIBILIDAD
    case Int(_) => false
  }

  /** `model_dump(exclude_unset=True)` over the listed fields: the fields
      present in the body, in the listed order, each with its value; None
      when some present field holds a value it does not accept. */
  function DumpSet(raw: Body, fields: seq<string>, isEmail: string -> bool): Option<seq<Assignment>>
    decreases |fields|
  {
    if |fields| == 0 then Some([])
    else
      var rest := DumpSet(raw, fields[1..], isEmail);
      var f := fields[0];
      if f !in raw then rest
      else if !UpdateValueOk(f, raw[f], isEmail) || rest.None? then None
      else Some([(f, raw[f])] + rest.value)
  }

  /** The dump holds exactly the present fields, each with its value;
      it exists exactly when every present field holds a value the field
      accepts. */
  lemma {:induction false} DumpSetContents(raw: Body, fields: seq<string>, isEmail: string -> bool)
    ensures var r := DumpSet(raw, fields, isEmail);
      && (r.Some? <==> forall f :: f in fields && f in raw ==> UpdateValueOk(f, raw[f], isEmail))
      && (r.Some? ==> forall a :: a in r.value ==> a.0 in fields && a.0 in raw && raw[a.0] == a.1)
      && (r.Some? ==> forall f :: f in fields && f in raw ==> (f, raw[f]) in r.value)
    decreases |fields|
  {
    if |fields| > 0 {
      var f := fields[0];
      var tail := fields[1..];
      assert [f] + tail == fields;
      assert forall g :: g in fields <==> g == f || g in tail;
      DumpSetContents(raw, tail, isEmail);
      var rest := DumpSet(raw, tail, isEmail);
      if f in raw && UpdateValueOk(f, raw[f], isEmail) && rest.Some? {
        var dump := [(f, raw[f])] + rest.value;
        assert forall a :: a in dump <==> a == (f, raw[f]) || a in rest.value;
      }
    }
  }

  /** The dump keeps the listed order of the fields, so with distinct
      field names its keys are distinct. */
  lemma {:induction false} DumpSetOrder(raw: Body, fields: seq<string>, isEmail: string -> bool)
    requires forall i, j :: 0 <= i < j < |fields| ==> fields[i] != fields[j]
    ensures var r := DumpSet(raw, fields, isEmail);
      && (r.Some? ==> IsSubsequence(Keys(r.value), fields))
      && (r.Some? ==> DistinctKeys(r.value))
    decreases |fields|
  {
    if |fields| > 0 {
      var f := fields[0];
      var tail := fields[1..];
      assert [f] + tail == fields;
      assert f !in tail by {
        forall k | 0 <= k < |tail| ensures tail[k] != f {
          assert tail[k] == fields[k + 1];
        }
      }
      DumpSetOrder(raw, tail, isEmail);
      DumpSetContents(raw, tail, isEmail);
      var rest := DumpSet(raw, tail, isEmail);
      if f !in raw {
        if rest.Some? {
          SubsequenceSkip(Keys(rest.value), tail, f);
        }
      } else if UpdateValueOk(f, raw[f], isEmail) && rest.Some? {
        var dump := [(f, raw[f])] + rest.value;
        assert Keys(dump) == [f] + Keys(rest.value);
        SubsequenceCons(Keys(rest.value), tail, f);
        DistinctKeysCons((f, raw[f]), rest.value);
      }
    }
  }

  /** Validation of a `RepartidorUpdate` body, answered as the dumped
      assignments the service receives. */
  function ValidateUpdate(raw: Body, isEmail: string -> bool): (r: Result<seq<Assignment>>)
    ensures r.Ok? <==> forall f :: f in UPDATE_FIELDS && f in raw ==> UpdateValueOk(f, raw[f], isEmail)
    ensures r.Ok? ==> forall a :: a in r.value ==> a.0 in UPDATE_FIELDS && a.0 in raw && raw[a.0] == a.1
    ensures r.Ok? ==> forall f :: f in UPDATE_FIELDS && f in raw ==> (f, raw[f]) in r.value
    ensures r.Ok? ==> forall a :: a in r.value && a.1.Str? && (a.0 == NOMBRE || a.0 == APELLIDO) ==>
      |a.1.s| >= NAME_MIN_LENGTH
    ensures r.Err? ==> r.error.status == UNPROCESSABLE
    ensures r.Ok? ==> IsSubsequence(Keys(r.value), UPDATE_FIELDS) && DistinctKeys(r.value)
  {
    DumpSetContents(raw, UPDATE_FIELDS, isEmail);
    DumpSetOrder(raw, UPDATE_FIELDS, isEmail);
    match DumpSet(raw, UPDATE_FIELDS, isEmail)
    case Some(dump) => Ok(dump)
    case None => Invalid()
  }

  /** No key appears twice, as in the dictionary `model_dump` returns. */
  predicate DistinctKeys(p: seq<Assignment>)
  {
    forall i, j :: 0 <= i < j < |p| ==> p[i].0 != p[j].0
  }

  lemma DistinctKeysCons(x: Assignment, p: seq<Assignment>)
    requires DistinctKeys(p)
    requires forall a :: a in p ==> a.0 != x.0
    ensures DistinctKeys([x] + p)
  {
    var q := [x] + p;
    forall i, j | 0 <= i < j < |q| ensures q[i].0 != q[j].0 {
      assert q[j] == p[j - 1];
      if i > 0 {
        assert q[i] == p[i - 1];
      }
    }
  }

  /** The keys of an assignment list, in order. */
  function Keys(p: seq<Assignment>): (ks: seq<string>)
    ensures |ks| == |p|
    ensures forall i :: 0 <= i < |p| ==> ks[i] == p[i].0
  {
    if |p| == 0 then [] else [p[0].0] + Keys(p[1..])
  }

  /** `a` is `b` with some entries dropped and the rest in order. */
  predicate IsSubsequence<T(==)>(a: seq<T>, b: seq<T>)
    decreases |b|
  {
    if |a| == 0 then true
    else if |b| == 0 then false
    else if a[0] == b[0] then IsSubsequence(a[1..], b[1..])
    else IsSubsequence(a, b[1..])
  }

  lemma SubsequenceCons<T>(a: seq<T>, b: seq<T>, x: T)
    requires IsSubsequence(a, b)
    ensures IsSubsequence([x] + a, [x] + b)
  {
    assert ([x] + a)[1..] == a;
    assert ([x] + b)[1..] == b;
  }

  /** Dropping the first kept element keeps a subsequence. */
  lemma {:induction false} SubsequenceDropFirst<T>(a: seq<T>, b: seq<T>)
    requires |a| > 0 && IsSubsequence(a, b)
    ensures IsSubsequence(a[1..], b)
    decreases |b|, 0
  {
    if a[0] == b[0] {
      SubsequenceSkip(a[1..], b[1..], b[0]);
      assert [b[0]] + b[1..] == b;
    } else {
      SubsequenceDropFirst(a, b[1..]);
      SubsequenceSkip(a[1..], b[1..], b[0]);
      assert [b[0]] + b[1..] == b;
    }
  }

  /** A longer sequence still contains a subsequence. */
  lemma {:induction false} SubsequenceSkip<T>(a: seq<T>, b: seq<T>, x: T)
    requires IsSubsequence(a, b)
    ensures IsSubsequence(a, [x] + b)
    decreases |b|, 1
  {
    assert ([x] + b)[1..] == b;
    if |a| > 0 && a[0] == x {
      SubsequenceDropFirst(a, b);
    }
  }
}
