/** The courier side of the order workflow (services/order_service.py):
    the pool of orders ready for pickup, the claim of one order by a
    courier, the courier's status updates, the courier's own listing and
    the owner-only detail lookup.

    The `tbl_pedido` table is a finite map from `id_pedido` to a row.
    Every service call is a pure function from the table to the table it
    leaves behind and the answer the caller receives. */
module Orders {
  import opened Base
  import opened Text

  // The order states the courier workflow names.
  const LISTO_PARA_RECOGER := "listo_para_recoger"
  const RECOGIDO_POR_REPARTIDOR := "recogido_por_repartidor"
  const EN_CAMINO := "en_camino"
  const ENTREGADO := "entregado"
  const PENDIENTE_ASIGNACION := "pendiente_asignacion_repartidor"
  /** Excluded from the courier's listing; no constant names it in the source. */
  const CANCELADO := "cancelado"

  /** The only targets a courier may set. */
  const ESTADOS_PERMITIDOS_REPARTIDOR: seq<string> := [EN_CAMINO, ENTREGADO]

  /** A row of `tbl_pedido` (the `Pedido` response model). `estado_pedido`
      is nullable, and so is `id_repartidor` until a courier claims it.
      `total_pedido` and `fecha_pedido` are not part of this model. */
  datatype Order = Order(
    idPedido: int,
    idCliente: int,
    idRestaurante: int,
    estado: Option<string>,
    idRepartidor: Option<int>)

  type Store = map<int, Order>

  /** `id_pedido` is the primary key: each row sits under its own id. */
  predicate WellKeyed(s: Store)
  {
    forall k :: k in s ==> s[k].idPedido == k
  }

  /** `id_repartidor IS NULL AND estado_pedido = 'listo_para_recoger'`. */
  predicate IsAvailable(o: Order)
  {
    o.idRepartidor.None? && o.estado == Some(LISTO_PARA_RECOGER)
  }

  /** `id_repartidor = c AND estado_pedido NOT IN ('entregado', 'cancelado')`.
      Under SQL's three-valued logic a NULL `estado_pedido` makes the
      `NOT IN` unknown, so such a row is not selected. */
  predicate IsActiveFor(o: Order, c: int)
  {
    && o.idRepartidor == Some(c)
    && o.estado.Some?
    && o.estado.value != ENTREGADO
    && o.estado.value != CANCELADO
  }

  /** The ids of the orders a courier could claim. */
  ghost function AvailableIds(s: Store): set<int>
  {
    set k | k in s && IsAvailable(s[k])
  }

  /** The ids of the orders courier `c` currently works on. */
  ghost function ActiveIds(s: Store, c: int): set<int>
  {
    set k | k in s && IsActiveFor(s[k], c)
  }

  /** `SELECT ... WHERE p`: every row of the table that satisfies `p`,
      each once, in no particular order. */
  method Select(s: Store, p: Order -> bool) returns (rows: seq<Order>)
    requires WellKeyed(s)
    ensures forall o :: o in rows ==> o in s.Values && p(o)
    ensures forall k :: k in s && p(s[k]) ==> s[k] in rows
    ensures forall i, j :: 0 <= i < j < |rows| ==> rows[i] != rows[j]
  {
    rows := [];
    var todo := s.Keys;
    while todo != {}
      invariant todo <= s.Keys
      invariant forall i :: 0 <= i < |rows| ==> rows[i].idPedido in s && rows[i] == s[rows[i].idPedido]
      invariant forall i :: 0 <= i < |rows| ==> rows[i].idPedido !in todo && p(rows[i])
      invariant forall k :: k in s && k !in todo && p(s[k]) ==> s[k] in rows
      invariant forall i, j :: 0 <= i < j < |rows| ==> rows[i] != rows[j]
      decreases todo
    {
      EmptyOrInhabited(todo);
      var k :| k in todo;
      if p(s[k]) {
        rows := rows + [s[k]];
      }
      todo := todo - {k};
    }
  }

  /** get_pedidos_disponibles_para_repartidor: exactly the orders with no
      courier that are ready for pickup. */
  method GetPedidosDisponibles(s: Store) returns (rows: seq<Order>)
    requires WellKeyed(s)
    ensures forall o :: o in rows ==> o in s.Values
    ensures forall k :: k in s ==> (s[k] in rows <==> s[k].idRepartidor.None? && s[k].estado == Some(LISTO_PARA_RECOGER))
    ensures forall i, j :: 0 <= i < j < |rows| ==> rows[i] != rows[j]
  {
    rows := Select(s, IsAvailable);
  }

  /** get_pedidos_asignados_a_repartidor: exactly the orders assigned to
      courier `c` whose state is known and is neither delivered nor
      cancelled. */
  method GetPedidosAsignados(s: Store, c: int) returns (rows: seq<Order>)
    requires WellKeyed(s)
    ensures forall o :: o in rows ==> o in s.Values
    ensures forall k :: k in s ==>
      (s[k] in rows <==>
        s[k].idRepartidor == Some(c) && s[k].estado.Some? && s[k].estado.value !in {ENTREGADO, CANCELADO})
    ensures forall i, j :: 0 <= i < j < |rows| ==> rows[i] != rows[j]
  {
    rows := Select(s, o => IsActiveFor(o, c));
  }

  /** The claim writes the courier and the new state. */
  function ClaimedBy(o: Order, c: int): Order
  {
    o.(idRepartidor := Some(c), estado := Some(RECOGIDO_POR_REPARTIDOR))
  }

  /** The claim's `UPDATE ... WHERE id_pedido = id RETURNING ...`: the
      table and the row after the update, or nothing when no row matched. */
  function ClaimUpdate(s: Store, id: int, c: int): (r: Option<(Store, Order)>)
    ensures r.Some? <==> id in s
    ensures r.Some? ==>
      var (t, row) := r.value;
      && t.Keys == s.Keys
      && (forall k :: k in s && k != id ==> t[k] == s[k])
      && row == t[id]
      && row.idRepartidor == Some(c)
      && row.estado == Some(RECOGIDO_POR_REPARTIDOR)
      && row.idPedido == s[id].idPedido
      && row.idCliente == s[id].idCliente
      && row.idRestaurante == s[id].idRestaurante
  {
    if id in s then Some((s[id := ClaimedBy(s[id], c)], ClaimedBy(s[id], c))) else None
  }

  /** The `try` body of asignar_pedido_a_repartidor. Its UPDATE filters on
      the id alone: nothing in the statement re-checks the state or the
      courier read just before. */
  function ClaimBody(s: Store, id: int, c: int): Outcome<(Store, Order)>
  {
    if id !in s then
      RaiseHttp(NOT_FOUND, "Pedido no encontrado.")
    else if s[id].idRepartidor.Some? then
      if s[id].idRepartidor.value == c then
        RaiseHttp(BAD_REQUEST, "Ya tienes este pedido asignado.")
      else
        RaiseHttp(CONFLICT, "El pedido ya ha sido asignado a otro repartidor.")
    else if s[id].estado != Some(LISTO_PARA_RECOGER) then
      RaiseHttp(CONFLICT, "El pedido no está en estado '" + LISTO_PARA_RECOGER + "' para ser asignado/recogido.")
    else
      match ClaimUpdate(s, id, c)
      case None => RaiseHttp(INTERNAL_ERROR, "No se pudo asignar el pedido después de la actualización.")
      case Some(updated) => Returned(updated)
  }

  /** `except psycopg2.Error` / `except HTTPException: raise` / `except Exception`. */
  function ClaimHandler(e: Exc): HttpError
  {
    match e
    case HttpExc(err) => err
    case DbExc(f) => HttpError(INTERNAL_ERROR, "Error de base de datos al asignar pedido: " + f.pgcode)
    case _ => HttpError(INTERNAL_ERROR, "Ocurrió un error inesperado al asignar el pedido.")
  }

  /** asignar_pedido_a_repartidor: courier `c` claims order `id`. The
      courier check comes before the state check, every failure leaves
      the table as it was, and a success writes exactly the courier and
      the "recogido_por_repartidor" state into that one row. */
  function AsignarPedido(s: Store, id: int, c: int): (r: Reply<Store, Order>)
    ensures r.result.Ok? <==> id in s && s[id].idRepartidor.None? && s[id].estado == Some(LISTO_PARA_RECOGER)
    ensures r.result.Err? ==> r.state == s
    ensures id !in s ==> r.result.Err? && r.result.error.status == NOT_FOUND
    ensures id in s && s[id].idRepartidor == Some(c) ==> r.result.Err? && r.result.error.status == BAD_REQUEST
    ensures id in s && s[id].idRepartidor.Some? && s[id].idRepartidor != Some(c) ==>
      r.result.Err? && r.result.error.status == CONFLICT
    ensures id in s && s[id].idRepartidor.None? && s[id].estado != Some(LISTO_PARA_RECOGER) ==>
      r.result.Err? && r.result.error.status == CONFLICT
    ensures r.result.Ok? ==>
      && r.state.Keys == s.Keys
      && (forall k :: k in s && k != id ==> r.state[k] == s[k])
      && r.result.value == r.state[id]
      && r.state[id].idRepartidor == Some(c)
      && r.state[id].estado == Some(RECOGIDO_POR_REPARTIDOR)
      && r.state[id].idPedido == s[id].idPedido
      && r.state[id].idCliente == s[id].idCliente
      && r.state[id].idRestaurante == s[id].idRestaurante
  {
    Conclude(s, ClaimBody(s, id, c), ClaimHandler)
  }

  /** The courier's target must be one of the permitted states. */
  function RejectTarget(nuevo: string): HttpError
  {
    HttpError(BAD_REQUEST, "Estado '" + nuevo + "' no es válido o no permitido para esta acción.")
  }

  /** The status `UPDATE ... WHERE id_pedido = id AND id_repartidor = c
      RETURNING ...`: the table and the row after the update, or nothing
      when no row of that courier matched. */
  function EstadoUpdate(s: Store, id: int, c: int, nuevo: string): (r: Option<(Store, Order)>)
    ensures r.Some? <==> id in s && s[id].idRepartidor == Some(c)
    ensures r.Some? ==>
      var (t, row) := r.value;
      && t.Keys == s.Keys
      && (forall k :: k in s && k != id ==> t[k] == s[k])
      && row == t[id]
      && row.estado == Some(nuevo)
      && row.idPedido == s[id].idPedido
      && row.idCliente == s[id].idCliente
      && row.idRestaurante == s[id].idRestaurante
      && row.idRepartidor == s[id].idRepartidor
  {
    if id in s && s[id].idRepartidor == Some(c) then
      var o := s[id].(estado := Some(nuevo));
      Some((s[id := o], o))
    else
      None
  }

  /** The `try` body of update_estado_pedido_por_repartidor. The check of
      the current state is absent (it is commented out in the source): only
      existence and ownership are checked. */
  function UpdateEstadoBody(s: Store, id: int, c: int, nuevo: string): (o: Outcome<(Store, Order)>)
    ensures o.Returned? <==> id in s && s[id].idRepartidor == Some(c)
    ensures o.Returned? ==> o.value == (s[id := s[id].(estado := Some(nuevo))], s[id].(estado := Some(nuevo)))
    ensures id !in s ==> o == RaiseHttp(NOT_FOUND, "Pedido no encontrado.")
    ensures id in s && s[id].idRepartidor != Some(c) ==> o.Raised? && o.exc.HttpExc? && o.exc.err.status == FORBIDDEN
  {
    if id !in s then
      RaiseHttp(NOT_FOUND, "Pedido no encontrado.")
    else if s[id].idRepartidor != Some(c) then
      RaiseHttp(FORBIDDEN, "No tienes permiso para actualizar este pedido o no te ha sido asignado.")
    else
      match EstadoUpdate(s, id, c, nuevo)
      case None =>
        RaiseHttp(NOT_FOUND, "No se pudo actualizar el estado del pedido o no se encontró el pedido asignado a ti.")
      case Some(updated) => Returned(updated)
  }

  function UpdateEstadoHandler(e: Exc): HttpError
  {
    match e
    case HttpExc(err) => err
    case DbExc(f) => HttpError(INTERNAL_ERROR, "Error de base de datos al actualizar estado del pedido: " + f.pgcode)
    case _ => HttpError(INTERNAL_ERROR, "Ocurrió un error inesperado al actualizar el estado del pedido.")
  }

  /** update_estado_pedido_por_repartidor: courier `c` moves order `id` to
      `nuevo`. A target outside the whitelist is refused before the table
      is read, so the answer does not depend on the table at all; a
      missing order is 404, an order that is not the caller's (including
      an unassigned one) is 403; a success rewrites the state only. */
  function UpdateEstadoPedido(s: Store, id: int, c: int, nuevo: string): (r: Reply<Store, Order>)
    ensures nuevo !in ESTADOS_PERMITIDOS_REPARTIDOR ==> r == Reply(s, Err(RejectTarget(nuevo)))
    ensures r.result.Err? ==> r.state == s
    ensures r.result.Ok? <==> nuevo in ESTADOS_PERMITIDOS_REPARTIDOR && id in s && s[id].idRepartidor == Some(c)
    ensures nuevo in ESTADOS_PERMITIDOS_REPARTIDOR && id !in s ==>
      r.result.Err? && r.result.error.status == NOT_FOUND
    ensures nuevo in ESTADOS_PERMITIDOS_REPARTIDOR && id in s && s[id].idRepartidor != Some(c) ==>
      r.result.Err? && r.result.error.status == FORBIDDEN
    ensures r.result.Ok? ==>
      && r.state == s[id := s[id].(estado := Some(nuevo))]
      && r.result.value == r.state[id]
  {
    if nuevo !in ESTADOS_PERMITIDOS_REPARTIDOR then
      Reply(s, Err(RejectTarget(nuevo)))
    else
      Conclude(s, UpdateEstadoBody(s, id, c, nuevo), UpdateEstadoHandler)
  }

  /** `SELECT ... WHERE id_pedido = id AND id_repartidor = c`, as fetchone. */
  function FetchAssigned(s: Store, id: int, c: int): Option<Order>
  {
    if id in s && s[id].idRepartidor == Some(c) then Some(s[id]) else None
  }

  function DetalleBody(s: Store, id: int, c: int): Outcome<Order>
  {
    match FetchAssigned(s, id, c)
    case Some(o) => Returned(o)
    case None =>
      if id !in s then RaiseHttp(NOT_FOUND, "Pedido no encontrado.")
      else RaiseHttp(FORBIDDEN, "Este pedido no te ha sido asignado.")
  }

  function DetalleHandler(e: Exc): HttpError
  {
    match e
    case HttpExc(err) => err
    case _ => HttpError(INTERNAL_ERROR, "Error al obtener detalle del pedido.")
  }

  /** get_detalle_pedido_para_repartidor: the order itself exactly when it
      is assigned to the caller; otherwise 404 when it does not exist and
      403 when it is someone else's or nobody's. */
  function GetDetallePedido(s: Store, id: int, c: int): (r: Result<Order>)
    ensures r.Ok? <==> id in s && s[id].idRepartidor == Some(c)
    ensures r.Ok? ==> r.value == s[id]
    ensures id !in s ==> r == Err(HttpError(NOT_FOUND, "Pedido no encontrado."))
    ensures id in s && s[id].idRepartidor != Some(c) ==> r.Err? && r.error.status == FORBIDDEN
  {
    Handle(DetalleBody(s, id, c), DetalleHandler)
  }
}
