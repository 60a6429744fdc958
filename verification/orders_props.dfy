/** Properties that relate several calls of the courier order workflow:
    how a claim moves an order between the listings, what a repeated or
    competing claim answers, what the courier operations preserve, and a
    complete pickup-to-delivery run. */
module OrderProperties {
  import opened Base
  import opened Orders

  /** Orders in a courier-owned state carry a courier. */
  predicate CourierStatesOwned(s: Store)
  {
    forall k :: k in s && s[k].estado.Some? && s[k].estado.value in {RECOGIDO_POR_REPARTIDOR, EN_CAMINO, ENTREGADO} ==>
      s[k].idRepartidor.Some?
  }

  /** The converse: an order that carries a courier is in a
      courier-owned state. */
  predicate AssignedOrdersOwned(s: Store)
  {
    forall k :: k in s && s[k].idRepartidor.Some? ==>
      s[k].estado.Some? && s[k].estado.value in {RECOGIDO_POR_REPARTIDOR, EN_CAMINO, ENTREGADO}
  }

  /** No assigned order changed hands between `s` and `t`. */
  predicate AssignmentsKept(s: Store, t: Store)
  {
    forall k :: k in s && s[k].idRepartidor.Some? ==> k in t && t[k].idRepartidor == s[k].idRepartidor
  }

  /** A successful claim takes the order out of the pool of available
      orders and puts it into the claimant's listing; no other order and no
      other courier's listing moves. */
  lemma ClaimMovesOrderBetweenListings(s: Store, id: int, c: int)
    requires WellKeyed(s)
    requires AsignarPedido(s, id, c).result.Ok?
    ensures var t := AsignarPedido(s, id, c).state;
      && WellKeyed(t)
      && id in AvailableIds(s)
      && AvailableIds(t) == AvailableIds(s) - {id}
      && ActiveIds(t, c) == ActiveIds(s, c) + {id}
      && (forall d :: d != c ==> ActiveIds(t, d) == ActiveIds(s, d))
  {
  }

  /** Claiming again an order one already holds hits the 400 branch and
      changes nothing. */
  lemma RepeatClaimIsRejected(s: Store, id: int, c: int)
    requires AsignarPedido(s, id, c).result.Ok?
    ensures var t := AsignarPedido(s, id, c).state;
      AsignarPedido(t, id, c) == Reply(t, Err(HttpError(BAD_REQUEST, "Ya tienes este pedido asignado.")))
  {
  }

  /** Of two couriers claiming the same order one after the other, the
      second receives 409 and the order stays with the first. */
  lemma SecondClaimantLoses(s: Store, id: int, c1: int, c2: int)
    requires c1 != c2
    requires AsignarPedido(s, id, c1).result.Ok?
    ensures var t := AsignarPedido(s, id, c1).state;
      && AsignarPedido(t, id, c2) == Reply(t, Err(HttpError(CONFLICT, "El pedido ya ha sido asignado a otro repartidor.")))
      && t[id].idRepartidor == Some(c1)
  {
  }

  /** The state check is commented out in the source: the assignee may
      move a delivered order back to "en_camino". */
  lemma DeliveredOrderCanGoBackOnTheRoad(s: Store, id: int, c: int)
    requires id in s && s[id].idRepartidor == Some(c) && s[id].estado == Some(ENTREGADO)
    ensures var r := UpdateEstadoPedido(s, id, c, EN_CAMINO);
      r.result.Ok? && r.state[id].estado == Some(EN_CAMINO) && r.state[id].idRepartidor == Some(c)
  {
  }

  /** An unassigned order cannot have its state set by any courier, even
      one that would be allowed as a target. */
  lemma UnassignedOrderIsForbidden(s: Store, id: int, c: int, nuevo: string)
    requires id in s && s[id].idRepartidor.None?
    requires nuevo in ESTADOS_PERMITIDOS_REPARTIDOR
    ensures UpdateEstadoPedido(s, id, c, nuevo).result.Err?
    ensures UpdateEstadoPedido(s, id, c, nuevo).result.error.status == FORBIDDEN
  {
  }

  /** The claim preserves the key discipline, keeps every existing
      assignment, and keeps both directions of "has a courier exactly
      when in a courier-owned state". */
  lemma ClaimPreservesInvariants(s: Store, id: int, c: int)
    requires WellKeyed(s) && CourierStatesOwned(s) && AssignedOrdersOwned(s)
    ensures var t := AsignarPedido(s, id, c).state;
      WellKeyed(t) && CourierStatesOwned(t) && AssignedOrdersOwned(t) && AssignmentsKept(s, t)
  {
  }

  /** A status update preserves the same invariants: it never reassigns
      an order, and it only sets a courier-owned state, on an order the
      caller already holds. */
  lemma UpdateEstadoPreservesInvariants(s: Store, id: int, c: int, nuevo: string)
    requires WellKeyed(s) && CourierStatesOwned(s) && AssignedOrdersOwned(s)
    ensures var t := UpdateEstadoPedido(s, id, c, nuevo).state;
      WellKeyed(t) && CourierStatesOwned(t) && AssignedOrdersOwned(t) && AssignmentsKept(s, t)
  {
  }

  /** After a claim the claimant may read the order and nobody else may. */
  lemma DetailFollowsClaim(s: Store, id: int, c: int, d: int)
    requires AsignarPedido(s, id, c).result.Ok?
    requires d != c
    ensures var t := AsignarPedido(s, id, c).state;
      && GetDetallePedido(t, id, c) == Ok(t[id])
      && GetDetallePedido(t, id, d).Err?
      && GetDetallePedido(t, id, d).error.status == FORBIDDEN
  {
  }

  /** A whole delivery: an available order claimed by `c`, set on its way
      and delivered ends delivered, still held by `c`, with its client and
      restaurant untouched, and out of every listing. */
  lemma PickupToDelivery(s: Store, id: int, c: int)
    requires WellKeyed(s)
    requires id in s && IsAvailable(s[id])
    ensures var s1 := AsignarPedido(s, id, c);
      var s2 := UpdateEstadoPedido(s1.state, id, c, EN_CAMINO);
      var s3 := UpdateEstadoPedido(s2.state, id, c, ENTREGADO);
      && s1.result.Ok? && s2.result.Ok? && s3.result.Ok?
      && s3.state.Keys == s.Keys
      && s3.state[id] == s[id].(idRepartidor := Some(c), estado := Some(ENTREGADO))
      && (forall k :: k in s && k != id ==> s3.state[k] == s[k])
      && id !in ActiveIds(s3.state, c)
      && id !in AvailableIds(s3.state)
  {
  }
}
