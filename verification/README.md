# Courier core of the QuickBite backend, in Dafny

The model covers the courier side of the QuickBite food-delivery backend:

- **Order workflow** (`services/order_service.py`): listing the orders that are ready for pickup, a courier claiming one, the courier moving it to "en_camino" or "entregado", the courier's own listing, and the owner-only detail lookup. The order table is a finite map from `id_pedido` to an `Order` record; every service call is a pure function from a table to a `Reply` (the table afterwards and `Ok` or an `HttpError`).
- **Courier accounts** (`services/delivery_service.py`, `models/delivery_model.py`):
  - validation of the `RepartidorCreate` and `RepartidorUpdate` bodies;
  - the row `create_repartidor` inserts, with its defaults;
  - how a unique violation is classified from the driver's message;
  - the login decision chain and the claims it signs;
  - the whitelist of `update_repartidor` and the `SET` list it builds;
  - the availability switch.
- **Token checks** (`middleware/authenticator.py`): what `get_current_user` and `get_current_repartidor` do with a token once it has been decoded.

Python's exception flow is modelled explicitly, because the observable status codes depend on it. A service is split in two halves:

- a `try` body that returns or raises (`Outcome`);
- the chain of `except` clauses, as a function from the raised `Exc` to the `HttpError` the caller sees.

The model assumes that a raised exception rolls the transaction back, so the caller sees the table unchanged (`Base.Conclude`), and that a normal exit commits. The code does not define the cursor helper that would do this (see "## Left out"), so every "a failure leaves the table unchanged" clause rests on that assumption. Where the source has no `except HTTPException: raise`, an `HTTPException` raised in the body falls into `except Exception` and becomes a 500. The model keeps that behaviour. Each such function has an `...Intended` twin that re-raises instead (`Base.Reraising`).

Inputs the source obtains from outside are parameters:

- a database error raised by a statement is `Option<DbFault>`;
- the password hash and the password check are a string and a predicate `verify`;
- the row the login lookup found is an `Option<Courier>`;
- the id the table's sequence hands out is `newId`;
- pydantic's `EmailStr` check is a predicate `isEmail`;
- the verdict of `jwt.decode` is the datatype `Decoded` (`Expired | Invalid | Payload(claims)`).

Files:

- `base.dfy`: values, HTTP errors, exceptions, the two halves of a service call, and `str(int)`, ASCII `lower()` and substring search.
- `orders.dfy`: the order workflow.
- `orders_props.dfy`: lemmas relating calls of the order workflow.
- `courier_models.dfy`: the request models and their validation.
- `courier_service.dfy`: the courier account operations.
- `authenticator.dfy`: the two token validators.
- `courier_props.dfy`: lemmas relating the account operations to each other.
- `token_props.dfy`: lemmas relating login and the token validators.

Facts about the code that the model keeps as written:

- The claim reads the order, checks it in Python, and then runs an `UPDATE` that filters on the id alone (services/order_service.py:100-108). There is no compare-and-swap on state and courier. The model is sequential, so the claim is the read checks followed by an unconditional write.
- The check that would make "entregado" final is commented out (services/order_service.py:176-181). A courier may move a delivered order back to "en_camino" (`OrderProperties.DeliveredOrderCanGoBackOnTheRoad`).
- The order states are the code's strings: `listo_para_recoger`, `recogido_por_repartidor`, `en_camino` and `entregado`.
- Nothing in the code ties an order's courier to its state. The courier operations keep both directions, though: a courier-owned state has a courier (`OrderProperties.CourierStatesOwned`), and an order with a courier is in a courier-owned state (`OrderProperties.AssignedOrdersOwned`). Only rows written outside the core can break either.
- Every courier row a service returns goes through the response model `Repartidor(**row)` inside the `try`. A row that model rejects (a null name, a null availability or state, a wrong type) raises `ValidationError`, and `except Exception` turns it into a 500 after the rollback (`CourierService.Servable`).

## Model

| member | source | states |
|---|---|---|
| Orders.Select | services/order_service.py:31-42 | the rows fetched are rows of the table matching the WHERE predicate, every matching row is fetched, and none twice |
| Orders.GetPedidosDisponibles | services/order_service.py:31-42 | an order is listed iff it has no courier and its state is "listo_para_recoger"; a NULL state never matches |
| Orders.GetPedidosAsignados | services/order_service.py:226-239 | an order is listed iff its courier is the caller and its state is known and neither "entregado" nor "cancelado" (SQL `NOT IN` is unknown on NULL) |
| Orders.ClaimUpdate | services/order_service.py:100-109 | the claim's UPDATE returns a row iff the id exists; the returned row is the stored one, now holding the caller as courier and "recogido_por_repartidor" as state, with the order, client and restaurant ids kept; every other row and the key set are unchanged |
| Orders.AsignarPedido | services/order_service.py:53-131 | success iff the order exists, has no courier and is "listo_para_recoger"; a missing order is 404; an assigned order is 400 for its own courier and 409 for another, checked before the state (409); every failure leaves the table unchanged; success changes only that row's courier and state |
| Orders.EstadoUpdate | services/order_service.py:183-192 | the status UPDATE matches iff the order exists and belongs to the caller; the returned row is the stored one with the new state, the same courier and the same order, client and restaurant ids; every other row and the key set are unchanged |
| Orders.UpdateEstadoBody | services/order_service.py:151-201 | the body returns iff the order exists and is the caller's; a missing order raises 404, a foreign or unassigned one raises 403 |
| Orders.UpdateEstadoPedido | services/order_service.py:134-215 | a target other than "en_camino"/"entregado" is 400 whatever the table holds; otherwise success iff the order exists and is the caller's, 404 for a missing one, 403 for a foreign or unassigned one; failures leave the table unchanged; success changes the state only |
| Orders.GetDetallePedido | services/order_service.py:248-288 | the order is returned iff it is assigned to the caller; otherwise 404 when absent and 403 when it belongs to someone else or no one |
| OrderProperties.ClaimMovesOrderBetweenListings | services/order_service.py:96-117 | a successful claim removes exactly that order from the available set and adds it to the claimant's active set; no other courier's active set changes |
| OrderProperties.RepeatClaimIsRejected | services/order_service.py:76-81 | claiming again an order one holds is the 400 "Ya tienes este pedido asignado." and changes nothing |
| OrderProperties.SecondClaimantLoses | services/order_service.py:82-86 | a second courier claiming the same order gets 409 and the order stays with the first |
| OrderProperties.DeliveredOrderCanGoBackOnTheRoad | services/order_service.py:176-181 | with the state check commented out, the owner can move an "entregado" order back to "en_camino" |
| OrderProperties.UnassignedOrderIsForbidden | services/order_service.py:170-174 | an order with no courier cannot have its state set by anyone: 403 |
| OrderProperties.ClaimPreservesInvariants | services/order_service.py:96-117 | a claim keeps ids consistent, never takes an order from its courier, and keeps both directions of the courier/state link: courier-owned states have a courier, and assigned orders are in courier-owned states |
| OrderProperties.UpdateEstadoPreservesInvariants | services/order_service.py:183-201 | a status update keeps the same four invariants |
| OrderProperties.DetailFollowsClaim | services/order_service.py:254-280 | after a claim the claimant reads the order and any other courier gets 403 |
| OrderProperties.PickupToDelivery | services/order_service.py:53-215 | an available order claimed, set "en_camino" and then "entregado" by one courier ends delivered and still held by that courier; every other row is untouched; it is in neither listing |
| CourierModels.ValidateCreate | models/delivery_model.py:7-28 | a create body is accepted iff the names are texts of length at least 1, the address is an e-mail, the password a text of at least 8 characters, and every optional field present is null or of its declared type; the accepted model holds the body's names, address and password; a missing required field, a short password or an empty name is 422 |
| CourierModels.ValidateCreateCarries | models/delivery_model.py:11-28 | an accepted body's address, phone, DNI and vehicle are the body's texts, and absent exactly when missing or null; a given availability or state is kept, an absent one takes True or "ACTIVO", an explicit null stays null |
| CourierModels.DumpSetContents | models/delivery_model.py:32-41 | `model_dump(exclude_unset=True)` holds exactly the fields present in the body with their values, and exists iff every present field holds an acceptable value |
| CourierModels.DumpSetOrder | models/delivery_model.py:32-41 | the dump lists fields in declaration order, so its keys are distinct |
| CourierModels.ValidateUpdate | models/delivery_model.py:32-41 | an update body is accepted iff every present field is acceptable (null always is; names need length at least 1; the address must be an e-mail); the dump carries exactly the present fields, in order, without repeats |
| CourierService.Public | models/delivery_model.py:46-49 | the response row drops the password hash and keeps every other column |
| CourierService.CreateColumns | services/delivery_service.py:80-108 | the inserted row has a column for every creation field, the given names and address, and the hash in place of the password |
| CourierService.CreateColumnsTexts | services/delivery_service.py:90-97 | the inserted address, phone, DNI and vehicle are the model's values, NULL when absent |
| CourierService.CreatedRowServable | services/delivery_service.py:117 | the inserted row passes the response model iff both names are at least one character long |
| CourierService.CreateColumnsDefaults | services/delivery_service.py:99-108 | a null availability is stored as True; a null or empty state is stored as "ACTIVO"; given values are stored as given |
| CourierService.CulpritOf | services/delivery_service.py:120-133 | the duplicate is blamed on the address, the DNI or the phone by the first of their column names that occurs in the lower-cased message |
| CourierService.CreateRepartidor | services/delivery_service.py:71-149 | success iff the INSERT raises nothing and both names are non-empty, and then only the new row is added and returned without its password; 23505 is 409 naming the culprit; any other database error is 500; a row the response model rejects is the 500 "Error inesperado al crear repartidor."; a failure leaves the table unchanged |
| CourierService.AuthenticateRepartidor | services/delivery_service.py:152-199 | the login is refused iff the account is missing, its state is not exactly "ACTIVO", or (only then checked) the password fails; an admitted row whose name or surname is not a text, or whose address is not an e-mail, raises `ValidationError` building `TokenRepartidor`; otherwise a token whose claims are `sub = str(id)`, `id_repartidor = id`, `role = "repartidor"`, and whose name, surname and address are the row's |
| CourierService.AuthenticateRepartidorIntended | models/delivery_model.py:63-79 | the same decision chain and the same `TokenRepartidor` validation, issuing the address under `sub` as the validator's token model expects |
| CourierProperties.ServableRowNeverFailsLogin | models/delivery_model.py:70-79 | a row the response model accepts, with an e-mail address, never makes the login raise: the token is granted exactly when the decision chain admits the row |
| CourierProperties.NamelessRowFailsLogin | services/delivery_service.py:185-193 | an active row with no name, signed in with the right password, makes the login raise `ValidationError` |
| CourierService.FilterFieldsKeeps | services/delivery_service.py:289-295 | the whitelist keeps exactly the assignments to creation fields other than the password, in payload order, without repeating a key |
| CourierService.BuildUpdateQuery | services/delivery_service.py:284-303 | the SET list and its values, side by side, are the kept assignments in payload order, and the id is appended as the last parameter |
| CourierService.AssignFacts | services/delivery_service.py:304-310 | after `SET k = v, ...` every assigned column holds its new value and every other column keeps its old one |
| CourierService.UpdateRepartidorWith | services/delivery_service.py:275-344 | for any except chain: an empty payload and a payload with nothing updatable are the two 400s before any write; success iff something is updatable, no database error, the id exists, and the updated row passes the response model; a rejected row raises `ValidationError` into the except chain, as do a database error and an unknown id; failure leaves the table unchanged; a success leaves a row the response model accepts |
| CourierService.UpdateWritesKeptOnly | services/delivery_service.py:304-320 | a successful update writes the kept values into that row only; every column no kept assignment names, including the password hash, reads as before (present or absent); the answer is the row without its password |
| CourierService.UpdateRepartidor | services/delivery_service.py:275-344 | as written: the two 400s; 23505 is 409 and any other database error 500; an unknown id is 500 because the 404 is caught by `except Exception`; so is an updated row the response model rejects; success iff something is updatable, no database error, the id exists and the row passes |
| CourierService.UpdateRepartidorIntended | services/delivery_service.py:316-321 | with HTTP errors re-raised, an unknown id is the 404 "Repartidor con ID n no encontrado."; success under the same conditions as as written |
| CourierService.UpdateDisponibilidad | services/delivery_service.py:347-387 | success iff no database error, the id exists and the switched row passes the response model, and then only that row's availability changes; every database error is 500, and so are an unknown id and a rejected row |
| CourierService.UpdateDisponibilidadIntended | services/delivery_service.py:364-369 | with HTTP errors re-raised, an unknown id is 404; success under the same conditions as as written |
| Authenticator.GetCurrentUser | middleware/authenticator.py:47-132 | no credentials is 401 before decoding; expired is 401 with the expiry detail, another JWT error 401 with the credentials detail; user data iff `sub` is present and `role` is "cliente", copied; any other payload is 500 |
| Authenticator.GetCurrentUserIntended | middleware/authenticator.py:78-99 | with HTTP errors re-raised, a missing `sub` or `role` is 401 and another role is 403 |
| Authenticator.GetCurrentRepartidor | middleware/authenticator.py:135-214 | expired and invalid tokens are the two 401s; courier data iff `sub`, `id_repartidor` and `role` are present, the role is "repartidor", `sub` is an e-mail address and the id an integer, all copied; any other payload is 500 |
| Authenticator.GetCurrentRepartidorIntended | middleware/authenticator.py:160-179 | with HTTP errors re-raised, a missing claim is 401 and another role is 403 |
| CourierProperties.FilterKeepsUpdatable | services/delivery_service.py:289-295 | a payload of updatable keys passes the whitelist unchanged |
| CourierProperties.ValidatedUpdateSurvivesFilter | models/delivery_model.py:32-41 | every `RepartidorUpdate` field is a `RepartidorCreate` field other than the password, so a validated body loses nothing in the whitelist |
| CourierProperties.EmptyBodyIsRejected | services/delivery_service.py:278-283 | an empty body validates to an empty dump, which is the first 400 with the table unchanged |
| CourierProperties.CulpritIgnoresCase | services/delivery_service.py:122-131 | the classification does not depend on the case of the message |
| CourierProperties.DuplicateAddressIsNamed | services/delivery_service.py:120-125 | the message PostgreSQL gives for a unique constraint under its default name on the address column yields the 409 naming the address |
| CourierProperties.CreatedCourierDefaults | services/delivery_service.py:99-108 | a courier created from a body without availability (or with null) is stored available, without a state is stored "ACTIVO", and with the hash as password |
| CourierProperties.ExplicitNullIsRefused | services/delivery_service.py:321-344 | an update body that sends null for a name, the address, the availability or the state validates, but the row it would leave fails the response model, so the answer is the 500 "Error inesperado al actualizar repartidor." and the table is unchanged |
| CourierService.NullWriteNotServable | models/delivery_model.py:7-18 | writing null into a column the response model requires leaves a row it rejects |
| CourierProperties.NullPassesValidation | models/delivery_model.py:32-41 | every `RepartidorUpdate` field accepts an explicit null, and the dump keeps it |
| CourierProperties.CreateKeepsTableServable | services/delivery_service.py:80-117 | creating a courier from a validated body succeeds and keeps every row readable by the response model |
| CourierProperties.UpdateKeepsTableServable | services/delivery_service.py:304-321 | after any update, as written, every row is readable by the response model |
| CourierProperties.AvailabilityKeepsServable | services/delivery_service.py:352-369 | switching the availability of an existing, readable courier succeeds and keeps every row readable |
| CourierProperties.UpdateKeepsLogin | services/delivery_service.py:289-295 | an update that does not send the state leaves the login decision for that account as it was |
| CourierProperties.AvailabilityKeepsLogin | services/delivery_service.py:347-362 | switching availability never changes who can sign in |
| CourierProperties.SubjectIdentifiesCourier | services/delivery_service.py:172-181 | two issued tokens with the same `sub` belong to the same courier |
| CourierProperties.UnknownCourierUpdateIs500 | services/delivery_service.py:316-344 | the update of an unknown courier is 500 as written and 404 with re-raising |
| CourierProperties.UnknownCourierAvailabilityIs500 | services/delivery_service.py:364-387 | the availability switch of courier 7 in an empty table is 500 as written and 404 with re-raising |
| Text.ParseIntToString | services/delivery_service.py:175 | `str(id)` is read back to the same id |
| Text.IntToStringInjective | services/delivery_service.py:175 | distinct ids give distinct `sub` texts |
| TokenProperties.IssuedTokenRejected | services/delivery_service.py:172-181 | for any address check that needs an '@', every token the login issues is refused by the courier validator with 500, and also when it re-raises |
| TokenProperties.IntendedTokenAccepted | models/delivery_model.py:63-66 | a token carrying the stored address is accepted and yields that address and the account's id |
| TokenProperties.RegisteredCourierIsLockedOut | services/delivery_service.py:172-181 | a courier registered with a valid body and signing in with the right password gets a token the validator refuses with 500 |
| TokenProperties.RegisteredCourierSignsIn | services/delivery_service.py:172-181 | with the address under `sub`, the same courier's token is accepted with the registered address and the new id |
| TokenProperties.ReraisingKeepsAcceptance | middleware/authenticator.py:124-132 | re-raising the HTTP errors changes only how tokens are refused: both versions of each validator accept the same tokens with the same data |
| TokenProperties.ClientTokenAtCourierValidator | middleware/authenticator.py:168-179 | a client's token at the courier validator is 500 as written and 403 "Rol no autorizado para repartidor: cliente" with re-raising |
| TokenProperties.RolelessTokenAtUserValidator | middleware/authenticator.py:78-87 | a token with a subject and no role is 500 as written and 401 with re-raising |

## Left out

- The database layer is left out: SQL text, cursors and commits. Both service modules import `get_db_cursor` from database.py (services/order_service.py:1, services/delivery_service.py:29-31), but database.py defines only `get_connection`, so as written both modules fail at import. The model assumes a `get_db_cursor` context manager that commits on a normal exit and rolls back when an exception leaves the block. A statement's failure is the `fault` input.
- Order-service database errors are left out. The order operations are modelled without the `psycopg2.Error` branch, which answers 500 in every one of them.
- Concurrency is left out. The claim's read and its unguarded `UPDATE` can interleave with another courier's claim; the model is sequential.
- Rows are listed in an unspecified order. The listings promise membership and no repeats, not SQL's row order.
- `total_pedido`, `fecha_pedido` and `fecha_registro_repartidor` (floats and timestamps) are not in the records.
- Hashing, JWT encoding, JWT decoding and expiry are left out. They are inputs (`hashed`, `verify`, `Decoded`), and the signed token is represented by the claims handed to the encoder.
- CourierService.AuthenticateRepartidor: the lookup `get_repartidor_by_correo` is not modelled. Its answer is the input `found`, so its database error (the 500 "Error al buscar repartidor por correo.") and its unexpected-error 500 are not modelled. `get_repartidor_by_id` and its two 500s are left out the same way. The router is not modelled either: it turns the `ValidationError` the login can raise into a 500 whose detail is the error's text (routers/delivery.py:79-82), and the model stops at the raised `ValidationExc`.
- Authenticator.GetCurrentUser: middleware/authenticator.py:15 imports `TokenDataUser` from models/user_model.py, which defines only `User`. As written, the module fails at import. The model assumes a `TokenDataUser` that copies `sub` and `role` as decoded and validates nothing more.
- CourierModels.ValidateCreate: pydantic's lax coercions (a numeric string to an int, 0/1/"yes" to a bool) and `EmailStr`'s normalisation of the address are not modelled. A value of the wrong JSON type is rejected, and an accepted address is stored as sent.
- CourierModels.ValidateUpdate: the same lax coercions and the same `EmailStr` normalisation are not modelled.
- Authenticator.GetCurrentRepartidor: `EmailStr`'s normalisation of `sub` is not modelled; the accepted address is copied as decoded.
- Authenticator.GetCurrentRepartidor: for the same reason, an `id_repartidor` claim sent as a numeric string is refused, though pydantic would coerce it.
- Text.Lower lower-cases ASCII letters only, while Python's `lower()` maps all of Unicode, and the message can hold non-ASCII text (the DETAIL line quotes the duplicated value; the server may be localised). The answer is still the same. The only non-ASCII characters whose Python lower-case contains an ASCII letter are U+0130, which becomes "i" followed by U+0307, and U+212A, which becomes "k". No column name the search looks for contains "k". Every "i" in those names is followed by an ASCII character, never by U+0307. So neither character can complete an occurrence that the ASCII-only version misses.
- CourierService.Servable: the response model's `EmailStr` check of the stored address and its `fecha_registro_repartidor` timestamp are not re-checked. The row's address is one that was validated on the way in.
- Logging, routers, the FastAPI dependency wiring, `services/auth_service.py`, `services/product_service.py` and `routers/login.py` are outside the core and are not modelled.
- Order creation with line items, cancellation and a full transition graph have no code in the core files and are not modelled.
- The `INSERT` of `create_repartidor` is taken to always return its row. The 500 for an INSERT returning no row has no input that reaches it in a sequential model.

## Findings

| source | as written | input that shows it | evidently intended | confidence | as-written member | corrected member |
|---|---|---|---|---|---|---|
| services/delivery_service.py:175 | the courier login signs `sub = str(id_repartidor)` | any successful login: id 5 gives `sub = "5"`, which `TokenDataRepartidor.correo_repartidor: EmailStr` rejects, so `get_current_repartidor` answers 500 to every issued token | `sub` carries the courier's address, as models/delivery_model.py:64 says the validator expects | high; not executed | TokenProperties.RegisteredCourierIsLockedOut | TokenProperties.RegisteredCourierSignsIn |
| middleware/authenticator.py:124-132 | the 401 for a missing claim and the 403 for a foreign role are raised inside `try` and caught by `except Exception` | a token whose payload is `{"sub": "5"}` gets 500 instead of 401 | `except HTTPException: raise` before the generic handler, as order_service.py does | high; not executed | TokenProperties.RolelessTokenAtUserValidator | Authenticator.GetCurrentUserIntended |
| middleware/authenticator.py:202-210 | the same for `get_current_repartidor` | a client token (`role = "cliente"`) gets 500 instead of 403 | re-raise the HTTP errors | high; not executed | TokenProperties.ClientTokenAtCourierValidator | Authenticator.GetCurrentRepartidorIntended |
| services/delivery_service.py:336-344 | the 404 for an unknown courier is caught by `except Exception` | updating courier 7 in an empty table gets 500 "Error inesperado al actualizar repartidor." | 404 "Repartidor con ID 7 no encontrado." | high; not executed | CourierProperties.UnknownCourierUpdateIs500 | CourierService.UpdateRepartidorIntended |
| services/delivery_service.py:379-387 | the same for the availability switch | switching availability of courier 7 in an empty table gets 500 | 404 | high; not executed | CourierProperties.UnknownCourierAvailabilityIs500 | CourierService.UpdateDisponibilidadIntended |
