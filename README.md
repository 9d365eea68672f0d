# Parking store business rules, in Dafny

`parqueo-api` is a REST API for a parking lot, backed by a MySQL database.
- Vehicles enter and leave through **tickets** (`ACTIVO → CERRADO`) that occupy and free a **space**.
- The stay is billed by the started hour at the ticket's **tariff**.
- A closed ticket receives exactly one **payment**.
- **Fines** can be attached to tickets.
- Clients make **reservations** of spaces (`ACTIVA → CANCELADA | FINALIZADA`); an overlap test runs at creation.
- Registries of clients, vehicles, zones, spaces, tariffs, payment types, employees, shifts and roles complete the store.
- A JWT middleware guards the routes.

This project models that store and proves properties about it:
- Every controller checks its preconditions in a fixed order and rejects the request before any write. Only then does it change a few rows.

## How the model is built

- **The database.** It is one class, `Schema.Db`, with one field per table. Each table is a `Tables.Table<T>`: a map from id to row, plus an AUTO_INCREMENT counter. An insert picks a fresh id of at least 1.
- **Handlers.** Each one is a method over `db`, and its frame names only the tables it writes (`modifies db`tickets, db`espacios`). Its status result is `Common.Status`, where `Ok` stands for both 200 and 201.
- **Handler contracts** state:
  - each rejection, in the source's order, with its status;
  - `Ok` exactly when every guard passes;
  - an unchanged table on every rejection;
  - on `Ok`, the exact new rows;
  - the invariants the handler preserves.
- **Request fields** are `Option`s: `None` is an absent field, and for values stored unchecked it is SQL NULL.
- **JavaScript truthiness** is `Truthy` for numbers (present and not 0) and `TruthyStr` for text (present and not "").
- **Query-string filters** are text, so any non-empty value, "0" included, turns a filter on.
- **Money and time.** Money is in integer cents. Time is in integer minutes, and the clock (`NOW()`) is a parameter `now`.
- **Pure computations** are functions: billing, the overlap test, the time format, the permission table, counts and totals, and the header parsing in the auth middleware.
- **Invariants.** The model states these invariants as ghost predicates. Each is proved preserved by the handlers whose contracts state it; "## Left out" names the handlers that can break one:
  - at most one ACTIVO ticket per vehicle;
  - a space is unavailable exactly when an ACTIVO ticket holds it;
  - no ticket leaves CERRADO;
  - one payment per ticket, and only for closed tickets;
  - no overlapping ACTIVA reservations on a space;
  - unique names, codes and plates;
  - no dangling reference (`Tables.SinColgantes`), kept by each delete guard for the relation it protects and by the inserts that look the referenced row up.

## Model

| member | source | states |
|---|---|---|
| Tables.Insert | parqueo-api/src/controllers/tickets.controller.js:73-76 | An INSERT gives the row an id of at least 1 that no row had, and adds exactly that row. |
| Tables.Put | parqueo-api/src/controllers/espacios.controller.js:233-236 | `UPDATE ... WHERE id = ?` replaces one existing row and keeps the set of ids. |
| Tables.Remove | parqueo-api/src/controllers/espacios.controller.js:288 | `DELETE ... WHERE id = ?` removes exactly that id. |
| Tables.Rows | parqueo-api/src/controllers/espacios.controller.js:9-18 | `SELECT *` lists one entry per row, and exactly the stored rows. A value appears as many times as there are ids storing it. |
| Tables.CountRows | parqueo-api/src/controllers/espacios.controller.js:15-18 | The rows of a listing that pass a test are as many as the ids whose stored row passes it. |
| Tables.EliminarNoReferenciado | parqueo-api/src/controllers/espacios.controller.js:264-288 | Deleting a row that no row references keeps "no dangling reference" true. Every delete guard relies on this. |
| Common.ToUpper | parqueo-api/src/controllers/vehiculos.controller.js:142 | `toUpperCase` maps each character to its upper-case form: a lower-case letter becomes its capital, and every other character is kept. So the length is kept, no lower-case letter is left, and upper-case text is unchanged. |
| Common.ToUpperIdempotent | parqueo-api/src/controllers/roles.controller.js:302 | Upper-casing twice gives the same text as upper-casing once. |
| Common.UpperOpt | parqueo-api/src/controllers/espacios.controller.js:189 | `codigo?.toUpperCase()` keeps NULL as NULL and upper-cases a present value. |
| Common.Filter | parqueo-api/src/controllers/reservas.controller.js:49-51 | `filter` keeps only entries that pass the test, never more often than they occur, and keeps every passing entry. Its length is the number of passing entries. |
| Common.FilterMultiplicidad | parqueo-api/src/controllers/reservas.controller.js:49-51 | A kept value appears in the filtered rows exactly as often as in the rows. A dropped value does not appear at all. |
| Common.CountComplement | parqueo-api/src/controllers/espacios.controller.js:17-18 | The rows counted by a test and by its negation add up to the row count. |
| Common.CountExclusive3 | parqueo-api/src/controllers/reservas.controller.js:49-51 | Counts under three mutually exclusive tests add up to at most the row count. |
| Common.SumSplit | parqueo-api/src/controllers/pagos.controller.js:167 | The `reduce` total over the rows a filter keeps, plus the total over the rest, is the grand total. |
| Billing.HorasCobrar | parqueo-api/src/controllers/tickets.controller.js:179 | `CEIL(minutes / 60.0)` is the unique h with 60(h-1) < minutes ≤ 60h. |
| Billing.HorasCobrarUnique | parqueo-api/src/controllers/tickets.controller.js:179 | Any h within those bounds is the rounded count, so the rounding is fully specified. |
| Billing.HorasCobrarMonotone | parqueo-api/src/controllers/tickets.controller.js:179 | A longer stay never bills fewer hours. 0 minutes bill 0 hours, and any positive stay bills at least one. |
| Billing.Facturar | parqueo-api/src/controllers/tickets.controller.js:178-180 | The exit readout holds the minutes and the rounded hours. Its amount is NULL exactly when the price is (a LEFT JOIN to a missing tariff). |
| Billing.FacturarBounds | parqueo-api/src/controllers/tickets.controller.js:178-180 | The amount covers the exact pro-rata charge (minutes × price / 60). It exceeds that charge by less than one hour's price. |
| Billing.FacturarExamples | parqueo-api/src/controllers/tickets.controller.js:178-180 | 59, 60 and 61 minutes bill 1, 1 and 2 hours; 125 minutes at 10.00 bill 3 hours and 30.00. |
| Tickets.RegistrarEntrada | parqueo-api/src/controllers/tickets.controller.js:13-82 | Rejections, in order, each leaving tickets and spaces unchanged: a missing field gives 400; unknown vehicle 404; unknown space 404; unavailable space 400; the vehicle already has an ACTIVO ticket 400. On Ok it adds exactly one ACTIVO ticket with the caller as employee and a tariff id that is not looked up, and marks that one space unavailable. It preserves one-ACTIVO-per-vehicle, the occupancy invariant, closed tickets, exit-time coherence, and the vehicle and space references. |
| Tickets.EntradaPreservaOcupacion | parqueo-api/src/controllers/tickets.controller.js:50-82 | Inserting an ACTIVO ticket on an available space and marking it occupied keeps "unavailable ⇔ held by exactly one ACTIVO ticket". |
| Tickets.PrecioDe | parqueo-api/src/controllers/tickets.controller.js:180 | The tariff price through the LEFT JOIN is NULL for a missing tariff, and the stored price otherwise. |
| Tickets.RegistrarSalida | parqueo-api/src/controllers/tickets.controller.js:144-180 | Unknown ticket gives 404; a CERRADO ticket gives 400 with nothing changed, so exit is not idempotent. On Ok the ticket becomes CERRADO with `hora_salida = now`, its space becomes available, and the reply is the bill for now − entry at the tariff's price. It preserves the same invariants as entry; exit-time coherence needs a clock that does not go back. |
| Tickets.SalidaPreservaOcupacion | parqueo-api/src/controllers/tickets.controller.js:162-171 | Closing an ACTIVO ticket and freeing its space keeps the occupancy invariant. |
| Tickets.MinutosTotales | parqueo-api/src/controllers/tickets.controller.js:315-318 | `minutos_totales` runs to now while the ticket is ACTIVO. Once it is CERRADO it is exit minus entry, or NULL when there is no exit time. |
| Tickets.MinutosTotalesCerrado | parqueo-api/src/controllers/tickets.controller.js:315-318 | Under exit-time coherence, a closed ticket's minutes are exactly exit minus entry. They are non-negative and do not depend on the clock. |
| Tickets.ListarActivos | parqueo-api/src/controllers/tickets.controller.js:272-296 | `listarActivos` lists exactly the stored ACTIVO tickets. Its `total` is the number of ticket ids whose state is ACTIVO. |
| Tickets.ObtenerTicket | parqueo-api/src/controllers/tickets.controller.js:309-341 | An unknown id gives 404. Otherwise the result is the ticket's minutes by the rule above. |
| Pagos.RegistrarPago | parqueo-api/src/controllers/pagos.controller.js:15-111 | Rejections, in order, each leaving payments unchanged: a falsy ticket, type or amount gives 400 (an amount of 0 too); unknown ticket 404; ticket not CERRADO 400; ticket already paid 409; unknown payment type 404. On Ok it adds exactly one row holding the tendered amount. The receipt carries the expected amount and the change. It preserves one-payment-per-ticket, payments-only-for-closed-tickets, and the payment-type reference. |
| Pagos.PagosDeCerradosEstable | parqueo-api/src/controllers/pagos.controller.js:44-50 | Payments stay attached to closed tickets through any ticket change that leaves closed tickets intact, which is every ticket handler. |
| Pagos.HorasDe | parqueo-api/src/controllers/pagos.controller.js:26-28 | `horas_cobrar` of a ticket is NULL without an exit time, and is otherwise the started hours between entry and exit. |
| Pagos.MontoEsperado | parqueo-api/src/controllers/pagos.controller.js:67 | `horas_cobrar * precio_hora` is their product, or 0 when either is NULL (JavaScript `null * x`). |
| Pagos.MontoEsperadoEsFactura | parqueo-api/src/controllers/pagos.controller.js:67 | The expected payment equals the amount the exit billed for the same ticket and tariff, with NULL read as 0. |
| Pagos.Cambio | parqueo-api/src/controllers/pagos.controller.js:111 | The change is never negative. It is positive exactly on overpayment, and is then the excess over the expected amount. Underpayment gets 0. |
| Pagos.ListarPagos | parqueo-api/src/controllers/pagos.controller.js:129-174 | With a type filter, exactly the payments of that type, and `total` is the number of payment ids of that type. Without one, every payment. |
| Pagos.TotalPorTipo | parqueo-api/src/controllers/pagos.controller.js:167-171 | The filtered `total_monto` plus the total of the other types is the unfiltered total. |
| Reservas.ClausulasSonInterseccion | parqueo-api/src/controllers/reservas.controller.js:197-215 | For ordered intervals, the three-clause conflict query holds exactly when the closed intervals intersect, in both directions. |
| Reservas.CrearReserva | parqueo-api/src/controllers/reservas.controller.js:153-222 | Rejections, in order, each leaving reservations unchanged: missing fields give 400; end ≤ start 400; unknown client 404; unknown space 404; a conflicting ACTIVA reservation on the space 409. On Ok it adds exactly one ACTIVA reservation with the given dates and does not touch spaces. It preserves date order, the no-overlap invariant, and finished reservations. |
| Reservas.CreacionPreservaSinSolapes | parqueo-api/src/controllers/reservas.controller.js:197-222 | Inserting a reservation that passed the conflict query keeps ACTIVA reservations on one space pairwise disjoint. |
| Reservas.ActualizarReserva | parqueo-api/src/controllers/reservas.controller.js:272-298 | Unknown id gives 404. A non-ACTIVA reservation gives 400. With both dates given, end ≤ start gives 400. Otherwise both dates and the state are overwritten from the request. It keeps date order and leaves non-ACTIVA reservations untouched. |
| Reservas.ActualizacionRompeSinSolapes | parqueo-api/src/controllers/reservas.controller.js:286-298 | The update runs no conflict query. An example store shows that it can create overlapping ACTIVA reservations. |
| Reservas.Cerrar | parqueo-api/src/controllers/reservas.controller.js:340-356 | Unknown id gives 404. A non-ACTIVA reservation gives 400 with no change. Otherwise only its state changes, to the non-ACTIVA target. It preserves the no-overlap invariant and finished reservations. |
| Reservas.CancelarReserva | parqueo-api/src/controllers/reservas.controller.js:331-369 | Unknown id gives 404. A reservation that is not ACTIVA gives 400 and nothing changes. Otherwise only that row becomes CANCELADA. Date order, non-overlap and the closed rows are kept. |
| Reservas.FinalizarReserva | parqueo-api/src/controllers/reservas.controller.js:374-412 | Unknown id gives 404. A reservation that is not ACTIVA gives 400 and nothing changes. Otherwise only that row becomes FINALIZADA. Date order, non-overlap and the closed rows are kept. |
| Reservas.ListarReservas | parqueo-api/src/controllers/reservas.controller.js:6-48 | Lists exactly the reservations matching the state filter (when it is non-empty) and the client filter (when present). Its length is the number of reservation ids that match. |
| Reservas.ContarPorId | parqueo-api/src/controllers/reservas.controller.js:47-52 | For each state, the listing's count equals the number of reservation ids that match the listing's filters and are in that state. |
| Reservas.Contar | parqueo-api/src/controllers/reservas.controller.js:47-52 | Each state count is the length of the listing filtered on that state, and total is the listing's length. The states exclude each other, so `activas + finalizadas + canceladas ≤ total`. |
| Espacios.CrearEspacio | parqueo-api/src/controllers/espacios.controller.js:109-144 | Missing zone or code gives 400; unknown zone 404; code already stored 409. On Ok it adds one space with the upper-cased code and the availability sent, which defaults to available. It keeps codes unique when the code was sent upper-case, and keeps the zone reference. |
| Espacios.ActualizarEspacio | parqueo-api/src/controllers/espacios.controller.js:176-190 | Unknown id gives 404. Otherwise zone, upper-cased code and availability are overwritten, with no uniqueness check. |
| Espacios.CambiarDisponibilidad | parqueo-api/src/controllers/espacios.controller.js:222-236 | Unknown id gives 404. Otherwise only that space's flag changes. Codes stay unique. |
| Espacios.CambioRompeOcupacion | parqueo-api/src/controllers/espacios.controller.js:222-236 | Freeing a space that an ACTIVO ticket holds breaks the occupancy invariant; an example shows it. |
| Espacios.EliminarEspacio | parqueo-api/src/controllers/espacios.controller.js:264-288 | Unknown id gives 404. Any ticket on the space, open or closed, gives 400. Otherwise only that space is removed. No ticket is left pointing at a missing space, and occupancy is kept. |
| Espacios.ListarEspacios | parqueo-api/src/controllers/espacios.controller.js:15-18 | `disponibles` and `ocupados` are the numbers of space ids that are available and not available. They are also the lengths of the listing filtered on each test, and they add up to `total`, the number of spaces. |
| Espacios.ListarDisponibles | parqueo-api/src/controllers/espacios.controller.js:34-57 | Lists exactly the available spaces, restricted to the zone when the filter is given. Its `total` is the number of such space ids. |
| Espacios.DisponiblesSinTicket | parqueo-api/src/controllers/espacios.controller.js:38-50 | Under the occupancy invariant, the available listing holds a space exactly when no ACTIVO ticket holds it. Both directions are stated. |
| Vehiculos.CrearVehiculo | parqueo-api/src/controllers/vehiculos.controller.js:106-142 | Missing client or plate gives 400; unknown client 404; plate already stored 409. On Ok it adds one vehicle with the upper-cased plate. It keeps plates unique when the plate was sent upper-case, and keeps the client reference. |
| Vehiculos.ActualizarVehiculo | parqueo-api/src/controllers/vehiculos.controller.js:177-192 | Unknown id gives 404. Otherwise every column is overwritten, with the plate upper-cased and no duplicate check. |
| Vehiculos.EliminarVehiculo | parqueo-api/src/controllers/vehiculos.controller.js:225-250 | Unknown id gives 404. Any ticket on the vehicle gives 400. Otherwise only that vehicle is removed, and no ticket is left dangling. |
| Vehiculos.BuscarPorPlaca | parqueo-api/src/controllers/vehiculos.controller.js:70-83 | 404 exactly when no vehicle stores the plate. Otherwise the result is a stored vehicle with that plate. |
| Vehiculos.BuscarPorPlacaUnico | parqueo-api/src/controllers/vehiculos.controller.js:70-83 | With unique plates, the lookup returns the one vehicle that has the plate. |
| Tarifas.CrearTarifa | parqueo-api/src/controllers/tarifas.controller.js:66-85 | A falsy description or price gives 400, and a price ≤ 0 gives 400. So every created tariff has a positive price. No negative price is ever stored. |
| Tarifas.ActualizarTarifa | parqueo-api/src/controllers/tarifas.controller.js:116-140 | Unknown id gives 404. A supplied price ≤ 0 gives 400. Otherwise both columns are overwritten, and a NULL or 0 price can get through. |
| Tarifas.EliminarTarifa | parqueo-api/src/controllers/tarifas.controller.js:169-193 | Unknown id gives 404. Any ticket on the tariff gives 400. Otherwise it is deleted, and no ticket is left pointing at a missing tariff. |
| Tarifas.CobroDeTarifa | parqueo-api/src/controllers/tarifas.controller.js:66-85 | With no negative price stored, any bill for a non-negative stay is non-negative and within one hour's price of pro rata. |
| TiposPago.CrearTipoPago | parqueo-api/src/controllers/tipospago.controller.js:78-102 | A missing name gives 400, and an existing name 409. Otherwise one type is added. Non-empty names stay pairwise distinct. |
| TiposPago.ActualizarTipoPago | parqueo-api/src/controllers/tipospago.controller.js:133-164 | Unknown id gives 404. A supplied name held by another type gives 409. Otherwise the name is overwritten as sent. Names stay distinct. |
| TiposPago.EliminarTipoPago | parqueo-api/src/controllers/tipospago.controller.js:193-217 | Unknown id gives 404. Any payment of the type gives 400. Otherwise it is deleted, and no payment is left dangling. |
| Multas.CrearMulta | parqueo-api/src/controllers/multas.controller.js:114-146 | Missing ticket, reason or amount gives 400; amount ≤ 0 400; unknown ticket 404, whatever the ticket's state. On Ok it adds one fine. Amounts stay non-negative, and the ticket reference is kept. |
| Multas.ActualizarMulta | parqueo-api/src/controllers/multas.controller.js:185-208 | Unknown id gives 404. A supplied amount ≤ 0 gives 400. Otherwise reason and amount are overwritten. |
| Multas.EliminarMulta | parqueo-api/src/controllers/multas.controller.js:245-256 | Unknown id gives 404. Otherwise the fine is removed, with no other guard. |
| Multas.ListarMultas | parqueo-api/src/controllers/multas.controller.js:6-50 | With the ticket filter, exactly that ticket's fines, and `total` is the number of fine ids for the ticket. Without it, all fines. |
| Multas.TotalMultas | parqueo-api/src/controllers/multas.controller.js:43-48 | `total_monto` is a number exactly when no listed amount is NULL (`parseFloat(null)` is NaN). It is 0 for an empty listing. |
| Multas.TotalMultasEsSuma | parqueo-api/src/controllers/multas.controller.js:43-48 | When every listed amount is present, `total_monto` is the sum of the amounts. |
| Multas.TotalMultasNoNegativo | parqueo-api/src/controllers/multas.controller.js:43-48 | Non-negative amounts give a non-negative total. Positive amounts in a non-empty listing give a positive total. |
| Clientes.CrearCliente | parqueo-api/src/controllers/clientes.controller.js:66-77 | Ok exactly when the name is non-empty, whatever the store holds. No uniqueness is checked. |
| Clientes.ActualizarCliente | parqueo-api/src/controllers/clientes.controller.js:108-124 | Unknown id gives 404. Otherwise all four columns are overwritten. |
| Clientes.EliminarCliente | parqueo-api/src/controllers/clientes.controller.js:154-180 | Unknown id gives 404. Any vehicle of the client gives 400. Otherwise only that client is removed, and no vehicle is left with a dangling client. |
| Zonas.CrearZona | parqueo-api/src/controllers/zonas.controller.js:83-93 | Ok exactly when the name is non-empty. |
| Zonas.ActualizarZona | parqueo-api/src/controllers/zonas.controller.js:122-136 | Unknown id gives 404. Otherwise name and description are overwritten. |
| Zonas.EliminarZona | parqueo-api/src/controllers/zonas.controller.js:164-188 | Unknown id gives 404. Any space in the zone gives 400. Otherwise it is deleted, and no space is left dangling. |
| Zonas.ContarZona | parqueo-api/src/controllers/zonas.controller.js:9-15 | `total_espacios` and `espacios_disponibles` are the numbers of space ids in the zone and of those that are available. So the second is at most the first. The total is 0 exactly when the delete guard would let the zone go. |
| Empleados.CrearEmpleado | parqueo-api/src/controllers/empleados.controller.js:94-165 | Rejections, in order: missing user or DPI gives 400; unknown user 404; user already an employee 409; DPI in use 409; a supplied shift that does not exist 404. On Ok it adds one employee as sent. It preserves one-employee-per-user, unique DPIs and the shift reference. |
| Empleados.ActualizarEmpleado | parqueo-api/src/controllers/empleados.controller.js:210-228 | Unknown id gives 404. Otherwise shift, phone, address and DPI are overwritten without re-checking; the user link is kept. One-employee-per-user is preserved. |
| Empleados.CambiarEstado | parqueo-api/src/controllers/empleados.controller.js:268-283 | Unknown employee gives 404. Otherwise only the `activo` flag of the linked user changes. |
| Empleados.EliminarEmpleado | parqueo-api/src/controllers/empleados.controller.js:314-338 | Unknown id gives 404. Any ticket whose `empleado_id` equals the id gives 400. Otherwise it is deleted. Uniqueness invariants are kept, and no ticket is left dangling. |
| Turnos.FormatoEsValido | parqueo-api/src/controllers/turnos.controller.js:98 | Every time of day (hour < 24, minute and second < 60), written zero-padded as `HH:MM:SS`, matches the pattern and reads back as itself. |
| Turnos.ValidaEsFormato | parqueo-api/src/controllers/turnos.controller.js:98 | Every string the pattern accepts is such a time written out, so the pattern accepts exactly the 24-hour times. |
| Turnos.CrearTurno | parqueo-api/src/controllers/turnos.controller.js:90-110 | A missing time gives 400, and a time not matching the pattern gives 400. Start and end are not ordered. On Ok one shift is added, and stored times stay valid. |
| Turnos.ActualizarTurno | parqueo-api/src/controllers/turnos.controller.js:140-169 | Unknown id gives 404. Only the supplied times are checked (400). Then all three columns are overwritten. Stored times stay valid. |
| Turnos.EliminarTurno | parqueo-api/src/controllers/turnos.controller.js:198-223 | Unknown id gives 404. Assigned employees give 400. Otherwise it is deleted, and no employee is left dangling. |
| Roles.CrearRol | parqueo-api/src/controllers/roles.controller.js:88-112 | A missing name gives 400, and an existing name 409. Names stay non-empty and distinct. |
| Roles.ActualizarRol | parqueo-api/src/controllers/roles.controller.js:140-174 | Unknown id gives 404. A changed name held by another role gives 409. An empty name keeps the old one. Names stay non-empty and distinct. |
| Roles.EliminarRol | parqueo-api/src/controllers/roles.controller.js:203-239 | Unknown id gives 404. ADMIN, ADMINISTRADOR, USUARIO and EMPLEADO, in any case, give 403 before users are counted. Assigned users give 400. So no system role is ever removed, and no user is left dangling. |
| Roles.Permisos | parqueo-api/src/controllers/roles.controller.js:273-303 | The lookup by upper-cased name gives nothing for unknown names. Only system roles get permissions, and every permission granted is also ADMIN's. |
| Roles.PermisosMenores | parqueo-api/src/controllers/roles.controller.js:273-300 | Every permission of EMPLEADO or USUARIO appears under ADMIN for the same resource. |
| Roles.UsuarioNoIncluidoEnEmpleado | parqueo-api/src/controllers/roles.controller.js:286-299 | The table is not a ladder: USUARIO may create reservations and EMPLEADO may not. |
| Roles.PermisosSinMayusculas | parqueo-api/src/controllers/roles.controller.js:302-303 | The lookup does not depend on the case of the stored name. |
| Roles.ObtenerPermisos | parqueo-api/src/controllers/roles.controller.js:261-303 | Unknown role gives 404 and no permissions. Otherwise the result is the table entry for the role's upper-cased name, and only system roles get a non-empty one. |
| Auth.Split | parqueo-api/src/middlewares/auth.middleware.js:17 | `split(' ')` yields at least one piece, and no piece holds a space. |
| Auth.JoinSplit | parqueo-api/src/middlewares/auth.middleware.js:17 | Joining the pieces with the separator gives the header back. |
| Auth.SplitJoin | parqueo-api/src/middlewares/auth.middleware.js:17 | Splitting the join of separator-free pieces gives the pieces back. |
| Auth.Token | parqueo-api/src/middlewares/auth.middleware.js:17 | The token is the second piece, or absent (`undefined`); it never holds a space. |
| Auth.TokenDeBearer | parqueo-api/src/middlewares/auth.middleware.js:16-17 | For `Bearer <token>` with a space-free token, the token is extracted exactly. |
| Auth.SinEspacioSinToken | parqueo-api/src/middlewares/auth.middleware.js:17-24 | A header without a space yields no token. |
| Auth.VerificarToken | parqueo-api/src/middlewares/auth.middleware.js:4-48 | A missing header gives 403, and an absent or empty token 403. A verified token continues with the decoded claims. A `TokenExpiredError` gives 401 "expired", and any other failure 401 "invalid". It rejects with nothing but 403 or 401. |
| Auth.VerificarRol | parqueo-api/src/middlewares/auth.middleware.js:51-69 | No user gives 401, and a role outside the allowed list 403. Otherwise the request continues with the same user. |
| Auth.ProtegerConcede | parqueo-api/src/middlewares/auth.middleware.js:4-69 | Both middlewares in a row pass a request exactly when a token is present, verifies, and carries an allowed role. An empty list lets nobody through. |
| Auth.ProtegerBearer | parqueo-api/src/middlewares/auth.middleware.js:16-69 | For a well-formed bearer header the outcome depends only on the verifier's verdict on the token. |

## Left out

- HTTP wiring is not part of this model: the server setup, the route files, and the handlers' JSON reply bodies. Only the status and the values the business rules compute are kept.
- The login controller (password hashing, JWT signing) and the access-history controller are not part of this model. Token verification (`jwt.verify` with the secret and expiry) is a function parameter of `Auth.VerificarToken`.
- SQL mechanics:
  - JOINs that only add display columns;
  - `ORDER BY` and `LIMIT` (listings come out in id order);
  - the date-range filters of the listings;
  - the GROUP BY reports;
  - transactions, modelled as all guards before any write.
- Concurrency between simultaneous requests is not modelled; each handler runs alone.
- Exceptions and 500 replies are not modelled. Among them:
  - database errors;
  - NOT NULL and foreign-key constraints of the schema, whose DDL is not part of this model;
  - `toUpperCase` on a missing plate or code, or on a missing role name.
- Floating point is not modelled:
  - `toFixed(2)`;
  - `parseFloat`;
  - DECIMAL values arriving as strings, which are multiplied and added.

  Money is exact integer cents.
- Dates and the clock:
  - `NOW()` is the parameter `now`;
  - `TIMESTAMPDIFF(MINUTE, ...)` is a difference of minute counts;
  - the parsing of request dates in reservations is not modelled: dates arrive as minute counts.
- Character case: `toUpperCase` is modelled on ASCII letters only. Collation is not modelled either: duplicate checks compare the text exactly, and the database's case-insensitive comparison may behave differently.
- The ticket's `empleado_id` is the caller's user id. The listings join it against employee ids. The model keeps it as an opaque id and does not relate users to employees.
- JSON `null` and an absent field are both `None`. The one place where they differ is `crearEspacio`'s `disponible` default (`!== undefined`), where an explicit `null` would be stored as NULL. The model gives the default to both.
- Reservations are not consulted by the space and client delete guards (the source does not consult them). So "no dangling reference" is not claimed for reservations.
- The read-only lookups by id (`obtenerX` other than tickets) and the plain listings without a computed value are not modelled. They return stored rows unchanged.
- Espacios.CrearEspacio: code uniqueness is proved only when the code is sent upper-case. The duplicate query compares the code as sent, and the stored value is upper-cased; the database's collation decides the rest.
- Vehiculos.CrearVehiculo: plate uniqueness is proved only when the plate is sent upper-case, for the same reason.
- Espacios.ActualizarEspacio: no uniqueness is claimed, because the update checks no duplicates.
- Vehiculos.ActualizarVehiculo: no uniqueness is claimed, because the update checks no duplicates.
- Empleados.ActualizarEmpleado: DPI uniqueness is not claimed, because the update does not re-check the DPI. The shift reference is not claimed either: `turno_id` is overwritten without looking the shift up.
- Espacios.CrearEspacio: occupancy is not claimed. A space created with `disponible: false` is unavailable although no ACTIVO ticket holds it.
- Espacios.ActualizarEspacio: occupancy is not claimed, because `disponible` is overwritten as sent. The zone reference is not claimed either: `zona_id` is overwritten without looking the zone up.
- Espacios.CambiarDisponibilidad: occupancy is not claimed; `Espacios.CambioRompeOcupacion` shows that it can fail.
- Vehiculos.ActualizarVehiculo: the client reference is not claimed, because `cliente_id` is overwritten without looking the client up.
- Tickets.RegistrarEntrada: the tariff reference is not claimed, because the tariff id is stored without looking it up. A missing tariff bills a NULL amount (`Tickets.PrecioDe`).
- Espacios.CrearEspacio, Espacios.ActualizarEspacio, Espacios.CambiarDisponibilidad: `disponible` is modelled as true, false or NULL. The source stores the request's value unchecked in a TINYINT column. A non-boolean value such as 2 is then truthy for the JavaScript tests (the listing's count and the entry guard) but not equal to 1 for the SQL test of the available-spaces listing. That case is not modelled.
- Reservas.ActualizarReserva: the no-overlap invariant is not claimed; `Reservas.ActualizacionRompeSinSolapes` shows that it can fail.
- Tickets.RegistrarSalida: exit-time coherence is claimed only when the clock is not behind a recorded entry.
