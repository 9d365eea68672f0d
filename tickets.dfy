/** Ticket lifecycle (tickets.controller.js): entry opens an ACTIVO ticket and
    occupies its space, exit closes it (ACTIVO -> CERRADO) and frees the space.
    Every guard runs before any write, so a rejected request changes nothing. */
module Tickets {
  import opened Common
  import opened Tables
  import opened Schema
  import opened Billing

  // ---------------------------------------------------------------------------
  // The columns of a ticket that reference other tables

  function VehiculoDeTicket(t: Ticket): Option<int>
  {
    Some(t.vehiculoId)
  }

  function EspacioDeTicket(t: Ticket): Option<int>
  {
    Some(t.espacioId)
  }

  function TarifaDeTicket(t: Ticket): Option<int>
  {
    Some(t.tarifaId)
  }

  function EmpleadoDeTicket(t: Ticket): Option<int>
  {
    Some(t.empleadoId)
  }

  // ---------------------------------------------------------------------------
  // Invariants

  /** The vehicle has an ACTIVO ticket (`WHERE vehiculo_id = ? AND estado = "ACTIVO"`). */
  predicate TieneActivo(t: map<int, Ticket>, vehiculoId: int)
  {
    exists a :: a in t && t[a].vehiculoId == vehiculoId && t[a].estado == Activo
  }

  /** Some ACTIVO ticket references the space. */
  predicate OcupadoPor(t: map<int, Ticket>, espacioId: int)
  {
    exists a :: a in t && t[a].espacioId == espacioId && t[a].estado == Activo
  }

  /** At most one ACTIVO ticket per vehicle. */
  ghost predicate UnActivoPorVehiculo(t: map<int, Ticket>)
  {
    forall a, b ::
      (a in t && b in t && t[a].estado == Activo && t[b].estado == Activo
       && t[a].vehiculoId == t[b].vehiculoId) ==> a == b
  }

  /** A space is unavailable exactly when one ACTIVO ticket references it:
      no two ACTIVO tickets share a space, every ACTIVO ticket's space exists,
      and a space is occupied iff an ACTIVO ticket references it. */
  ghost predicate Ocupacion(t: map<int, Ticket>, e: map<int, Espacio>)
  {
    && (forall a, b ::
          (a in t && b in t && t[a].estado == Activo && t[b].estado == Activo
           && t[a].espacioId == t[b].espacioId) ==> a == b)
    && (forall a :: a in t && t[a].estado == Activo ==> t[a].espacioId in e)
    && (forall s :: s in e ==> (!Disponible(e[s]) <==> OcupadoPor(t, s)))
  }

  /** No ticket leaves CERRADO: every closed ticket survives unchanged. */
  ghost predicate CerradosIntactos(before: map<int, Ticket>, after: map<int, Ticket>)
  {
    forall a :: a in before && before[a].estado == Cerrado ==> a in after && after[a] == before[a]
  }

  /** The exit time is set exactly on closed tickets, and never precedes the entry time. */
  ghost predicate SalidaCoherente(t: map<int, Ticket>)
  {
    forall a :: a in t ==>
      (t[a].horaSalida.Some? <==> t[a].estado == Cerrado)
      && (t[a].horaSalida.Some? ==> t[a].horaEntrada <= t[a].horaSalida.value)
  }

  /** The clock reads no earlier than any recorded entry (NOW() never goes back). */
  ghost predicate RelojPosterior(t: map<int, Ticket>, now: int)
  {
    forall a :: a in t ==> t[a].horaEntrada <= now
  }

  // ---------------------------------------------------------------------------
  // registrarEntrada

  datatype EntradaReq = EntradaReq(vehiculoId: Option<int>, espacioId: Option<int>, tarifaId: Option<int>)

  predicate CamposEntrada(req: EntradaReq)
  {
    Truthy(req.vehiculoId) && Truthy(req.espacioId) && Truthy(req.tarifaId)
  }

  /** Marks one space occupied (`UPDATE Espacios SET disponible = FALSE`). */
  function Ocupar(e: map<int, Espacio>, s: int): map<int, Espacio>
    requires s in e
  {
    e[s := e[s].(disponible := Some(false))]
  }

  /** Marks one space free (`UPDATE Espacios SET disponible = TRUE`); no row
      matches when the space is gone. */
  function Liberar(e: map<int, Espacio>, s: int): map<int, Espacio>
  {
    if s in e then e[s := e[s].(disponible := Some(true))] else e
  }

  /** `POST /tickets/entrada`. The tariff is only required to be non-empty: its
      existence is not checked. `usuarioId` is the caller's id from the token. */
  method RegistrarEntrada(db: Db, req: EntradaReq, usuarioId: int, now: int) returns (st: Status, ticketId: int)
    modifies db`tickets, db`espacios
    // the guards, in the order they run
    ensures !CamposEntrada(req) ==> st == BadRequest
    ensures CamposEntrada(req) && req.vehiculoId.value !in db.vehiculos.rows ==> st == NotFound
    ensures (CamposEntrada(req) && req.vehiculoId.value in db.vehiculos.rows
             && req.espacioId.value !in old(db.espacios.rows)) ==> st == NotFound
    ensures (CamposEntrada(req) && req.vehiculoId.value in db.vehiculos.rows
             && req.espacioId.value in old(db.espacios.rows)
             && !Disponible(old(db.espacios.rows)[req.espacioId.value])) ==> st == BadRequest
    ensures (CamposEntrada(req) && req.vehiculoId.value in db.vehiculos.rows
             && req.espacioId.value in old(db.espacios.rows)
             && Disponible(old(db.espacios.rows)[req.espacioId.value])
             && TieneActivo(old(db.tickets.rows), req.vehiculoId.value)) ==> st == BadRequest
    ensures st == Ok <==>
      CamposEntrada(req) && req.vehiculoId.value in db.vehiculos.rows
      && req.espacioId.value in old(db.espacios.rows)
      && Disponible(old(db.espacios.rows)[req.espacioId.value])
      && !TieneActivo(old(db.tickets.rows), req.vehiculoId.value)
    // a rejection writes nothing
    ensures st != Ok ==> db.tickets == old(db.tickets) && db.espacios == old(db.espacios)
    // a success inserts one ACTIVO ticket and occupies its space, nothing more
    ensures st == Ok ==>
      ticketId !in old(db.tickets.rows)
      && db.tickets.rows == old(db.tickets.rows)[ticketId := Ticket(req.vehiculoId.value, req.espacioId.value,
                              usuarioId, req.tarifaId.value, now, None, Activo)]
      && db.espacios.rows == Ocupar(old(db.espacios.rows), req.espacioId.value)
    // preserved invariants
    ensures UnActivoPorVehiculo(old(db.tickets.rows)) ==> UnActivoPorVehiculo(db.tickets.rows)
    ensures Ocupacion(old(db.tickets.rows), old(db.espacios.rows)) ==> Ocupacion(db.tickets.rows, db.espacios.rows)
    ensures CerradosIntactos(old(db.tickets.rows), db.tickets.rows)
    ensures SalidaCoherente(old(db.tickets.rows)) ==> SalidaCoherente(db.tickets.rows)
    // the vehicle and the space are checked to exist; the tariff is not
    ensures SinColgantes(old(db.tickets.rows), VehiculoDeTicket, db.vehiculos.rows)
            ==> SinColgantes(db.tickets.rows, VehiculoDeTicket, db.vehiculos.rows)
    ensures SinColgantes(old(db.tickets.rows), EspacioDeTicket, old(db.espacios.rows))
            ==> SinColgantes(db.tickets.rows, EspacioDeTicket, db.espacios.rows)
  {
    ticketId := 0;
    if !CamposEntrada(req) {
      return BadRequest, ticketId;
    }
    var v, e, tar := req.vehiculoId.value, req.espacioId.value, req.tarifaId.value;
    if v !in db.vehiculos.rows {
      return NotFound, ticketId;
    }
    if e !in db.espacios.rows {
      return NotFound, ticketId;
    }
    if !Disponible(db.espacios.rows[e]) {
      return BadRequest, ticketId;
    }
    if TieneActivo(db.tickets.rows, v) {
      return BadRequest, ticketId;
    }
    ghost var t0, e0 := db.tickets.rows, db.espacios.rows;
    var nuevo := Ticket(v, e, usuarioId, tar, now, None, Activo);
    var (tabla, id) := Insert(db.tickets, nuevo);
    db.tickets := tabla;
    db.espacios := Put(db.espacios, e, db.espacios.rows[e].(disponible := Some(false)));
    st, ticketId := Ok, id;
    EntradaPreservaOcupacion(t0, e0, id, nuevo);
  }

  lemma EntradaPreservaOcupacion(t: map<int, Ticket>, e: map<int, Espacio>, id: int, nuevo: Ticket)
    requires id !in t && nuevo.estado == Activo && nuevo.espacioId in e && Disponible(e[nuevo.espacioId])
    ensures Ocupacion(t, e) ==> Ocupacion(t[id := nuevo], Ocupar(e, nuevo.espacioId))
  {
    if Ocupacion(t, e) {
      var t1, e1 := t[id := nuevo], Ocupar(e, nuevo.espacioId);
      forall s | s in e1
        ensures !Disponible(e1[s]) <==> OcupadoPor(t1, s)
      {
        if s == nuevo.espacioId {
          assert t1[id].espacioId == s;
        } else {
          assert e1[s] == e[s];
          if OcupadoPor(t1, s) {
            var a :| a in t1 && t1[a].espacioId == s && t1[a].estado == Activo;
            assert a in t;
          }
          if OcupadoPor(t, s) {
            var a :| a in t && t[a].espacioId == s && t[a].estado == Activo;
            assert a in t1 && t1[a] == t[a];
          }
        }
      }
    }
  }

  // ---------------------------------------------------------------------------
  // registrarSalida

  /** The price of a ticket's tariff, as the LEFT JOIN reads it: NULL when the
      tariff row is missing. */
  function PrecioDe(tarifas: Table<Tarifa>, tarifaId: int): (p: Option<int>)
    ensures tarifaId !in tarifas.rows ==> p == None
    ensures tarifaId in tarifas.rows ==> p == tarifas.rows[tarifaId].precioHora
  {
    if tarifaId in tarifas.rows then tarifas.rows[tarifaId].precioHora else None
  }

  /** `PUT /tickets/{id}/salida`. A second exit on the same ticket is an error,
      not a no-op. */
  method RegistrarSalida(db: Db, id: int, now: int) returns (st: Status, factura: Option<Factura>)
    modifies db`tickets, db`espacios
    ensures id !in old(db.tickets.rows) ==> st == NotFound
    ensures id in old(db.tickets.rows) && old(db.tickets.rows)[id].estado == Cerrado ==> st == BadRequest
    ensures st == Ok <==> id in old(db.tickets.rows) && old(db.tickets.rows)[id].estado == Activo
    ensures st != Ok ==> db.tickets == old(db.tickets) && db.espacios == old(db.espacios) && factura == None
    ensures st == Ok ==>
      var tk := old(db.tickets.rows)[id];
      && db.tickets.rows == old(db.tickets.rows)[id := tk.(horaSalida := Some(now), estado := Cerrado)]
      && db.espacios.rows == Liberar(old(db.espacios.rows), tk.espacioId)
      && factura == Some(Facturar(now - tk.horaEntrada, PrecioDe(db.tarifas, tk.tarifaId)))
    ensures UnActivoPorVehiculo(old(db.tickets.rows)) ==> UnActivoPorVehiculo(db.tickets.rows)
    ensures Ocupacion(old(db.tickets.rows), old(db.espacios.rows)) ==> Ocupacion(db.tickets.rows, db.espacios.rows)
    ensures CerradosIntactos(old(db.tickets.rows), db.tickets.rows)
    ensures SalidaCoherente(old(db.tickets.rows)) && RelojPosterior(old(db.tickets.rows), now) ==>
      SalidaCoherente(db.tickets.rows)
    ensures SinColgantes(old(db.tickets.rows), EspacioDeTicket, old(db.espacios.rows))
            ==> SinColgantes(db.tickets.rows, EspacioDeTicket, db.espacios.rows)
    ensures SinColgantes(old(db.tickets.rows), VehiculoDeTicket, db.vehiculos.rows)
            ==> SinColgantes(db.tickets.rows, VehiculoDeTicket, db.vehiculos.rows)
  {
    if id !in db.tickets.rows {
      return NotFound, None;
    }
    var tk := db.tickets.rows[id];
    if tk.estado == Cerrado {
      return BadRequest, None;
    }
    ghost var t0, e0 := db.tickets.rows, db.espacios.rows;
    db.tickets := Put(db.tickets, id, tk.(horaSalida := Some(now), estado := Cerrado));
    if tk.espacioId in db.espacios.rows {
      db.espacios := Put(db.espacios, tk.espacioId, db.espacios.rows[tk.espacioId].(disponible := Some(true)));
    }
    SalidaPreservaOcupacion(t0, e0, id, now);
    st := Ok;
    factura := Some(Facturar(now - tk.horaEntrada, PrecioDe(db.tarifas, tk.tarifaId)));
  }

  lemma SalidaPreservaOcupacion(t: map<int, Ticket>, e: map<int, Espacio>, id: int, now: int)
    requires id in t && t[id].estado == Activo
    ensures var t1 := t[id := t[id].(horaSalida := Some(now), estado := Cerrado)];
      Ocupacion(t, e) ==> Ocupacion(t1, Liberar(e, t[id].espacioId))
  {
    var t1 := t[id := t[id].(horaSalida := Some(now), estado := Cerrado)];
    var e1 := Liberar(e, t[id].espacioId);
    if Ocupacion(t, e) {
      forall s | s in e1
        ensures !Disponible(e1[s]) <==> OcupadoPor(t1, s)
      {
        if OcupadoPor(t1, s) {
          var a :| a in t1 && t1[a].espacioId == s && t1[a].estado == Activo;
          assert a != id && a in t && t[a] == t1[a];
        }
        if s != t[id].espacioId && OcupadoPor(t, s) {
          var a :| a in t && t[a].espacioId == s && t[a].estado == Activo;
          assert a != id && a in t1 && t1[a] == t[a];
        }
      }
    }
  }

  // ---------------------------------------------------------------------------
  // listarActivos, obtenerTicket

  /** `minutos_totales` of `obtenerTicket`: up to now while ACTIVO, up to the exit
      time once CERRADO (NULL if that time is NULL). */
  function MinutosTotales(tk: Ticket, now: int): (m: Option<int>)
    ensures tk.estado == Activo ==> m == Some(now - tk.horaEntrada)
    ensures tk.estado == Cerrado ==> (m.Some? <==> tk.horaSalida.Some?)
    ensures tk.estado == Cerrado && tk.horaSalida.Some? ==> m == Some(tk.horaSalida.value - tk.horaEntrada)
  {
    if tk.estado == Activo then Some(now - tk.horaEntrada)
    else if tk.horaSalida.Some? then Some(tk.horaSalida.value - tk.horaEntrada)
    else None
  }

  /** Under the exit-time invariant every ticket has a readable, non-negative
      duration once closed, and a closed ticket's duration no longer depends on
      the clock. */
  lemma MinutosTotalesCerrado(t: map<int, Ticket>, a: int, now1: int, now2: int)
    requires SalidaCoherente(t) && a in t && t[a].estado == Cerrado
    ensures MinutosTotales(t[a], now1).Some? && MinutosTotales(t[a], now1).value >= 0
    ensures MinutosTotales(t[a], now1) == MinutosTotales(t[a], now2)
    ensures MinutosTotales(t[a], now1) == Some(t[a].horaSalida.value - t[a].horaEntrada)
  {
  }

  predicate EsActivo(tk: Ticket)
  {
    tk.estado == Activo
  }

  /** `listarActivos`: exactly the ACTIVO tickets. */
  function ListarActivos(t: Table<Ticket>): (r: seq<Ticket>)
    ensures forall x :: x in r ==> x.estado == Activo && exists a :: a in t.rows && t.rows[a] == x
    ensures forall a :: a in t.rows && t.rows[a].estado == Activo ==> t.rows[a] in r
    ensures |r| <= |t.rows|
    ensures |r| == |set a | a in t.rows && t.rows[a].estado == Activo|
  {
    ActivosPorId(t);
    Filter(Rows(t), EsActivo)
  }

  lemma ActivosPorId(t: Table<Ticket>)
    ensures Count(Rows(t), EsActivo) == |set a | a in t.rows && t.rows[a].estado == Activo|
  {
    CountRows(t, EsActivo);
    assert IdsDonde(t.rows, EsActivo) == set a | a in t.rows && t.rows[a].estado == Activo;
  }

  /** `obtenerTicket`: NotFound for an unknown id, otherwise the ticket's minutes. */
  function ObtenerTicket(t: Table<Ticket>, id: int, now: int): (r: (Status, Option<int>))
    ensures r.0 == Ok <==> id in t.rows
    ensures r.0 == Ok ==> r.1 == MinutosTotales(t.rows[id], now)
    ensures r.0 != Ok ==> r.0 == NotFound && r.1 == None
  {
    if id in t.rows then (Ok, MinutosTotales(t.rows[id], now)) else (NotFound, None)
  }
}
