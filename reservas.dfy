/** Reservations (reservas.controller.js): ACTIVA -> {CANCELADA, FINALIZADA},
    with an overlap test on creation. Dates are timestamps in minutes; an absent
    or empty date field is None. */
module Reservas {
  import opened Common
  import opened Tables
  import opened Schema

  predicate EsActiva(r: Reserva)
  {
    r.estado == Some(ACTIVA)
  }

  // ---------------------------------------------------------------------------
  // The overlap test

  /** Closed intervals [s, e] and [ns, ne] share a point. */
  predicate Intersecan(s: int, e: int, ns: int, ne: int)
  {
    s <= ne && ns <= e
  }

  /** The three clauses of the conflict query, on one stored reservation
      [s, e] and a requested [ns, ne]. */
  predicate ClausulasConflicto(s: int, e: int, ns: int, ne: int)
  {
    (s <= ns && e >= ns) || (s <= ne && e >= ne) || (s >= ns && e <= ne)
  }

  /** For ordered intervals the three clauses are exactly closed-interval
      intersection, in both directions. */
  lemma ClausulasSonInterseccion(s: int, e: int, ns: int, ne: int)
    requires s <= e && ns <= ne
    ensures ClausulasConflicto(s, e, ns, ne) <==> Intersecan(s, e, ns, ne)
  {
    if Intersecan(s, e, ns, ne) {
      if s > ns && e > ne {
        assert s <= ne <= e;
      }
    }
  }

  /** A stored reservation matches the conflict query: same space, ACTIVA, and
      (with both dates non-NULL, since a NULL comparison is never true) one of
      the three clauses holds. */
  predicate ConflictoCon(r: Reserva, espacioId: int, ns: int, ne: int)
  {
    r.espacioId == espacioId && EsActiva(r) && r.fechaInicio.Some? && r.fechaFin.Some?
    && ClausulasConflicto(r.fechaInicio.value, r.fechaFin.value, ns, ne)
  }

  predicate HayConflicto(m: map<int, Reserva>, espacioId: int, ns: int, ne: int)
  {
    exists a :: a in m && ConflictoCon(m[a], espacioId, ns, ne)
  }

  // ---------------------------------------------------------------------------
  // Invariants

  /** Every reservation with both dates set ends strictly after it starts. */
  ghost predicate FechasOrdenadas(m: map<int, Reserva>)
  {
    forall a :: a in m && m[a].fechaInicio.Some? && m[a].fechaFin.Some? ==>
      m[a].fechaInicio.value < m[a].fechaFin.value
  }

  /** No two ACTIVA reservations with dates on one space intersect. */
  ghost predicate SinSolapes(m: map<int, Reserva>)
  {
    forall a, b ::
      (a in m && b in m && a != b && EsActiva(m[a]) && EsActiva(m[b])
       && m[a].espacioId == m[b].espacioId
       && m[a].fechaInicio.Some? && m[a].fechaFin.Some? && m[b].fechaInicio.Some? && m[b].fechaFin.Some?)
      ==> !Intersecan(m[a].fechaInicio.value, m[a].fechaFin.value, m[b].fechaInicio.value, m[b].fechaFin.value)
  }

  /** A reservation that is no longer ACTIVA is never changed or removed: there
      is no way back from CANCELADA or FINALIZADA. */
  ghost predicate NoActivasIntactas(before: map<int, Reserva>, after: map<int, Reserva>)
  {
    forall a :: a in before && !EsActiva(before[a]) ==> a in after && after[a] == before[a]
  }

  // ---------------------------------------------------------------------------
  // crearReserva

  datatype ReservaReq = ReservaReq(clienteId: Option<int>, espacioId: Option<int>,
                                   fechaInicio: Option<int>, fechaFin: Option<int>)

  predicate CamposReserva(req: ReservaReq)
  {
    Truthy(req.clienteId) && Truthy(req.espacioId) && req.fechaInicio.Some? && req.fechaFin.Some?
  }

  /** `POST /reservas`. Space availability is neither checked nor changed. */
  method CrearReserva(db: Db, req: ReservaReq, now: int) returns (st: Status, id: int)
    modifies db`reservas
    ensures !CamposReserva(req) ==> st == BadRequest
    ensures (CamposReserva(req) && req.fechaFin.value <= req.fechaInicio.value) ==> st == BadRequest
    ensures (CamposReserva(req) && req.fechaInicio.value < req.fechaFin.value
             && req.clienteId.value !in db.clientes.rows) ==> st == NotFound
    ensures (CamposReserva(req) && req.fechaInicio.value < req.fechaFin.value
             && req.clienteId.value in db.clientes.rows
             && req.espacioId.value !in db.espacios.rows) ==> st == NotFound
    ensures (CamposReserva(req) && req.fechaInicio.value < req.fechaFin.value
             && req.clienteId.value in db.clientes.rows && req.espacioId.value in db.espacios.rows
             && HayConflicto(old(db.reservas.rows), req.espacioId.value, req.fechaInicio.value, req.fechaFin.value))
            ==> st == Conflict
    ensures st == Ok <==>
      CamposReserva(req) && req.fechaInicio.value < req.fechaFin.value
      && req.clienteId.value in db.clientes.rows && req.espacioId.value in db.espacios.rows
      && !HayConflicto(old(db.reservas.rows), req.espacioId.value, req.fechaInicio.value, req.fechaFin.value)
    ensures st != Ok ==> db.reservas == old(db.reservas)
    ensures st == Ok ==>
      id !in old(db.reservas.rows)
      && db.reservas.rows == old(db.reservas.rows)[id := Reserva(req.clienteId.value, req.espacioId.value, now,
                               req.fechaInicio, req.fechaFin, Some(ACTIVA))]
    ensures FechasOrdenadas(old(db.reservas.rows)) ==> FechasOrdenadas(db.reservas.rows)
    ensures (FechasOrdenadas(old(db.reservas.rows)) && SinSolapes(old(db.reservas.rows)))
            ==> SinSolapes(db.reservas.rows)
    ensures NoActivasIntactas(old(db.reservas.rows), db.reservas.rows)
  {
    id := 0;
    if !CamposReserva(req) {
      return BadRequest, id;
    }
    var c, e, ns, ne := req.clienteId.value, req.espacioId.value, req.fechaInicio.value, req.fechaFin.value;
    if ne <= ns {
      return BadRequest, id;
    }
    if c !in db.clientes.rows {
      return NotFound, id;
    }
    if e !in db.espacios.rows {
      return NotFound, id;
    }
    if HayConflicto(db.reservas.rows, e, ns, ne) {
      return Conflict, id;
    }
    ghost var m0 := db.reservas.rows;
    var nueva := Reserva(c, e, now, Some(ns), Some(ne), Some(ACTIVA));
    var (tabla, nid) := Insert(db.reservas, nueva);
    db.reservas := tabla;
    st, id := Ok, nid;
    CreacionPreservaSinSolapes(m0, id, nueva);
  }

  lemma CreacionPreservaSinSolapes(m: map<int, Reserva>, id: int, nueva: Reserva)
    requires id !in m && nueva.fechaInicio.Some? && nueva.fechaFin.Some?
    requires nueva.fechaInicio.value < nueva.fechaFin.value
    requires !HayConflicto(m, nueva.espacioId, nueva.fechaInicio.value, nueva.fechaFin.value)
    ensures (FechasOrdenadas(m) && SinSolapes(m)) ==> SinSolapes(m[id := nueva])
  {
    if FechasOrdenadas(m) && SinSolapes(m) {
      var m1 := m[id := nueva];
      var ns, ne := nueva.fechaInicio.value, nueva.fechaFin.value;
      forall a | a in m && EsActiva(m[a]) && m[a].espacioId == nueva.espacioId
                 && m[a].fechaInicio.Some? && m[a].fechaFin.Some?
        ensures !Intersecan(m[a].fechaInicio.value, m[a].fechaFin.value, ns, ne)
        ensures !Intersecan(ns, ne, m[a].fechaInicio.value, m[a].fechaFin.value)
      {
        assert !ConflictoCon(m[a], nueva.espacioId, ns, ne);
        ClausulasSonInterseccion(m[a].fechaInicio.value, m[a].fechaFin.value, ns, ne);
      }
    }
  }

  // ---------------------------------------------------------------------------
  // actualizarReserva

  datatype ReservaCambio = ReservaCambio(fechaInicio: Option<int>, fechaFin: Option<int>, estado: Option<string>)

  /** `PUT /reservas/{id}`. The dates and the state are overwritten from the
      request (an absent field becomes NULL), and no conflict is checked. */
  method ActualizarReserva(db: Db, id: int, req: ReservaCambio) returns (st: Status)
    modifies db`reservas
    ensures id !in old(db.reservas.rows) ==> st == NotFound
    ensures (id in old(db.reservas.rows) && !EsActiva(old(db.reservas.rows)[id])) ==> st == BadRequest
    ensures (id in old(db.reservas.rows) && EsActiva(old(db.reservas.rows)[id])
             && req.fechaInicio.Some? && req.fechaFin.Some? && req.fechaFin.value <= req.fechaInicio.value)
            ==> st == BadRequest
    ensures st == Ok <==>
      id in old(db.reservas.rows) && EsActiva(old(db.reservas.rows)[id])
      && !(req.fechaInicio.Some? && req.fechaFin.Some? && req.fechaFin.value <= req.fechaInicio.value)
    ensures st != Ok ==> db.reservas == old(db.reservas)
    ensures st == Ok ==>
      db.reservas.rows == old(db.reservas.rows)[id := old(db.reservas.rows)[id].(
        fechaInicio := req.fechaInicio, fechaFin := req.fechaFin, estado := req.estado)]
    ensures FechasOrdenadas(old(db.reservas.rows)) ==> FechasOrdenadas(db.reservas.rows)
    ensures NoActivasIntactas(old(db.reservas.rows), db.reservas.rows)
  {
    if id !in db.reservas.rows {
      return NotFound;
    }
    var r := db.reservas.rows[id];
    if !EsActiva(r) {
      return BadRequest;
    }
    if req.fechaInicio.Some? && req.fechaFin.Some? && req.fechaFin.value <= req.fechaInicio.value {
      return BadRequest;
    }
    db.reservas := Put(db.reservas, id, r.(fechaInicio := req.fechaInicio, fechaFin := req.fechaFin, estado := req.estado));
    st := Ok;
  }

  /** Since the update runs no conflict query, moving one ACTIVA reservation
      onto another's interval on the same space breaks the no-overlap
      invariant that creation keeps. */
  lemma ActualizacionRompeSinSolapes()
    ensures var m := map[1 := Reserva(1, 1, 0, Some(0), Some(10), Some(ACTIVA)),
                         2 := Reserva(1, 1, 0, Some(20), Some(30), Some(ACTIVA))];
      FechasOrdenadas(m) && SinSolapes(m)
      && !SinSolapes(m[2 := m[2].(fechaInicio := Some(5), fechaFin := Some(15), estado := Some(ACTIVA))])
  {
    var m := map[1 := Reserva(1, 1, 0, Some(0), Some(10), Some(ACTIVA)),
                 2 := Reserva(1, 1, 0, Some(20), Some(30), Some(ACTIVA))];
    var m2 := m[2 := m[2].(fechaInicio := Some(5), fechaFin := Some(15), estado := Some(ACTIVA))];
    assert m.Keys == {1, 2};
    assert Intersecan(m2[1].fechaInicio.value, m2[1].fechaFin.value, m2[2].fechaInicio.value, m2[2].fechaFin.value);
  }

  // ---------------------------------------------------------------------------
  // cancelarReserva, finalizarReserva

  /** Moves an ACTIVA reservation to `destino`. */
  method Cerrar(db: Db, id: int, destino: string) returns (st: Status)
    requires destino != ACTIVA
    modifies db`reservas
    ensures id !in old(db.reservas.rows) ==> st == NotFound
    ensures (id in old(db.reservas.rows) && !EsActiva(old(db.reservas.rows)[id])) ==> st == BadRequest
    ensures st == Ok <==> id in old(db.reservas.rows) && EsActiva(old(db.reservas.rows)[id])
    ensures st != Ok ==> db.reservas == old(db.reservas)
    ensures st == Ok ==>
      db.reservas.rows == old(db.reservas.rows)[id := old(db.reservas.rows)[id].(estado := Some(destino))]
      && !EsActiva(db.reservas.rows[id])
    ensures FechasOrdenadas(old(db.reservas.rows)) ==> FechasOrdenadas(db.reservas.rows)
    ensures SinSolapes(old(db.reservas.rows)) ==> SinSolapes(db.reservas.rows)
    ensures NoActivasIntactas(old(db.reservas.rows), db.reservas.rows)
  {
    if id !in db.reservas.rows {
      return NotFound;
    }
    var r := db.reservas.rows[id];
    if !EsActiva(r) {
      return BadRequest;
    }
    db.reservas := Put(db.reservas, id, r.(estado := Some(destino)));
    st := Ok;
  }

  /** `PUT /reservas/{id}/cancelar` */
  method CancelarReserva(db: Db, id: int) returns (st: Status)
    modifies db`reservas
    ensures st == Ok <==> id in old(db.reservas.rows) && EsActiva(old(db.reservas.rows)[id])
    ensures id !in old(db.reservas.rows) ==> st == NotFound
    ensures (id in old(db.reservas.rows) && !EsActiva(old(db.reservas.rows)[id])) ==> st == BadRequest
    ensures st != Ok ==> db.reservas == old(db.reservas)
    ensures st == Ok ==>
      db.reservas.rows == old(db.reservas.rows)[id := old(db.reservas.rows)[id].(estado := Some(CANCELADA))]
    ensures FechasOrdenadas(old(db.reservas.rows)) ==> FechasOrdenadas(db.reservas.rows)
    ensures SinSolapes(old(db.reservas.rows)) ==> SinSolapes(db.reservas.rows)
    ensures NoActivasIntactas(old(db.reservas.rows), db.reservas.rows)
  {
    st := Cerrar(db, id, CANCELADA);
  }

  /** `PUT /reservas/{id}/finalizar` */
  method FinalizarReserva(db: Db, id: int) returns (st: Status)
    modifies db`reservas
    ensures st == Ok <==> id in old(db.reservas.rows) && EsActiva(old(db.reservas.rows)[id])
    ensures id !in old(db.reservas.rows) ==> st == NotFound
    ensures (id in old(db.reservas.rows) && !EsActiva(old(db.reservas.rows)[id])) ==> st == BadRequest
    ensures st != Ok ==> db.reservas == old(db.reservas)
    ensures st == Ok ==>
      db.reservas.rows == old(db.reservas.rows)[id := old(db.reservas.rows)[id].(estado := Some(FINALIZADA))]
    ensures FechasOrdenadas(old(db.reservas.rows)) ==> FechasOrdenadas(db.reservas.rows)
    ensures SinSolapes(old(db.reservas.rows)) ==> SinSolapes(db.reservas.rows)
    ensures NoActivasIntactas(old(db.reservas.rows), db.reservas.rows)
  {
    st := Cerrar(db, id, FINALIZADA);
  }

  // ---------------------------------------------------------------------------
  // listarReservas

  function EnEstado(estado: string): Reserva -> bool
  {
    (r: Reserva) => r.estado == Some(estado)
  }

  function Coincide(estado: Option<string>, clienteId: Option<int>): Reserva -> bool
  {
    (r: Reserva) => (TruthyStr(estado) ==> r.estado == estado) && (clienteId.Some? ==> r.clienteId == clienteId.value)
  }

  /** `GET /reservas` with the optional state and client filters (a query
      parameter is text: an absent or empty one is None, and "0" filters). */
  function ListarReservas(t: Table<Reserva>, estado: Option<string>, clienteId: Option<int>): (r: seq<Reserva>)
    ensures forall x :: x in r ==> exists a :: a in t.rows && t.rows[a] == x
    ensures forall x :: x in r && TruthyStr(estado) ==> x.estado == estado
    ensures forall x :: x in r && clienteId.Some? ==> x.clienteId == clienteId.value
    ensures forall a :: (a in t.rows && Coincide(estado, clienteId)(t.rows[a])) ==> t.rows[a] in r
    ensures |r| == |set a | a in t.rows && Coincide(estado, clienteId)(t.rows[a])|
  {
    CoincidePorId(t, estado, clienteId);
    Filter(Rows(t), Coincide(estado, clienteId))
  }

  lemma CoincidePorId(t: Table<Reserva>, estado: Option<string>, clienteId: Option<int>)
    ensures Count(Rows(t), Coincide(estado, clienteId)) == |set a | a in t.rows && Coincide(estado, clienteId)(t.rows[a])|
  {
    CountRows(t, Coincide(estado, clienteId));
    assert IdsDonde(t.rows, Coincide(estado, clienteId)) == set a | a in t.rows && Coincide(estado, clienteId)(t.rows[a]);
  }

  datatype Conteo = Conteo(total: nat, activas: nat, finalizadas: nat, canceladas: nat)

  /** The summary counts of a listing. The three states exclude each other, so
      their counts never add up to more than the rows listed (a row whose state
      was overwritten with something else is counted in none). */
  function Contar(r: seq<Reserva>): (c: Conteo)
    ensures c.total == |r|
    ensures c.activas + c.finalizadas + c.canceladas <= c.total
    ensures c.activas <= c.total && c.finalizadas <= c.total && c.canceladas <= c.total
    ensures c.activas == |Filter(r, EnEstado(ACTIVA))|
    ensures c.finalizadas == |Filter(r, EnEstado(FINALIZADA))|
    ensures c.canceladas == |Filter(r, EnEstado(CANCELADA))|
  {
    CountExclusive3(r, EnEstado(ACTIVA), EnEstado(FINALIZADA), EnEstado(CANCELADA));
    Conteo(|r|, Count(r, EnEstado(ACTIVA)), Count(r, EnEstado(FINALIZADA)), Count(r, EnEstado(CANCELADA)))
  }

  /** The counts of a listing are counts of stored reservations: for each
      state, the ids whose row passes the listing's filters and is in that
      state. */
  lemma ContarPorId(t: Table<Reserva>, estado: Option<string>, clienteId: Option<int>)
    ensures var c := Contar(ListarReservas(t, estado, clienteId));
      var p := Coincide(estado, clienteId);
      && c.activas == |set a | a in t.rows && p(t.rows[a]) && t.rows[a].estado == Some(ACTIVA)|
      && c.finalizadas == |set a | a in t.rows && p(t.rows[a]) && t.rows[a].estado == Some(FINALIZADA)|
      && c.canceladas == |set a | a in t.rows && p(t.rows[a]) && t.rows[a].estado == Some(CANCELADA)|
  {
    EnEstadoPorId(t, estado, clienteId, ACTIVA);
    EnEstadoPorId(t, estado, clienteId, FINALIZADA);
    EnEstadoPorId(t, estado, clienteId, CANCELADA);
  }

  lemma EnEstadoPorId(t: Table<Reserva>, estado: Option<string>, clienteId: Option<int>, e: string)
    ensures Count(ListarReservas(t, estado, clienteId), EnEstado(e))
         == |set a | a in t.rows && Coincide(estado, clienteId)(t.rows[a]) && t.rows[a].estado == Some(e)|
  {
    var p := Coincide(estado, clienteId);
    var q := And(p, EnEstado(e));
    assert ListarReservas(t, estado, clienteId) == Filter(Rows(t), p);
    CountFilter(Rows(t), p, EnEstado(e));
    CountRows(t, q);
    IdsEnEstado(t.rows, p, e);
  }

  lemma IdsEnEstado(m: map<int, Reserva>, p: Reserva -> bool, e: string)
    ensures IdsDonde(m, And(p, EnEstado(e))) == set a | a in m && p(m[a]) && m[a].estado == Some(e)
  {
  }
}
