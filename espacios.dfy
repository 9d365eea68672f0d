/** Parking spaces (espacios.controller.js): creation with a unique code,
    overwriting updates, the availability toggle, and deletion guarded by the
    tickets that reference the space. */
module Espacios {
  import opened Common
  import opened Tables
  import opened Schema
  import opened Tickets

  /** The zone column of a space, as a reference. */
  function ZonaDeEspacio(e: Espacio): Option<int>
  {
    e.zonaId
  }

  /** Some space already stores the code (`SELECT id FROM Espacios WHERE codigo = ?`). */
  predicate CodigoUsado(e: map<int, Espacio>, codigo: string)
  {
    exists a :: a in e && e[a].codigo == Some(codigo)
  }

  /** No two spaces share a non-NULL code. */
  ghost predicate CodigosUnicos(e: map<int, Espacio>)
  {
    forall a, b :: (a in e && b in e && e[a].codigo.Some? && e[a].codigo == e[b].codigo) ==> a == b
  }

  // ---------------------------------------------------------------------------
  // crearEspacio

  datatype EspacioReq = EspacioReq(zonaId: Option<int>, codigo: Option<string>, disponible: Option<bool>)

  predicate CamposEspacio(req: EspacioReq)
  {
    Truthy(req.zonaId) && TruthyStr(req.codigo)
  }

  /** `POST /espacios`. The duplicate test compares the code as sent, while the
      stored code is upper-cased; a space is created available unless the
      request says otherwise. */
  method CrearEspacio(db: Db, req: EspacioReq) returns (st: Status, id: int)
    modifies db`espacios
    ensures !CamposEspacio(req) ==> st == BadRequest
    ensures (CamposEspacio(req) && req.zonaId.value !in db.zonas.rows) ==> st == NotFound
    ensures (CamposEspacio(req) && req.zonaId.value in db.zonas.rows
             && CodigoUsado(old(db.espacios.rows), req.codigo.value)) ==> st == Conflict
    ensures st == Ok <==>
      CamposEspacio(req) && req.zonaId.value in db.zonas.rows && !CodigoUsado(old(db.espacios.rows), req.codigo.value)
    ensures st != Ok ==> db.espacios == old(db.espacios)
    ensures st == Ok ==>
      id !in old(db.espacios.rows)
      && db.espacios.rows == old(db.espacios.rows)[id := Espacio(req.zonaId, Some(ToUpper(req.codigo.value)),
                               if req.disponible.Some? then req.disponible else Some(true))]
    ensures (st == Ok && req.disponible.None?) ==> Disponible(db.espacios.rows[id])
    // the stored code is unique whenever it was sent already upper-cased
    ensures (CodigosUnicos(old(db.espacios.rows)) && (st == Ok ==> IsUpper(req.codigo.value)))
            ==> CodigosUnicos(db.espacios.rows)
    ensures SinColgantes(old(db.espacios.rows), ZonaDeEspacio, db.zonas.rows)
            ==> SinColgantes(db.espacios.rows, ZonaDeEspacio, db.zonas.rows)
  {
    id := 0;
    if !CamposEspacio(req) {
      return BadRequest, id;
    }
    var zona, codigo := req.zonaId.value, req.codigo.value;
    if zona !in db.zonas.rows {
      return NotFound, id;
    }
    if CodigoUsado(db.espacios.rows, codigo) {
      return Conflict, id;
    }
    var disponible := if req.disponible.Some? then req.disponible else Some(true);
    var (tabla, nid) := Insert(db.espacios, Espacio(req.zonaId, Some(ToUpper(codigo)), disponible));
    db.espacios := tabla;
    st, id := Ok, nid;
  }

  // ---------------------------------------------------------------------------
  // actualizarEspacio, cambiarDisponibilidad

  /** `PUT /espacios/{id}`: zone, upper-cased code and availability are
      overwritten from the request, with no duplicate or zone check. */
  method ActualizarEspacio(db: Db, id: int, req: EspacioReq) returns (st: Status)
    modifies db`espacios
    ensures st == Ok <==> id in old(db.espacios.rows)
    ensures st != Ok ==> st == NotFound && db.espacios == old(db.espacios)
    ensures st == Ok ==>
      db.espacios.rows == old(db.espacios.rows)[id := Espacio(req.zonaId, UpperOpt(req.codigo), req.disponible)]
  {
    if id !in db.espacios.rows {
      return NotFound;
    }
    db.espacios := Put(db.espacios, id, Espacio(req.zonaId, UpperOpt(req.codigo), req.disponible));
    st := Ok;
  }

  /** `PATCH /espacios/{id}/disponibilidad`: only the flag of that space changes. */
  method CambiarDisponibilidad(db: Db, id: int, disponible: Option<bool>) returns (st: Status)
    modifies db`espacios
    ensures st == Ok <==> id in old(db.espacios.rows)
    ensures st != Ok ==> st == NotFound && db.espacios == old(db.espacios)
    ensures st == Ok ==>
      db.espacios.rows == old(db.espacios.rows)[id := old(db.espacios.rows)[id].(disponible := disponible)]
    ensures CodigosUnicos(old(db.espacios.rows)) ==> CodigosUnicos(db.espacios.rows)
  {
    if id !in db.espacios.rows {
      return NotFound;
    }
    db.espacios := Put(db.espacios, id, db.espacios.rows[id].(disponible := disponible));
    st := Ok;
  }

  /** The toggle ignores tickets: freeing a space held by an ACTIVO ticket
      breaks the occupancy invariant that entry and exit keep. */
  lemma CambioRompeOcupacion()
    ensures var t := map[1 := Ticket(1, 1, 1, 1, 0, None, Activo)];
      var e := map[1 := Espacio(Some(1), Some("A1"), Some(false))];
      Ocupacion(t, e) && !Ocupacion(t, e[1 := e[1].(disponible := Some(true))])
  {
    var t := map[1 := Ticket(1, 1, 1, 1, 0, None, Activo)];
    var e := map[1 := Espacio(Some(1), Some("A1"), Some(false))];
    assert OcupadoPor(t, 1) by { assert t[1].espacioId == 1 && t[1].estado == Activo; }
  }

  // ---------------------------------------------------------------------------
  // eliminarEspacio

  /** `DELETE /espacios/{id}`: refused while any ticket, open or closed,
      references the space. */
  method EliminarEspacio(db: Db, id: int) returns (st: Status)
    modifies db`espacios
    ensures id !in old(db.espacios.rows) ==> st == NotFound
    ensures (id in old(db.espacios.rows) && Referenciado(db.tickets.rows, EspacioDeTicket, id)) ==> st == BadRequest
    ensures st == Ok <==> id in old(db.espacios.rows) && !Referenciado(db.tickets.rows, EspacioDeTicket, id)
    ensures st != Ok ==> db.espacios == old(db.espacios)
    ensures st == Ok ==> db.espacios.rows == old(db.espacios.rows) - {id}
    ensures SinColgantes(db.tickets.rows, EspacioDeTicket, old(db.espacios.rows))
            ==> SinColgantes(db.tickets.rows, EspacioDeTicket, db.espacios.rows)
    ensures Ocupacion(db.tickets.rows, old(db.espacios.rows)) ==> Ocupacion(db.tickets.rows, db.espacios.rows)
  {
    if id !in db.espacios.rows {
      return NotFound;
    }
    if Referenciado(db.tickets.rows, EspacioDeTicket, id) {
      return BadRequest;
    }
    EliminarNoReferenciado(db.tickets.rows, EspacioDeTicket, db.espacios.rows, id);
    db.espacios := Remove(db.espacios, id);
    st := Ok;
  }

  // ---------------------------------------------------------------------------
  // listarEspacios, listarDisponibles

  datatype ResumenEspacios = ResumenEspacios(total: nat, disponibles: nat, ocupados: nat)

  /** The summary of `GET /espacios`: every space is counted as available or as
      occupied, never both. */
  function ListarEspacios(t: Table<Espacio>): (c: ResumenEspacios)
    ensures c.total == |t.rows|
    ensures c.disponibles + c.ocupados == c.total
    ensures c.disponibles == |Filter(Rows(t), Disponible)|
    ensures c.ocupados == |Filter(Rows(t), Not(Disponible))|
    ensures c.disponibles == |set a | a in t.rows && Disponible(t.rows[a])|
    ensures c.ocupados == |set a | a in t.rows && !Disponible(t.rows[a])|
  {
    var r := Rows(t);
    CountComplement(r, Disponible);
    DisponiblesPorId(t);
    ResumenEspacios(|r|, Count(r, Disponible), Count(r, Not(Disponible)))
  }

  lemma DisponiblesPorId(t: Table<Espacio>)
    ensures Count(Rows(t), Disponible) == |set a | a in t.rows && Disponible(t.rows[a])|
    ensures Count(Rows(t), Not(Disponible)) == |set a | a in t.rows && !Disponible(t.rows[a])|
  {
    CountRows(t, Disponible);
    CountRows(t, Not(Disponible));
    assert IdsDonde(t.rows, Disponible) == set a | a in t.rows && Disponible(t.rows[a]);
    assert IdsDonde(t.rows, Not(Disponible)) == set a | a in t.rows && !Disponible(t.rows[a]);
  }

  function DisponibleEnZona(zonaId: Option<int>): Espacio -> bool
  {
    (e: Espacio) => Disponible(e) && (zonaId.Some? ==> e.zonaId == zonaId)
  }

  /** `GET /espacios/disponibles`: the available spaces, only those of the
      requested zone when one is given. */
  function ListarDisponibles(t: Table<Espacio>, zonaId: Option<int>): (r: seq<Espacio>)
    ensures forall x :: x in r ==> Disponible(x) && exists a :: a in t.rows && t.rows[a] == x
    ensures forall x :: x in r && zonaId.Some? ==> x.zonaId == zonaId
    ensures forall a ::
      (a in t.rows && Disponible(t.rows[a]) && (zonaId.Some? ==> t.rows[a].zonaId == zonaId)) ==> t.rows[a] in r
    ensures |r| == |set a | a in t.rows && Disponible(t.rows[a]) && (zonaId.Some? ==> t.rows[a].zonaId == zonaId)|
  {
    DisponiblesEnZonaPorId(t, zonaId);
    Filter(Rows(t), DisponibleEnZona(zonaId))
  }

  lemma DisponiblesEnZonaPorId(t: Table<Espacio>, zonaId: Option<int>)
    ensures Count(Rows(t), DisponibleEnZona(zonaId))
         == |set a | a in t.rows && Disponible(t.rows[a]) && (zonaId.Some? ==> t.rows[a].zonaId == zonaId)|
  {
    CountRows(t, DisponibleEnZona(zonaId));
    assert IdsDonde(t.rows, DisponibleEnZona(zonaId))
        == set a | a in t.rows && Disponible(t.rows[a]) && (zonaId.Some? ==> t.rows[a].zonaId == zonaId);
  }

  /** Under the occupancy invariant, the available spaces listed are exactly the
      spaces no ACTIVO ticket holds. */
  lemma DisponiblesSinTicket(t: map<int, Ticket>, e: Table<Espacio>)
    requires Ocupacion(t, e.rows)
    ensures forall s :: s in e.rows && !OcupadoPor(t, s) ==> e.rows[s] in ListarDisponibles(e, None)
    ensures forall s :: s in e.rows && e.rows[s] in ListarDisponibles(e, None) ==> Disponible(e.rows[s])
    ensures forall s :: s in e.rows && e.rows[s] in ListarDisponibles(e, None) ==> !OcupadoPor(t, s)
  {
  }
}
