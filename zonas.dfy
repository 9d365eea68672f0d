/** Zones (zonas.controller.js): named groups of spaces; a zone with spaces
    cannot be deleted; the listing counts each zone's spaces. */
module Zonas {
  import opened Common
  import opened Tables
  import opened Schema
  import opened Espacios

  datatype ZonaReq = ZonaReq(nombre: Option<string>, descripcion: Option<string>)

  /** `POST /zonas`: succeeds whenever the name is non-empty. */
  method CrearZona(db: Db, req: ZonaReq) returns (st: Status, id: int)
    modifies db`zonas
    ensures st == Ok <==> TruthyStr(req.nombre)
    ensures st != Ok ==> st == BadRequest && db.zonas == old(db.zonas)
    ensures st == Ok ==>
      id !in old(db.zonas.rows) && db.zonas.rows == old(db.zonas.rows)[id := Zona(req.nombre, req.descripcion)]
  {
    id := 0;
    if !TruthyStr(req.nombre) {
      return BadRequest, id;
    }
    var (tabla, nid) := Insert(db.zonas, Zona(req.nombre, req.descripcion));
    db.zonas := tabla;
    st, id := Ok, nid;
  }

  /** `PUT /zonas/{id}`: name and description are overwritten as sent. */
  method ActualizarZona(db: Db, id: int, req: ZonaReq) returns (st: Status)
    modifies db`zonas
    ensures st == Ok <==> id in old(db.zonas.rows)
    ensures st != Ok ==> st == NotFound && db.zonas == old(db.zonas)
    ensures st == Ok ==> db.zonas.rows == old(db.zonas.rows)[id := Zona(req.nombre, req.descripcion)]
  {
    if id !in db.zonas.rows {
      return NotFound;
    }
    db.zonas := Put(db.zonas, id, Zona(req.nombre, req.descripcion));
    st := Ok;
  }

  /** `DELETE /zonas/{id}`: refused while any space belongs to the zone. */
  method EliminarZona(db: Db, id: int) returns (st: Status)
    modifies db`zonas
    ensures id !in old(db.zonas.rows) ==> st == NotFound
    ensures (id in old(db.zonas.rows) && Referenciado(db.espacios.rows, ZonaDeEspacio, id)) ==> st == BadRequest
    ensures st == Ok <==> id in old(db.zonas.rows) && !Referenciado(db.espacios.rows, ZonaDeEspacio, id)
    ensures st != Ok ==> db.zonas == old(db.zonas)
    ensures st == Ok ==> db.zonas.rows == old(db.zonas.rows) - {id}
    ensures SinColgantes(db.espacios.rows, ZonaDeEspacio, old(db.zonas.rows))
            ==> SinColgantes(db.espacios.rows, ZonaDeEspacio, db.zonas.rows)
  {
    if id !in db.zonas.rows {
      return NotFound;
    }
    if Referenciado(db.espacios.rows, ZonaDeEspacio, id) {
      return BadRequest;
    }
    EliminarNoReferenciado(db.espacios.rows, ZonaDeEspacio, db.zonas.rows, id);
    db.zonas := Remove(db.zonas, id);
    st := Ok;
  }

  // ---------------------------------------------------------------------------
  // listarZonas

  datatype ConteoZona = ConteoZona(totalEspacios: nat, espaciosDisponibles: nat)

  function EnZona(zonaId: int): Espacio -> bool
  {
    (e: Espacio) => e.zonaId == Some(zonaId)
  }

  function DisponibleEn(zonaId: int): Espacio -> bool
  {
    (e: Espacio) => e.zonaId == Some(zonaId) && Disponible(e)
  }

  /** The counts `listarZonas` reports for one zone: its spaces, and those of
      them that are available, which are never more than the spaces. A zone
      lists no spaces exactly when the delete guard lets it go. */
  function ContarZona(espacios: Table<Espacio>, zonaId: int): (c: ConteoZona)
    ensures c.espaciosDisponibles <= c.totalEspacios <= |espacios.rows|
    ensures c.totalEspacios == 0 <==> !Referenciado(espacios.rows, ZonaDeEspacio, zonaId)
    ensures c.totalEspacios == |Filter(Rows(espacios), EnZona(zonaId))|
    ensures c.espaciosDisponibles == |Filter(Rows(espacios), DisponibleEn(zonaId))|
    ensures c.totalEspacios == |set a | a in espacios.rows && espacios.rows[a].zonaId == Some(zonaId)|
    ensures c.espaciosDisponibles ==
      |set a | a in espacios.rows && espacios.rows[a].zonaId == Some(zonaId) && Disponible(espacios.rows[a])|
  {
    var r := Rows(espacios);
    EspaciosDeZona(espacios, zonaId);
    CountMonotone(r, DisponibleEn(zonaId), EnZona(zonaId));
    ConteoZona(Count(r, EnZona(zonaId)), Count(r, DisponibleEn(zonaId)))
  }

  /** The two counts over the listing are counts of stored spaces, and the
      zone's count is 0 exactly when no space references the zone. */
  lemma EspaciosDeZona(espacios: Table<Espacio>, zonaId: int)
    ensures Count(Rows(espacios), EnZona(zonaId)) == |set a | a in espacios.rows && espacios.rows[a].zonaId == Some(zonaId)|
    ensures Count(Rows(espacios), DisponibleEn(zonaId)) ==
      |set a | a in espacios.rows && espacios.rows[a].zonaId == Some(zonaId) && Disponible(espacios.rows[a])|
    ensures Count(Rows(espacios), EnZona(zonaId)) == 0 <==> !Referenciado(espacios.rows, ZonaDeEspacio, zonaId)
  {
    var enZona := set a | a in espacios.rows && espacios.rows[a].zonaId == Some(zonaId);
    CountRows(espacios, EnZona(zonaId));
    assert IdsDonde(espacios.rows, EnZona(zonaId)) == enZona;
    CountRows(espacios, DisponibleEn(zonaId));
    assert IdsDonde(espacios.rows, DisponibleEn(zonaId))
        == set a | a in espacios.rows && espacios.rows[a].zonaId == Some(zonaId) && Disponible(espacios.rows[a]);
    if Referenciado(espacios.rows, ZonaDeEspacio, zonaId) {
      var a :| a in espacios.rows && ZonaDeEspacio(espacios.rows[a]) == Some(zonaId);
      assert a in enZona;
    }
  }
}
