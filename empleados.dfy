/** Employees (empleados.controller.js): at most one employee record per user,
    a DPI not already registered, an existing shift when one is given; the
    status switch acts on the linked user. */
module Empleados {
  import opened Common
  import opened Tables
  import opened Schema
  import opened Tickets

  /** The shift column of an employee, as a reference; 0 names no row, since
      ids start at 1. */
  function TurnoDeEmpleado(e: Empleado): Option<int>
  {
    if e.turnoId == Some(0) then None else e.turnoId
  }

  /** The user already has an employee record (`SELECT id FROM Empleados WHERE usuario_id = ?`). */
  predicate UsuarioEsEmpleado(e: map<int, Empleado>, usuarioId: int)
  {
    exists a :: a in e && e[a].usuarioId == usuarioId
  }

  /** Some employee already has the DPI (`SELECT id FROM Empleados WHERE dpi = ?`). */
  predicate DpiUsado(e: map<int, Empleado>, dpi: string)
  {
    exists a :: a in e && e[a].dpi == Some(dpi)
  }

  /** At most one employee record per user. */
  ghost predicate UnEmpleadoPorUsuario(e: map<int, Empleado>)
  {
    forall a, b :: (a in e && b in e && e[a].usuarioId == e[b].usuarioId) ==> a == b
  }

  /** No two employees share a non-empty DPI. */
  ghost predicate DpisUnicos(e: map<int, Empleado>)
  {
    forall a, b :: (a in e && b in e && TruthyStr(e[a].dpi) && e[a].dpi == e[b].dpi) ==> a == b
  }

  datatype EmpleadoReq = EmpleadoReq(usuarioId: Option<int>, turnoId: Option<int>, telefono: Option<string>,
                                     direccion: Option<string>, dpi: Option<string>)

  predicate CamposEmpleado(req: EmpleadoReq)
  {
    Truthy(req.usuarioId) && TruthyStr(req.dpi)
  }

  /** The guards of `crearEmpleado` that come after the required fields, in
      order: user exists, user not yet an employee, DPI unused, shift (when
      given) exists. */
  predicate AdmiteEmpleado(db: Db, req: EmpleadoReq)
    requires CamposEmpleado(req)
    reads db
  {
    && req.usuarioId.value in db.usuarios.rows
    && !UsuarioEsEmpleado(db.empleados.rows, req.usuarioId.value)
    && !DpiUsado(db.empleados.rows, req.dpi.value)
    && (Truthy(req.turnoId) ==> req.turnoId.value in db.turnos.rows)
  }

  /** `POST /empleados` */
  method CrearEmpleado(db: Db, req: EmpleadoReq) returns (st: Status, id: int)
    modifies db`empleados
    ensures !CamposEmpleado(req) ==> st == BadRequest
    ensures (CamposEmpleado(req) && req.usuarioId.value !in db.usuarios.rows) ==> st == NotFound
    ensures (CamposEmpleado(req) && req.usuarioId.value in db.usuarios.rows
             && UsuarioEsEmpleado(old(db.empleados.rows), req.usuarioId.value)) ==> st == Conflict
    ensures (CamposEmpleado(req) && req.usuarioId.value in db.usuarios.rows
             && !UsuarioEsEmpleado(old(db.empleados.rows), req.usuarioId.value)
             && DpiUsado(old(db.empleados.rows), req.dpi.value)) ==> st == Conflict
    ensures (CamposEmpleado(req) && req.usuarioId.value in db.usuarios.rows
             && !UsuarioEsEmpleado(old(db.empleados.rows), req.usuarioId.value)
             && !DpiUsado(old(db.empleados.rows), req.dpi.value)
             && Truthy(req.turnoId) && req.turnoId.value !in db.turnos.rows) ==> st == NotFound
    ensures st == Ok <==> CamposEmpleado(req) && old(AdmiteEmpleado(db, req))
    ensures st != Ok ==> db.empleados == old(db.empleados)
    ensures st == Ok ==>
      id !in old(db.empleados.rows)
      && db.empleados.rows == old(db.empleados.rows)[id := Empleado(req.usuarioId.value, req.turnoId,
                                req.telefono, req.direccion, req.dpi)]
    ensures UnEmpleadoPorUsuario(old(db.empleados.rows)) ==> UnEmpleadoPorUsuario(db.empleados.rows)
    ensures DpisUnicos(old(db.empleados.rows)) ==> DpisUnicos(db.empleados.rows)
    ensures SinColgantes(old(db.empleados.rows), TurnoDeEmpleado, db.turnos.rows)
            ==> SinColgantes(db.empleados.rows, TurnoDeEmpleado, db.turnos.rows)
  {
    id := 0;
    if !CamposEmpleado(req) {
      return BadRequest, id;
    }
    var usuario, dpi := req.usuarioId.value, req.dpi.value;
    if usuario !in db.usuarios.rows {
      return NotFound, id;
    }
    if UsuarioEsEmpleado(db.empleados.rows, usuario) {
      return Conflict, id;
    }
    if DpiUsado(db.empleados.rows, dpi) {
      return Conflict, id;
    }
    if Truthy(req.turnoId) && req.turnoId.value !in db.turnos.rows {
      return NotFound, id;
    }
    var (tabla, nid) := Insert(db.empleados, Empleado(usuario, req.turnoId, req.telefono, req.direccion, req.dpi));
    db.empleados := tabla;
    st, id := Ok, nid;
  }

  /** `PUT /empleados/{id}`: shift, phone, address and DPI are overwritten as
      sent, with no DPI or shift check; the user link is kept. */
  method ActualizarEmpleado(db: Db, id: int, req: EmpleadoReq) returns (st: Status)
    modifies db`empleados
    ensures st == Ok <==> id in old(db.empleados.rows)
    ensures st != Ok ==> st == NotFound && db.empleados == old(db.empleados)
    ensures st == Ok ==>
      db.empleados.rows == old(db.empleados.rows)[id := old(db.empleados.rows)[id].(
        turnoId := req.turnoId, telefono := req.telefono, direccion := req.direccion, dpi := req.dpi)]
    ensures UnEmpleadoPorUsuario(old(db.empleados.rows)) ==> UnEmpleadoPorUsuario(db.empleados.rows)
  {
    if id !in db.empleados.rows {
      return NotFound;
    }
    db.empleados := Put(db.empleados, id, db.empleados.rows[id].(
      turnoId := req.turnoId, telefono := req.telefono, direccion := req.direccion, dpi := req.dpi));
    st := Ok;
  }

  /** `PATCH /empleados/{id}/estado`: sets the `activo` flag of the employee's
      user (no row changes when that user is gone); the employee row itself is
      untouched. */
  method CambiarEstado(db: Db, id: int, activo: Option<bool>) returns (st: Status)
    modifies db`usuarios
    ensures st == Ok <==> id in db.empleados.rows
    ensures st != Ok ==> st == NotFound && db.usuarios == old(db.usuarios)
    ensures st == Ok ==>
      var u := db.empleados.rows[id].usuarioId;
      db.usuarios.rows == if u in old(db.usuarios.rows)
                          then old(db.usuarios.rows)[u := old(db.usuarios.rows)[u].(activo := activo)]
                          else old(db.usuarios.rows)
    ensures db.usuarios.rows.Keys == old(db.usuarios.rows).Keys
  {
    if id !in db.empleados.rows {
      return NotFound;
    }
    var u := db.empleados.rows[id].usuarioId;
    if u in db.usuarios.rows {
      db.usuarios := Put(db.usuarios, u, db.usuarios.rows[u].(activo := activo));
    }
    st := Ok;
  }

  /** `DELETE /empleados/{id}`: refused while any ticket's `empleado_id` equals
      the id. */
  method EliminarEmpleado(db: Db, id: int) returns (st: Status)
    modifies db`empleados
    ensures id !in old(db.empleados.rows) ==> st == NotFound
    ensures (id in old(db.empleados.rows) && Referenciado(db.tickets.rows, EmpleadoDeTicket, id)) ==> st == BadRequest
    ensures st == Ok <==> id in old(db.empleados.rows) && !Referenciado(db.tickets.rows, EmpleadoDeTicket, id)
    ensures st != Ok ==> db.empleados == old(db.empleados)
    ensures st == Ok ==> db.empleados.rows == old(db.empleados.rows) - {id}
    ensures SinColgantes(db.tickets.rows, EmpleadoDeTicket, old(db.empleados.rows))
            ==> SinColgantes(db.tickets.rows, EmpleadoDeTicket, db.empleados.rows)
    ensures UnEmpleadoPorUsuario(old(db.empleados.rows)) ==> UnEmpleadoPorUsuario(db.empleados.rows)
    ensures DpisUnicos(old(db.empleados.rows)) ==> DpisUnicos(db.empleados.rows)
  {
    if id !in db.empleados.rows {
      return NotFound;
    }
    if Referenciado(db.tickets.rows, EmpleadoDeTicket, id) {
      return BadRequest;
    }
    EliminarNoReferenciado(db.tickets.rows, EmpleadoDeTicket, db.empleados.rows, id);
    db.empleados := Remove(db.empleados, id);
    st := Ok;
  }
}
