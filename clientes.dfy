/** Clients (clientes.controller.js): only the name is required, nothing is
    unique, and a client with vehicles cannot be deleted. */
module Clientes {
  import opened Common
  import opened Tables
  import opened Schema
  import opened Vehiculos

  datatype ClienteReq = ClienteReq(nombre: Option<string>, telefono: Option<string>,
                                   correo: Option<string>, nit: Option<string>)

  /** `POST /clientes`: succeeds whenever the name is non-empty, whatever the
      store holds. */
  method CrearCliente(db: Db, req: ClienteReq) returns (st: Status, id: int)
    modifies db`clientes
    ensures st == Ok <==> TruthyStr(req.nombre)
    ensures st != Ok ==> st == BadRequest && db.clientes == old(db.clientes)
    ensures st == Ok ==>
      id !in old(db.clientes.rows)
      && db.clientes.rows == old(db.clientes.rows)[id := Cliente(req.nombre, req.telefono, req.correo, req.nit)]
  {
    id := 0;
    if !TruthyStr(req.nombre) {
      return BadRequest, id;
    }
    var (tabla, nid) := Insert(db.clientes, Cliente(req.nombre, req.telefono, req.correo, req.nit));
    db.clientes := tabla;
    st, id := Ok, nid;
  }

  /** `PUT /clientes/{id}`: all four columns are overwritten as sent. */
  method ActualizarCliente(db: Db, id: int, req: ClienteReq) returns (st: Status)
    modifies db`clientes
    ensures st == Ok <==> id in old(db.clientes.rows)
    ensures st != Ok ==> st == NotFound && db.clientes == old(db.clientes)
    ensures st == Ok ==>
      db.clientes.rows == old(db.clientes.rows)[id := Cliente(req.nombre, req.telefono, req.correo, req.nit)]
  {
    if id !in db.clientes.rows {
      return NotFound;
    }
    db.clientes := Put(db.clientes, id, Cliente(req.nombre, req.telefono, req.correo, req.nit));
    st := Ok;
  }

  /** `DELETE /clientes/{id}`: refused while any vehicle belongs to the client
      (reservations of the client are not consulted). */
  method EliminarCliente(db: Db, id: int) returns (st: Status)
    modifies db`clientes
    ensures id !in old(db.clientes.rows) ==> st == NotFound
    ensures (id in old(db.clientes.rows) && Referenciado(db.vehiculos.rows, ClienteDeVehiculo, id)) ==> st == BadRequest
    ensures st == Ok <==> id in old(db.clientes.rows) && !Referenciado(db.vehiculos.rows, ClienteDeVehiculo, id)
    ensures st != Ok ==> db.clientes == old(db.clientes)
    ensures st == Ok ==> db.clientes.rows == old(db.clientes.rows) - {id}
    ensures SinColgantes(db.vehiculos.rows, ClienteDeVehiculo, old(db.clientes.rows))
            ==> SinColgantes(db.vehiculos.rows, ClienteDeVehiculo, db.clientes.rows)
  {
    if id !in db.clientes.rows {
      return NotFound;
    }
    if Referenciado(db.vehiculos.rows, ClienteDeVehiculo, id) {
      return BadRequest;
    }
    EliminarNoReferenciado(db.vehiculos.rows, ClienteDeVehiculo, db.clientes.rows, id);
    db.clientes := Remove(db.clientes, id);
    st := Ok;
  }
}
