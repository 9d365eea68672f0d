/** Vehicles (vehiculos.controller.js): plates are stored upper-cased and
    checked for duplicates on creation only; a vehicle with tickets cannot be
    deleted. */
module Vehiculos {
  import opened Common
  import opened Tables
  import opened Schema
  import opened Tickets

  /** The client column of a vehicle, as a reference. */
  function ClienteDeVehiculo(v: Vehiculo): Option<int>
  {
    v.clienteId
  }

  /** Some vehicle already stores the plate (`SELECT id FROM Vehiculos WHERE placa = ?`). */
  predicate PlacaUsada(v: map<int, Vehiculo>, placa: string)
  {
    exists a :: a in v && v[a].placa == Some(placa)
  }

  /** No two vehicles share a non-NULL plate. */
  ghost predicate PlacasUnicas(v: map<int, Vehiculo>)
  {
    forall a, b :: (a in v && b in v && v[a].placa.Some? && v[a].placa == v[b].placa) ==> a == b
  }

  datatype VehiculoReq = VehiculoReq(clienteId: Option<int>, placa: Option<string>, marca: Option<string>,
                                     modelo: Option<string>, color: Option<string>)

  predicate CamposVehiculo(req: VehiculoReq)
  {
    Truthy(req.clienteId) && TruthyStr(req.placa)
  }

  /** `POST /vehiculos`. The duplicate test compares the plate as sent; the
      stored plate is upper-cased. */
  method CrearVehiculo(db: Db, req: VehiculoReq) returns (st: Status, id: int)
    modifies db`vehiculos
    ensures !CamposVehiculo(req) ==> st == BadRequest
    ensures (CamposVehiculo(req) && req.clienteId.value !in db.clientes.rows) ==> st == NotFound
    ensures (CamposVehiculo(req) && req.clienteId.value in db.clientes.rows
             && PlacaUsada(old(db.vehiculos.rows), req.placa.value)) ==> st == Conflict
    ensures st == Ok <==>
      CamposVehiculo(req) && req.clienteId.value in db.clientes.rows && !PlacaUsada(old(db.vehiculos.rows), req.placa.value)
    ensures st != Ok ==> db.vehiculos == old(db.vehiculos)
    ensures st == Ok ==>
      id !in old(db.vehiculos.rows)
      && db.vehiculos.rows == old(db.vehiculos.rows)[id := Vehiculo(req.clienteId, Some(ToUpper(req.placa.value)),
                                req.marca, req.modelo, req.color)]
    // the stored plate is unique whenever it was sent already upper-cased
    ensures (PlacasUnicas(old(db.vehiculos.rows)) && (st == Ok ==> IsUpper(req.placa.value)))
            ==> PlacasUnicas(db.vehiculos.rows)
    ensures SinColgantes(old(db.vehiculos.rows), ClienteDeVehiculo, db.clientes.rows)
            ==> SinColgantes(db.vehiculos.rows, ClienteDeVehiculo, db.clientes.rows)
  {
    id := 0;
    if !CamposVehiculo(req) {
      return BadRequest, id;
    }
    var cliente, placa := req.clienteId.value, req.placa.value;
    if cliente !in db.clientes.rows {
      return NotFound, id;
    }
    if PlacaUsada(db.vehiculos.rows, placa) {
      return Conflict, id;
    }
    var (tabla, nid) := Insert(db.vehiculos, Vehiculo(req.clienteId, Some(ToUpper(placa)), req.marca, req.modelo, req.color));
    db.vehiculos := tabla;
    st, id := Ok, nid;
  }

  /** `PUT /vehiculos/{id}`: every column is overwritten from the request (the
      plate upper-cased), with no duplicate or client check. */
  method ActualizarVehiculo(db: Db, id: int, req: VehiculoReq) returns (st: Status)
    modifies db`vehiculos
    ensures st == Ok <==> id in old(db.vehiculos.rows)
    ensures st != Ok ==> st == NotFound && db.vehiculos == old(db.vehiculos)
    ensures st == Ok ==>
      db.vehiculos.rows == old(db.vehiculos.rows)[id := Vehiculo(req.clienteId, UpperOpt(req.placa),
                                                               req.marca, req.modelo, req.color)]
  {
    if id !in db.vehiculos.rows {
      return NotFound;
    }
    db.vehiculos := Put(db.vehiculos, id, Vehiculo(req.clienteId, UpperOpt(req.placa), req.marca, req.modelo, req.color));
    st := Ok;
  }

  /** `DELETE /vehiculos/{id}`: refused while any ticket references the vehicle. */
  method EliminarVehiculo(db: Db, id: int) returns (st: Status)
    modifies db`vehiculos
    ensures id !in old(db.vehiculos.rows) ==> st == NotFound
    ensures (id in old(db.vehiculos.rows) && Referenciado(db.tickets.rows, VehiculoDeTicket, id)) ==> st == BadRequest
    ensures st == Ok <==> id in old(db.vehiculos.rows) && !Referenciado(db.tickets.rows, VehiculoDeTicket, id)
    ensures st != Ok ==> db.vehiculos == old(db.vehiculos)
    ensures st == Ok ==> db.vehiculos.rows == old(db.vehiculos.rows) - {id}
    ensures SinColgantes(db.tickets.rows, VehiculoDeTicket, old(db.vehiculos.rows))
            ==> SinColgantes(db.tickets.rows, VehiculoDeTicket, db.vehiculos.rows)
  {
    if id !in db.vehiculos.rows {
      return NotFound;
    }
    if Referenciado(db.tickets.rows, VehiculoDeTicket, id) {
      return BadRequest;
    }
    EliminarNoReferenciado(db.tickets.rows, VehiculoDeTicket, db.vehiculos.rows, id);
    db.vehiculos := Remove(db.vehiculos, id);
    st := Ok;
  }

  function ConPlaca(placa: string): Vehiculo -> bool
  {
    (v: Vehiculo) => v.placa == Some(placa)
  }

  /** `GET /vehiculos/placa/{placa}`: NotFound exactly when no vehicle stores the
      plate as given; otherwise one vehicle that does. */
  function BuscarPorPlaca(t: Table<Vehiculo>, placa: string): (r: (Status, Option<Vehiculo>))
    ensures r.0 == Ok <==> PlacaUsada(t.rows, placa)
    ensures r.0 != Ok ==> r.0 == NotFound && r.1 == None
    ensures r.0 == Ok ==>
      r.1.Some? && r.1.value.placa == Some(placa) && exists a :: a in t.rows && t.rows[a] == r.1.value
  {
    var hallados := Filter(Rows(t), ConPlaca(placa));
    if hallados == [] then
      assert !PlacaUsada(t.rows, placa) by {
        forall a | a in t.rows
          ensures t.rows[a].placa != Some(placa)
        {
          assert t.rows[a] in Rows(t);
        }
      }
      (NotFound, None)
    else
      (Ok, Some(hallados[0]))
  }

  /** Under unique plates the lookup finds the one vehicle with that plate. */
  lemma BuscarPorPlacaUnico(t: Table<Vehiculo>, id: int)
    requires PlacasUnicas(t.rows) && id in t.rows && t.rows[id].placa.Some?
    ensures BuscarPorPlaca(t, t.rows[id].placa.value) == (Ok, Some(t.rows[id]))
  {
    var placa := t.rows[id].placa.value;
    var r := BuscarPorPlaca(t, placa);
    assert PlacaUsada(t.rows, placa);
    var a :| a in t.rows && t.rows[a] == r.1.value;
    assert a == id;
  }
}
