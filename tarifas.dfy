/** Tariffs (tarifas.controller.js): hourly prices, positive when created; an
    update may clear the price but never make it negative; a tariff with
    tickets cannot be deleted. */
module Tarifas {
  import opened Common
  import opened Tables
  import opened Schema
  import opened Billing
  import opened Tickets

  /** No tariff stores a negative price (NULL and 0 can come from an update). */
  ghost predicate PreciosNoNegativos(t: map<int, Tarifa>)
  {
    forall a :: a in t && t[a].precioHora.Some? ==> t[a].precioHora.value >= 0
  }

  datatype TarifaReq = TarifaReq(descripcion: Option<string>, precioHora: Option<int>)

  /** `POST /tarifas` */
  method CrearTarifa(db: Db, req: TarifaReq) returns (st: Status, id: int)
    modifies db`tarifas
    ensures !(TruthyStr(req.descripcion) && Truthy(req.precioHora)) ==> st == BadRequest
    ensures (TruthyStr(req.descripcion) && Truthy(req.precioHora) && req.precioHora.value <= 0) ==> st == BadRequest
    ensures st == Ok <==> TruthyStr(req.descripcion) && req.precioHora.Some? && req.precioHora.value > 0
    ensures st != Ok ==> db.tarifas == old(db.tarifas)
    ensures st == Ok ==>
      id !in old(db.tarifas.rows)
      && db.tarifas.rows == old(db.tarifas.rows)[id := Tarifa(req.descripcion, req.precioHora)]
      && db.tarifas.rows[id].precioHora.value > 0
    ensures PreciosNoNegativos(old(db.tarifas.rows)) ==> PreciosNoNegativos(db.tarifas.rows)
  {
    id := 0;
    if !TruthyStr(req.descripcion) || !Truthy(req.precioHora) {
      return BadRequest, id;
    }
    if req.precioHora.value <= 0 {
      return BadRequest, id;
    }
    var (tabla, nid) := Insert(db.tarifas, Tarifa(req.descripcion, req.precioHora));
    db.tarifas := tabla;
    st, id := Ok, nid;
  }

  /** `PUT /tarifas/{id}`: the price is checked only when it is truthy, so an
      absent or 0 price is stored as sent. */
  method ActualizarTarifa(db: Db, id: int, req: TarifaReq) returns (st: Status)
    modifies db`tarifas
    ensures id !in old(db.tarifas.rows) ==> st == NotFound
    ensures (id in old(db.tarifas.rows) && Truthy(req.precioHora) && req.precioHora.value <= 0) ==> st == BadRequest
    ensures st == Ok <==> id in old(db.tarifas.rows) && !(Truthy(req.precioHora) && req.precioHora.value <= 0)
    ensures st != Ok ==> db.tarifas == old(db.tarifas)
    ensures st == Ok ==> db.tarifas.rows == old(db.tarifas.rows)[id := Tarifa(req.descripcion, req.precioHora)]
    ensures PreciosNoNegativos(old(db.tarifas.rows)) ==> PreciosNoNegativos(db.tarifas.rows)
  {
    if id !in db.tarifas.rows {
      return NotFound;
    }
    if Truthy(req.precioHora) && req.precioHora.value <= 0 {
      return BadRequest;
    }
    db.tarifas := Put(db.tarifas, id, Tarifa(req.descripcion, req.precioHora));
    st := Ok;
  }

  /** `DELETE /tarifas/{id}`: refused while any ticket references the tariff. */
  method EliminarTarifa(db: Db, id: int) returns (st: Status)
    modifies db`tarifas
    ensures id !in old(db.tarifas.rows) ==> st == NotFound
    ensures (id in old(db.tarifas.rows) && Referenciado(db.tickets.rows, TarifaDeTicket, id)) ==> st == BadRequest
    ensures st == Ok <==> id in old(db.tarifas.rows) && !Referenciado(db.tickets.rows, TarifaDeTicket, id)
    ensures st != Ok ==> db.tarifas == old(db.tarifas)
    ensures st == Ok ==> db.tarifas.rows == old(db.tarifas.rows) - {id}
    ensures SinColgantes(db.tickets.rows, TarifaDeTicket, old(db.tarifas.rows))
            ==> SinColgantes(db.tickets.rows, TarifaDeTicket, db.tarifas.rows)
    ensures PreciosNoNegativos(old(db.tarifas.rows)) ==> PreciosNoNegativos(db.tarifas.rows)
  {
    if id !in db.tarifas.rows {
      return NotFound;
    }
    if Referenciado(db.tickets.rows, TarifaDeTicket, id) {
      return BadRequest;
    }
    EliminarNoReferenciado(db.tickets.rows, TarifaDeTicket, db.tarifas.rows, id);
    db.tarifas := Remove(db.tarifas, id);
    st := Ok;
  }

  /** With no negative price stored, any ticket's charge for a non-negative stay
      covers the pro-rata price and exceeds it by less than one hour's price. */
  lemma CobroDeTarifa(tarifas: Table<Tarifa>, tk: Ticket, minutos: int)
    requires PreciosNoNegativos(tarifas.rows) && minutos >= 0
    requires PrecioDe(tarifas, tk.tarifaId).Some?
    ensures var p := PrecioDe(tarifas, tk.tarifaId).value;
      var monto := Facturar(minutos, Some(p)).monto.value;
      p >= 0 && minutos * p <= 60 * monto && (p > 0 ==> 60 * monto < minutos * p + 60 * p)
  {
    FacturarBounds(minutos, PrecioDe(tarifas, tk.tarifaId).value);
  }
}
