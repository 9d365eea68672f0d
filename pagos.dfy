/** Payments (pagos.controller.js): one payment per closed ticket, checked
    against the amount the ticket's stay costs. */
module Pagos {
  import opened Common
  import opened Tables
  import opened Schema
  import opened Billing
  import opened Tickets
  import opened TiposPago

  // ---------------------------------------------------------------------------
  // Invariants

  /** The ticket already has a payment (`SELECT id FROM Pagos WHERE ticket_id = ?`). */
  predicate TienePago(p: map<int, Pago>, ticketId: int)
  {
    exists a :: a in p && p[a].ticketId == ticketId
  }

  /** At most one payment per ticket. */
  ghost predicate UnPagoPorTicket(p: map<int, Pago>)
  {
    forall a, b :: (a in p && b in p && p[a].ticketId == p[b].ticketId) ==> a == b
  }

  /** Every payment belongs to an existing, closed ticket. */
  ghost predicate PagosDeCerrados(p: map<int, Pago>, t: map<int, Ticket>)
  {
    forall a :: a in p ==> p[a].ticketId in t && t[p[a].ticketId].estado == Cerrado
  }

  /** Ticket changes that keep closed tickets intact (all the ticket handlers
      do) keep every payment attached to a closed ticket. */
  lemma PagosDeCerradosEstable(p: map<int, Pago>, t0: map<int, Ticket>, t1: map<int, Ticket>)
    requires PagosDeCerrados(p, t0) && CerradosIntactos(t0, t1)
    ensures PagosDeCerrados(p, t1)
  {
  }

  // ---------------------------------------------------------------------------
  // The expected amount and the change

  /** `horas_cobrar` of a ticket: NULL while it has no exit time. */
  function HorasDe(tk: Ticket): (h: Option<int>)
    ensures h.Some? <==> tk.horaSalida.Some?
    ensures h.Some? ==> 60 * (h.value - 1) < tk.horaSalida.value - tk.horaEntrada <= 60 * h.value
  {
    if tk.horaSalida.Some? then Some(HorasCobrar(tk.horaSalida.value - tk.horaEntrada)) else None
  }

  /** `horas_cobrar * precio_hora` in JavaScript, where a NULL operand counts as 0. */
  function MontoEsperado(horas: Option<int>, precio: Option<int>): (m: int)
    ensures (horas.None? || precio.None?) ==> m == 0
    ensures (horas.Some? && precio.Some?) ==> m == horas.value * precio.value
  {
    if horas.Some? && precio.Some? then horas.value * precio.value else 0
  }

  /** The amount a payment expects is the amount the exit quoted for the same
      stay, or 0 when the tariff gave no price. */
  lemma MontoEsperadoEsFactura(tk: Ticket, precio: Option<int>)
    requires tk.horaSalida.Some?
    ensures var f := Facturar(tk.horaSalida.value - tk.horaEntrada, precio);
      MontoEsperado(HorasDe(tk), precio) == (if f.monto.Some? then f.monto.value else 0)
  {
  }

  /** The change returned: never negative; what is kept never exceeds the
      expected amount; and change is given only to bring an overpayment down to
      exactly the expected amount. */
  function Cambio(monto: int, esperado: int): (c: int)
    ensures c >= 0
    ensures monto - c <= esperado || c == 0
    ensures c > 0 <==> monto > esperado
    ensures c > 0 ==> monto - c == esperado
  {
    if monto > esperado then monto - esperado else 0
  }

  // ---------------------------------------------------------------------------
  // registrarPago

  datatype PagoReq = PagoReq(ticketId: Option<int>, tipoPagoId: Option<int>, monto: Option<int>)

  /** What a successful payment reports besides the stored row. */
  datatype Recibo = Recibo(pagoId: int, montoEsperado: int, cambio: int)

  predicate CamposPago(req: PagoReq)
  {
    Truthy(req.ticketId) && Truthy(req.tipoPagoId) && Truthy(req.monto)
  }

  predicate EsCerrado(t: map<int, Ticket>, id: int)
  {
    id in t && t[id].estado == Cerrado
  }

  /** `POST /pagos`. The amount paid is not compared with the expected amount:
      an underpayment is recorded as it is. */
  method RegistrarPago(db: Db, req: PagoReq, now: int) returns (st: Status, recibo: Option<Recibo>)
    modifies db`pagos
    ensures !CamposPago(req) ==> st == BadRequest
    ensures (CamposPago(req) && req.ticketId.value !in db.tickets.rows) ==> st == NotFound
    ensures (CamposPago(req) && req.ticketId.value in db.tickets.rows
             && !EsCerrado(db.tickets.rows, req.ticketId.value)) ==> st == BadRequest
    ensures (CamposPago(req) && EsCerrado(db.tickets.rows, req.ticketId.value)
             && TienePago(old(db.pagos.rows), req.ticketId.value)) ==> st == Conflict
    ensures (CamposPago(req) && EsCerrado(db.tickets.rows, req.ticketId.value)
             && !TienePago(old(db.pagos.rows), req.ticketId.value)
             && req.tipoPagoId.value !in db.tiposPago.rows) ==> st == NotFound
    ensures st == Ok <==>
      CamposPago(req) && EsCerrado(db.tickets.rows, req.ticketId.value)
      && !TienePago(old(db.pagos.rows), req.ticketId.value)
      && req.tipoPagoId.value in db.tiposPago.rows
    ensures st != Ok ==> db.pagos == old(db.pagos) && recibo == None
    ensures st == Ok ==>
      var tk := db.tickets.rows[req.ticketId.value];
      var esperado := MontoEsperado(HorasDe(tk), PrecioDe(db.tarifas, tk.tarifaId));
      && recibo.Some? && recibo.value.pagoId !in old(db.pagos.rows)
      && db.pagos.rows == old(db.pagos.rows)[recibo.value.pagoId :=
                            Pago(req.ticketId.value, req.tipoPagoId.value, req.monto.value, now)]
      && recibo.value.montoEsperado == esperado
      && recibo.value.cambio == Cambio(req.monto.value, esperado)
    ensures UnPagoPorTicket(old(db.pagos.rows)) ==> UnPagoPorTicket(db.pagos.rows)
    ensures PagosDeCerrados(old(db.pagos.rows), db.tickets.rows) ==> PagosDeCerrados(db.pagos.rows, db.tickets.rows)
    ensures SinColgantes(old(db.pagos.rows), TipoDePago, db.tiposPago.rows)
            ==> SinColgantes(db.pagos.rows, TipoDePago, db.tiposPago.rows)
  {
    if !CamposPago(req) {
      return BadRequest, None;
    }
    var tid, tipo, monto := req.ticketId.value, req.tipoPagoId.value, req.monto.value;
    if tid !in db.tickets.rows {
      return NotFound, None;
    }
    var tk := db.tickets.rows[tid];
    if tk.estado != Cerrado {
      return BadRequest, None;
    }
    if TienePago(db.pagos.rows, tid) {
      return Conflict, None;
    }
    var esperado := MontoEsperado(HorasDe(tk), PrecioDe(db.tarifas, tk.tarifaId));
    if tipo !in db.tiposPago.rows {
      return NotFound, None;
    }
    var (tabla, id) := Insert(db.pagos, Pago(tid, tipo, monto, now));
    db.pagos := tabla;
    st, recibo := Ok, Some(Recibo(id, esperado, Cambio(monto, esperado)));
  }

  // ---------------------------------------------------------------------------
  // listarPagos

  function MontoDe(p: Pago): int
  {
    p.monto
  }

  function DeTipo(tipo: int): Pago -> bool
  {
    (p: Pago) => p.tipoPagoId == tipo
  }

  /** `GET /pagos`: with a payment-type filter, exactly the payments of that
      type; without one (absent or empty query parameter), every payment. */
  function ListarPagos(pagos: Table<Pago>, tipo: Option<int>): (r: seq<Pago>)
    ensures forall x :: x in r ==> (exists a :: a in pagos.rows && pagos.rows[a] == x)
    ensures forall x :: x in r && tipo.Some? ==> x.tipoPagoId == tipo.value
    ensures forall a ::
      (a in pagos.rows && (tipo.None? || pagos.rows[a].tipoPagoId == tipo.value)) ==> pagos.rows[a] in r
    ensures tipo.None? ==> |r| == |pagos.rows|
    ensures tipo.Some? ==> |r| == |set a | a in pagos.rows && pagos.rows[a].tipoPagoId == tipo.value|
  {
    if tipo.Some? then
      DeTipoPorId(pagos, tipo.value);
      Filter(Rows(pagos), DeTipo(tipo.value))
    else Rows(pagos)
  }

  lemma DeTipoPorId(pagos: Table<Pago>, tipo: int)
    ensures Count(Rows(pagos), DeTipo(tipo)) == |set a | a in pagos.rows && pagos.rows[a].tipoPagoId == tipo|
  {
    CountRows(pagos, DeTipo(tipo));
    assert IdsDonde(pagos.rows, DeTipo(tipo)) == set a | a in pagos.rows && pagos.rows[a].tipoPagoId == tipo;
  }

  /** `total_monto`: the sum of the listed amounts. */
  function TotalMonto(r: seq<Pago>): int
  {
    Sum(r, MontoDe)
  }

  /** Splitting the listing by one payment type splits the grand total: the
      type's total plus the total of every other type is the unfiltered total. */
  lemma TotalPorTipo(pagos: Table<Pago>, tipo: int)
    ensures TotalMonto(ListarPagos(pagos, Some(tipo))) + TotalMonto(Filter(Rows(pagos), Not(DeTipo(tipo))))
         == TotalMonto(ListarPagos(pagos, None))
  {
    SumSplit(Rows(pagos), DeTipo(tipo), MontoDe);
  }
}
