/** Fines (multas.controller.js): a positive amount on an existing ticket, in
    any state; the listing totals the amounts. */
module Multas {
  import opened Common
  import opened Tables
  import opened Schema

  /** The ticket column of a fine, as a reference. */
  function TicketDeMulta(m: Multa): Option<int>
  {
    Some(m.ticketId)
  }

  /** No fine stores a negative amount (NULL and 0 can come from an update). */
  ghost predicate MontosNoNegativos(m: map<int, Multa>)
  {
    forall a :: a in m && m[a].monto.Some? ==> m[a].monto.value >= 0
  }

  datatype MultaReq = MultaReq(ticketId: Option<int>, motivo: Option<string>, monto: Option<int>)

  predicate CamposMulta(req: MultaReq)
  {
    Truthy(req.ticketId) && TruthyStr(req.motivo) && Truthy(req.monto)
  }

  /** `POST /multas`. The ticket's state is not checked. */
  method CrearMulta(db: Db, req: MultaReq, now: int) returns (st: Status, id: int)
    modifies db`multas
    ensures !CamposMulta(req) ==> st == BadRequest
    ensures (CamposMulta(req) && req.monto.value <= 0) ==> st == BadRequest
    ensures (CamposMulta(req) && req.monto.value > 0 && req.ticketId.value !in db.tickets.rows) ==> st == NotFound
    ensures st == Ok <==> CamposMulta(req) && req.monto.value > 0 && req.ticketId.value in db.tickets.rows
    ensures st != Ok ==> db.multas == old(db.multas)
    ensures st == Ok ==>
      id !in old(db.multas.rows)
      && db.multas.rows == old(db.multas.rows)[id := Multa(req.ticketId.value, req.motivo, req.monto, now)]
    ensures MontosNoNegativos(old(db.multas.rows)) ==> MontosNoNegativos(db.multas.rows)
    ensures SinColgantes(old(db.multas.rows), TicketDeMulta, db.tickets.rows)
            ==> SinColgantes(db.multas.rows, TicketDeMulta, db.tickets.rows)
  {
    id := 0;
    if !CamposMulta(req) {
      return BadRequest, id;
    }
    if req.monto.value <= 0 {
      return BadRequest, id;
    }
    if req.ticketId.value !in db.tickets.rows {
      return NotFound, id;
    }
    var (tabla, nid) := Insert(db.multas, Multa(req.ticketId.value, req.motivo, req.monto, now));
    db.multas := tabla;
    st, id := Ok, nid;
  }

  /** `PUT /multas/{id}`: the amount is checked only when it is truthy; reason
      and amount are then overwritten as sent. */
  method ActualizarMulta(db: Db, id: int, motivo: Option<string>, monto: Option<int>) returns (st: Status)
    modifies db`multas
    ensures id !in old(db.multas.rows) ==> st == NotFound
    ensures (id in old(db.multas.rows) && Truthy(monto) && monto.value <= 0) ==> st == BadRequest
    ensures st == Ok <==> id in old(db.multas.rows) && !(Truthy(monto) && monto.value <= 0)
    ensures st != Ok ==> db.multas == old(db.multas)
    ensures st == Ok ==>
      db.multas.rows == old(db.multas.rows)[id := old(db.multas.rows)[id].(motivo := motivo, monto := monto)]
    ensures MontosNoNegativos(old(db.multas.rows)) ==> MontosNoNegativos(db.multas.rows)
  {
    if id !in db.multas.rows {
      return NotFound;
    }
    if Truthy(monto) && monto.value <= 0 {
      return BadRequest;
    }
    db.multas := Put(db.multas, id, db.multas.rows[id].(motivo := motivo, monto := monto));
    st := Ok;
  }

  /** `DELETE /multas/{id}`: no guard beyond existence. */
  method EliminarMulta(db: Db, id: int) returns (st: Status)
    modifies db`multas
    ensures st == Ok <==> id in old(db.multas.rows)
    ensures st != Ok ==> st == NotFound && db.multas == old(db.multas)
    ensures st == Ok ==> db.multas.rows == old(db.multas.rows) - {id}
    ensures MontosNoNegativos(old(db.multas.rows)) ==> MontosNoNegativos(db.multas.rows)
  {
    if id !in db.multas.rows {
      return NotFound;
    }
    db.multas := Remove(db.multas, id);
    st := Ok;
  }

  // ---------------------------------------------------------------------------
  // listarMultas

  function DeTicket(ticketId: Option<int>): Multa -> bool
  {
    (m: Multa) => ticketId.Some? ==> m.ticketId == ticketId.value
  }

  /** `GET /multas` with the optional ticket filter. */
  function ListarMultas(t: Table<Multa>, ticketId: Option<int>): (r: seq<Multa>)
    ensures forall x :: x in r ==> exists a :: a in t.rows && t.rows[a] == x
    ensures forall x :: x in r && ticketId.Some? ==> x.ticketId == ticketId.value
    ensures forall a :: (a in t.rows && (ticketId.Some? ==> t.rows[a].ticketId == ticketId.value)) ==> t.rows[a] in r
    ensures ticketId.None? ==> |r| == |t.rows|
    ensures ticketId.Some? ==> |r| == |set a | a in t.rows && t.rows[a].ticketId == ticketId.value|
  {
    if ticketId.Some? then
      DeTicketPorId(t, ticketId.value);
      Filter(Rows(t), DeTicket(ticketId))
    else Rows(t)
  }

  lemma DeTicketPorId(t: Table<Multa>, ticketId: int)
    ensures Count(Rows(t), DeTicket(Some(ticketId))) == |set a | a in t.rows && t.rows[a].ticketId == ticketId|
  {
    CountRows(t, DeTicket(Some(ticketId)));
    assert IdsDonde(t.rows, DeTicket(Some(ticketId))) == set a | a in t.rows && t.rows[a].ticketId == ticketId;
  }

  /** `total_monto`: the sum of the listed amounts, which is not a number (None)
      as soon as one listed amount is NULL. */
  function TotalMultas(r: seq<Multa>): (total: Option<int>)
    ensures total.Some? <==> forall i :: 0 <= i < |r| ==> r[i].monto.Some?
    ensures r == [] ==> total == Some(0)
  {
    if r == [] then Some(0)
    else
      var resto := TotalMultas(r[1..]);
      if r[0].monto.None? || resto.None? then
        assert resto.None? ==> exists i :: 0 <= i < |r[1..]| && r[1..][i].monto.None?;
        None
      else
        Some(r[0].monto.value + resto.value)
  }

  /** The amount of a fine, 0 where it is NULL. */
  function MontoMulta(m: Multa): int
  {
    if m.monto.Some? then m.monto.value else 0
  }

  /** When every listed amount is present the total is their plain sum. */
  lemma {:induction false} TotalMultasEsSuma(r: seq<Multa>)
    requires forall i :: 0 <= i < |r| ==> r[i].monto.Some?
    ensures TotalMultas(r) == Some(Sum(r, MontoMulta))
  {
    if r != [] {
      TotalMultasEsSuma(r[1..]);
    }
  }

  /** Amounts that are never negative add up to a non-negative total, and a
      listing of positive amounts totals more than 0. */
  lemma {:induction false} TotalMultasNoNegativo(r: seq<Multa>)
    requires forall i :: 0 <= i < |r| ==> r[i].monto.Some? && r[i].monto.value >= 0
    ensures TotalMultas(r).Some? && TotalMultas(r).value >= 0
    ensures (r != [] && forall i :: 0 <= i < |r| ==> r[i].monto.value > 0) ==> TotalMultas(r).value > 0
  {
    if r != [] {
      TotalMultasNoNegativo(r[1..]);
    }
  }
}
