/** Payment types (tipospago.controller.js): names are unique among the types
    that have one; a type with payments cannot be deleted. */
module TiposPago {
  import opened Common
  import opened Tables
  import opened Schema

  /** The payment-type column of a payment, as a reference. */
  function TipoDePago(p: Pago): Option<int>
  {
    Some(p.tipoPagoId)
  }

  /** A type other than `excepto` stores the name
      (`SELECT id FROM TiposPago WHERE nombre = ? AND id != ?`). */
  predicate NombreUsado(t: map<int, TipoPago>, nombre: string, excepto: Option<int>)
  {
    exists a :: a in t && t[a].nombre == Some(nombre) && excepto != Some(a)
  }

  /** No two types share a non-empty name (an update without a name stores
      NULL, which may repeat). */
  ghost predicate NombresUnicos(t: map<int, TipoPago>)
  {
    forall a, b :: (a in t && b in t && TruthyStr(t[a].nombre) && t[a].nombre == t[b].nombre) ==> a == b
  }

  /** `POST /tipos-pago` */
  method CrearTipoPago(db: Db, nombre: Option<string>) returns (st: Status, id: int)
    modifies db`tiposPago
    ensures !TruthyStr(nombre) ==> st == BadRequest
    ensures (TruthyStr(nombre) && NombreUsado(old(db.tiposPago.rows), nombre.value, None)) ==> st == Conflict
    ensures st == Ok <==> TruthyStr(nombre) && !NombreUsado(old(db.tiposPago.rows), nombre.value, None)
    ensures st != Ok ==> db.tiposPago == old(db.tiposPago)
    ensures st == Ok ==>
      id !in old(db.tiposPago.rows) && db.tiposPago.rows == old(db.tiposPago.rows)[id := TipoPago(nombre)]
    ensures NombresUnicos(old(db.tiposPago.rows)) ==> NombresUnicos(db.tiposPago.rows)
  {
    id := 0;
    if !TruthyStr(nombre) {
      return BadRequest, id;
    }
    if NombreUsado(db.tiposPago.rows, nombre.value, None) {
      return Conflict, id;
    }
    var (tabla, nid) := Insert(db.tiposPago, TipoPago(nombre));
    db.tiposPago := tabla;
    st, id := Ok, nid;
  }

  /** `PUT /tipos-pago/{id}`: a non-empty name must not belong to another type;
      the name is then overwritten as sent. */
  method ActualizarTipoPago(db: Db, id: int, nombre: Option<string>) returns (st: Status)
    modifies db`tiposPago
    ensures id !in old(db.tiposPago.rows) ==> st == NotFound
    ensures (id in old(db.tiposPago.rows) && TruthyStr(nombre)
             && NombreUsado(old(db.tiposPago.rows), nombre.value, Some(id))) ==> st == Conflict
    ensures st == Ok <==>
      id in old(db.tiposPago.rows) && !(TruthyStr(nombre) && NombreUsado(old(db.tiposPago.rows), nombre.value, Some(id)))
    ensures st != Ok ==> db.tiposPago == old(db.tiposPago)
    ensures st == Ok ==> db.tiposPago.rows == old(db.tiposPago.rows)[id := TipoPago(nombre)]
    ensures NombresUnicos(old(db.tiposPago.rows)) ==> NombresUnicos(db.tiposPago.rows)
  {
    if id !in db.tiposPago.rows {
      return NotFound;
    }
    if TruthyStr(nombre) && NombreUsado(db.tiposPago.rows, nombre.value, Some(id)) {
      return Conflict;
    }
    db.tiposPago := Put(db.tiposPago, id, TipoPago(nombre));
    st := Ok;
  }

  /** `DELETE /tipos-pago/{id}`: refused while any payment uses the type. */
  method EliminarTipoPago(db: Db, id: int) returns (st: Status)
    modifies db`tiposPago
    ensures id !in old(db.tiposPago.rows) ==> st == NotFound
    ensures (id in old(db.tiposPago.rows) && Referenciado(db.pagos.rows, TipoDePago, id)) ==> st == BadRequest
    ensures st == Ok <==> id in old(db.tiposPago.rows) && !Referenciado(db.pagos.rows, TipoDePago, id)
    ensures st != Ok ==> db.tiposPago == old(db.tiposPago)
    ensures st == Ok ==> db.tiposPago.rows == old(db.tiposPago.rows) - {id}
    ensures SinColgantes(db.pagos.rows, TipoDePago, old(db.tiposPago.rows))
            ==> SinColgantes(db.pagos.rows, TipoDePago, db.tiposPago.rows)
    ensures NombresUnicos(old(db.tiposPago.rows)) ==> NombresUnicos(db.tiposPago.rows)
  {
    if id !in db.tiposPago.rows {
      return NotFound;
    }
    if Referenciado(db.pagos.rows, TipoDePago, id) {
      return BadRequest;
    }
    EliminarNoReferenciado(db.pagos.rows, TipoDePago, db.tiposPago.rows, id);
    db.tiposPago := Remove(db.tiposPago, id);
    st := Ok;
  }
}
