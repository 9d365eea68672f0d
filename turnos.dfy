/** Shifts (turnos.controller.js): start and end times in the 24-hour
    `HH:MM:SS` form; a shift with employees cannot be deleted. */
module Turnos {
  import opened Common
  import opened Tables
  import opened Schema
  import opened Empleados

  // ---------------------------------------------------------------------------
  // The time format

  predicate EsDigito(c: char)
  {
    '0' <= c <= '9'
  }

  /** The pattern `^([0-1][0-9]|2[0-3]):([0-5][0-9]):([0-5][0-9])$`: exactly
      eight characters, an hour 00..23, minutes and seconds 00..59. */
  predicate HoraValida(s: string)
  {
    && |s| == 8
    && (('0' <= s[0] <= '1' && EsDigito(s[1])) || (s[0] == '2' && '0' <= s[1] <= '3'))
    && s[2] == ':'
    && '0' <= s[3] <= '5' && EsDigito(s[4])
    && s[5] == ':'
    && '0' <= s[6] <= '5' && EsDigito(s[7])
  }

  function Digito(d: int): (c: char)
    requires 0 <= d < 10
    ensures EsDigito(c) && Valor(c) == d
  {
    ('0' as int + d) as char
  }

  function Valor(c: char): int
  {
    c as int - '0' as int
  }

  /** Two digits, zero-padded. */
  function DosDigitos(n: int): (s: string)
    requires 0 <= n < 100
    ensures |s| == 2 && EsDigito(s[0]) && EsDigito(s[1])
  {
    [Digito(n / 10), Digito(n % 10)]
  }

  function LeerDos(s: string): int
    requires |s| == 2
  {
    10 * Valor(s[0]) + Valor(s[1])
  }

  /** A time of day written out in the stored form. */
  function FormatoHora(h: int, m: int, sg: int): (s: string)
    requires 0 <= h < 24 && 0 <= m < 60 && 0 <= sg < 60
    ensures |s| == 8
  {
    DosDigitos(h) + ":" + DosDigitos(m) + ":" + DosDigitos(sg)
  }

  datatype Hora = Hora(h: int, m: int, s: int)

  function LeerHora(s: string): Hora
    requires |s| == 8
  {
    Hora(LeerDos(s[0..2]), LeerDos(s[3..5]), LeerDos(s[6..8]))
  }

  lemma LeerDosDigitos(n: int)
    requires 0 <= n < 100
    ensures LeerDos(DosDigitos(n)) == n
  {
  }

  /** Every time of day written out matches the pattern and reads back as
      itself. */
  lemma FormatoEsValido(h: int, m: int, sg: int)
    requires 0 <= h < 24 && 0 <= m < 60 && 0 <= sg < 60
    ensures HoraValida(FormatoHora(h, m, sg))
    ensures LeerHora(FormatoHora(h, m, sg)) == Hora(h, m, sg)
  {
    var s := FormatoHora(h, m, sg);
    assert s[0..2] == DosDigitos(h) && s[3..5] == DosDigitos(m) && s[6..8] == DosDigitos(sg);
    LeerDosDigitos(h);
    LeerDosDigitos(m);
    LeerDosDigitos(sg);
  }

  /** Conversely, every string the pattern accepts is a time of day (hour
      below 24, minutes and seconds below 60) written out. */
  lemma ValidaEsFormato(s: string)
    requires HoraValida(s)
    ensures var t := LeerHora(s); 0 <= t.h < 24 && 0 <= t.m < 60 && 0 <= t.s < 60
    ensures var t := LeerHora(s); FormatoHora(t.h, t.m, t.s) == s
  {
    var t := LeerHora(s);
    assert s[0..2][0] == s[0] && s[0..2][1] == s[1];
    assert s[3..5][0] == s[3] && s[3..5][1] == s[4];
    assert s[6..8][0] == s[6] && s[6..8][1] == s[7];
    assert DosDigitos(t.h) == s[0..2];
    assert DosDigitos(t.m) == s[3..5];
    assert DosDigitos(t.s) == s[6..8];
    assert s == s[0..2] + ":" + s[3..5] + ":" + s[6..8];
  }

  /** Both times of a shift, when present and non-empty, match the pattern. */
  ghost predicate HorasValidas(t: map<int, Turno>)
  {
    forall a :: a in t ==>
      (TruthyStr(t[a].horaInicio) ==> HoraValida(t[a].horaInicio.value))
      && (TruthyStr(t[a].horaFin) ==> HoraValida(t[a].horaFin.value))
  }

  /** A supplied (non-empty) time that does not match the pattern. */
  predicate HoraRechazada(hora: Option<string>)
  {
    TruthyStr(hora) && !HoraValida(hora.value)
  }

  datatype TurnoReq = TurnoReq(descripcion: Option<string>, horaInicio: Option<string>, horaFin: Option<string>)

  /** `POST /turnos` */
  method CrearTurno(db: Db, req: TurnoReq) returns (st: Status, id: int)
    modifies db`turnos
    ensures !(TruthyStr(req.horaInicio) && TruthyStr(req.horaFin)) ==> st == BadRequest
    ensures (HoraRechazada(req.horaInicio) || HoraRechazada(req.horaFin)) ==> st == BadRequest
    ensures st == Ok <==>
      TruthyStr(req.horaInicio) && TruthyStr(req.horaFin)
      && HoraValida(req.horaInicio.value) && HoraValida(req.horaFin.value)
    ensures st != Ok ==> st == BadRequest && db.turnos == old(db.turnos)
    ensures st == Ok ==>
      id !in old(db.turnos.rows)
      && db.turnos.rows == old(db.turnos.rows)[id := Turno(req.descripcion, req.horaInicio, req.horaFin)]
    ensures HorasValidas(old(db.turnos.rows)) ==> HorasValidas(db.turnos.rows)
  {
    id := 0;
    if !TruthyStr(req.horaInicio) || !TruthyStr(req.horaFin) {
      return BadRequest, id;
    }
    if !HoraValida(req.horaInicio.value) || !HoraValida(req.horaFin.value) {
      return BadRequest, id;
    }
    var (tabla, nid) := Insert(db.turnos, Turno(req.descripcion, req.horaInicio, req.horaFin));
    db.turnos := tabla;
    st, id := Ok, nid;
  }

  /** `PUT /turnos/{id}`: only the times that are supplied are checked; all
      three columns are then overwritten as sent. */
  method ActualizarTurno(db: Db, id: int, req: TurnoReq) returns (st: Status)
    modifies db`turnos
    ensures id !in old(db.turnos.rows) ==> st == NotFound
    ensures (id in old(db.turnos.rows) && (HoraRechazada(req.horaInicio) || HoraRechazada(req.horaFin))) ==> st == BadRequest
    ensures st == Ok <==>
      id in old(db.turnos.rows) && !HoraRechazada(req.horaInicio) && !HoraRechazada(req.horaFin)
    ensures st != Ok ==> db.turnos == old(db.turnos)
    ensures st == Ok ==>
      db.turnos.rows == old(db.turnos.rows)[id := Turno(req.descripcion, req.horaInicio, req.horaFin)]
    ensures HorasValidas(old(db.turnos.rows)) ==> HorasValidas(db.turnos.rows)
  {
    if id !in db.turnos.rows {
      return NotFound;
    }
    if TruthyStr(req.horaInicio) || TruthyStr(req.horaFin) {
      if HoraRechazada(req.horaInicio) || HoraRechazada(req.horaFin) {
        return BadRequest;
      }
    }
    db.turnos := Put(db.turnos, id, Turno(req.descripcion, req.horaInicio, req.horaFin));
    st := Ok;
  }

  /** `DELETE /turnos/{id}`: refused while any employee is assigned the shift. */
  method EliminarTurno(db: Db, id: int) returns (st: Status)
    modifies db`turnos
    ensures id !in old(db.turnos.rows) ==> st == NotFound
    ensures (id in old(db.turnos.rows) && Referenciado(db.empleados.rows, TurnoDeEmpleado, id)) ==> st == BadRequest
    ensures st == Ok <==> id in old(db.turnos.rows) && !Referenciado(db.empleados.rows, TurnoDeEmpleado, id)
    ensures st != Ok ==> db.turnos == old(db.turnos)
    ensures st == Ok ==> db.turnos.rows == old(db.turnos.rows) - {id}
    ensures SinColgantes(db.empleados.rows, TurnoDeEmpleado, old(db.turnos.rows))
            ==> SinColgantes(db.empleados.rows, TurnoDeEmpleado, db.turnos.rows)
    ensures HorasValidas(old(db.turnos.rows)) ==> HorasValidas(db.turnos.rows)
  {
    if id !in db.turnos.rows {
      return NotFound;
    }
    if Referenciado(db.empleados.rows, TurnoDeEmpleado, id) {
      return BadRequest;
    }
    EliminarNoReferenciado(db.empleados.rows, TurnoDeEmpleado, db.turnos.rows, id);
    db.turnos := Remove(db.turnos, id);
    st := Ok;
  }
}
