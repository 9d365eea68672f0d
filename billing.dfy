/** The charge for a stay: elapsed whole minutes are rounded up to whole hours
    (`CEIL(minutes / 60.0)`), and the hours are multiplied by the tariff's
    hourly price (`horas_cobrar * precio_hora`). Prices are in cents. */
module Billing {
  import opened Common

  /** `CEIL(minutos / 60.0)` for any integer number of minutes: the unique
      whole number of hours h with h - 1 < minutos / 60 <= h. */
  function HorasCobrar(minutos: int): (h: int)
    ensures 60 * (h - 1) < minutos <= 60 * h
  {
    if minutos >= 0 then (minutos + 59) / 60 else -((-minutos) / 60)
  }

  /** The rounding is determined by its bounds: any other count of hours with
      the same bounds is the same count. */
  lemma HorasCobrarUnique(minutos: int, h: int)
    requires 60 * (h - 1) < minutos <= 60 * h
    ensures h == HorasCobrar(minutos)
  {
  }

  /** A longer stay never bills fewer hours; a stay of 0 minutes bills 0 hours
      and any positive stay bills at least one. */
  lemma HorasCobrarMonotone(m1: int, m2: int)
    requires m1 <= m2
    ensures HorasCobrar(m1) <= HorasCobrar(m2)
    ensures HorasCobrar(0) == 0
    ensures m1 > 0 ==> HorasCobrar(m1) >= 1
  {
  }

  /** The readout of a closed ticket: `minutos_totales`, `horas_cobrar`, and
      `monto_total`, which is NULL when the ticket's tariff row is missing or
      its price is NULL. */
  datatype Factura = Factura(minutos: int, horas: int, monto: Option<int>)

  function Facturar(minutos: int, precioHora: Option<int>): (f: Factura)
    ensures f.minutos == minutos && f.horas == HorasCobrar(minutos)
    ensures f.monto.Some? <==> precioHora.Some?
  {
    var h := HorasCobrar(minutos);
    Factura(minutos, h, if precioHora.Some? then Some(h * precioHora.value) else None)
  }

  /** For a stay of m >= 0 minutes at a non-negative price p, the amount is never
      below the exact pro-rata price m * p / 60 and exceeds it by less than one
      hour's price. */
  lemma {:induction false} FacturarBounds(minutos: int, p: int)
    requires minutos >= 0 && p >= 0
    ensures var monto := Facturar(minutos, Some(p)).monto.value;
      minutos * p <= 60 * monto && (p > 0 ==> 60 * monto < minutos * p + 60 * p)
  {
    var h := HorasCobrar(minutos);
    var monto := h * p;
    assert Facturar(minutos, Some(p)).monto.value == monto;
    // The nonlinear steps are spelled out so the solver does not have to find
    // them; without them this proof runs close to the resource limit.
    if p > 0 {
      assert 60 * h >= minutos;
      assert 60 * monto == (60 * h) * p;
      MulLeMonotone(minutos, 60 * h, p);
      assert 60 * (h - 1) < minutos;
      MulLtMonotone(60 * h - 60, minutos, p);
      assert (60 * h - 60) * p == 60 * monto - 60 * p;
    }
  }

  /** Proof steps for FacturarBounds: monotonicity of multiplication by a
      non-negative price. */
  lemma MulLeMonotone(a: int, b: int, p: int)
    requires a <= b && p >= 0
    ensures a * p <= b * p
  {
  }

  lemma MulLtMonotone(a: int, b: int, p: int)
    requires a < b && p > 0
    ensures a * p < b * p
  {
  }

  /** The worked cases: 59, 60 and 61 minutes bill 1, 1 and 2 hours, and 125
      minutes at 10.00 per hour bill 3 hours and 30.00. */
  lemma FacturarExamples()
    ensures HorasCobrar(59) == 1 && HorasCobrar(60) == 1 && HorasCobrar(61) == 2
    ensures HorasCobrar(120) == 2 && HorasCobrar(0) == 0
    ensures Facturar(125, Some(1000)) == Factura(125, 3, Some(3000))
  {
  }
}
