/** The rows of the parking store's tables and the store itself. A column the
    handlers may overwrite with a value taken unchecked from a request is an
    `Option` (None is SQL NULL); a column only ever written after a check is a
    plain value. */
module Schema {
  import opened Common
  import opened Tables

  datatype Cliente = Cliente(nombre: Option<string>, telefono: Option<string>, correo: Option<string>, nit: Option<string>)

  datatype Zona = Zona(nombre: Option<string>, descripcion: Option<string>)

  datatype Espacio = Espacio(zonaId: Option<int>, codigo: Option<string>, disponible: Option<bool>)

  /** Available: the column holds TRUE. For the values modelled here (TRUE,
      FALSE, NULL) the tests `e.disponible` (JavaScript) and `e.disponible = 1`
      (SQL) agree, NULL and FALSE both meaning occupied; a stored integer other
      than 0 and 1, on which they disagree, is outside this model. */
  predicate Disponible(e: Espacio)
  {
    e.disponible == Some(true)
  }

  datatype Vehiculo = Vehiculo(clienteId: Option<int>, placa: Option<string>, marca: Option<string>, modelo: Option<string>, color: Option<string>)

  datatype Tarifa = Tarifa(descripcion: Option<string>, precioHora: Option<int>)

  datatype EstadoTicket = Activo | Cerrado

  /** A stay: `empleadoId` is the id of the authenticated caller who registered
      the entry; times are in minutes. */
  datatype Ticket = Ticket(vehiculoId: int, espacioId: int, empleadoId: int, tarifaId: int,
                           horaEntrada: int, horaSalida: Option<int>, estado: EstadoTicket)

  datatype TipoPago = TipoPago(nombre: Option<string>)

  datatype Pago = Pago(ticketId: int, tipoPagoId: int, monto: int, fechaPago: int)

  datatype Multa = Multa(ticketId: int, motivo: Option<string>, monto: Option<int>, fecha: int)

  datatype Reserva = Reserva(clienteId: int, espacioId: int, fechaReserva: int,
                             fechaInicio: Option<int>, fechaFin: Option<int>, estado: Option<string>)

  const ACTIVA := "ACTIVA"
  const CANCELADA := "CANCELADA"
  const FINALIZADA := "FINALIZADA"

  /** Only the columns of a user that these handlers read or write. */
  datatype Usuario = Usuario(rolId: Option<int>, activo: Option<bool>)

  datatype Empleado = Empleado(usuarioId: int, turnoId: Option<int>, telefono: Option<string>,
                               direccion: Option<string>, dpi: Option<string>)

  datatype Turno = Turno(descripcion: Option<string>, horaInicio: Option<string>, horaFin: Option<string>)

  datatype Rol = Rol(nombre: string, descripcion: Option<string>)

  /** The relational store: one field per table. */
  class Db {
    var clientes: Table<Cliente>
    var zonas: Table<Zona>
    var espacios: Table<Espacio>
    var vehiculos: Table<Vehiculo>
    var tarifas: Table<Tarifa>
    var tickets: Table<Ticket>
    var tiposPago: Table<TipoPago>
    var pagos: Table<Pago>
    var multas: Table<Multa>
    var reservas: Table<Reserva>
    var usuarios: Table<Usuario>
    var empleados: Table<Empleado>
    var turnos: Table<Turno>
    var roles: Table<Rol>

    /** An empty store. */
    constructor ()
      ensures clientes.rows == map[] && zonas.rows == map[] && espacios.rows == map[]
      ensures vehiculos.rows == map[] && tarifas.rows == map[] && tickets.rows == map[]
      ensures tiposPago.rows == map[] && pagos.rows == map[] && multas.rows == map[]
      ensures reservas.rows == map[] && usuarios.rows == map[] && empleados.rows == map[]
      ensures turnos.rows == map[] && roles.rows == map[]
    {
      clientes, zonas, espacios := Empty(), Empty(), Empty();
      vehiculos, tarifas, tickets := Empty(), Empty(), Empty();
      tiposPago, pagos, multas := Empty(), Empty(), Empty();
      reservas, usuarios, empleados := Empty(), Empty(), Empty();
      turnos, roles := Empty(), Empty();
    }
  }
}
