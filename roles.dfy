/** Roles (roles.controller.js): unique names, system roles that cannot be
    deleted, and the static permission table looked up by upper-cased name. */
module Roles {
  import opened Common
  import opened Tables
  import opened Schema

  /** The role column of a user, as a reference. */
  function RolDeUsuario(u: Usuario): Option<int>
  {
    u.rolId
  }

  /** The names `eliminarRol` refuses to delete, compared after upper-casing. */
  const ROLES_SISTEMA: seq<string> := ["ADMIN", "ADMINISTRADOR", "USUARIO", "EMPLEADO"]

  predicate EsRolSistema(nombre: string)
  {
    ToUpper(nombre) in ROLES_SISTEMA
  }

  /** Some role other than `excepto` has the name. */
  predicate NombreRolUsado(t: map<int, Rol>, nombre: string, excepto: Option<int>)
  {
    exists a :: a in t && t[a].nombre == nombre && excepto != Some(a)
  }

  /** No two roles share a name, and no role has an empty one. */
  ghost predicate NombresRolValidos(t: map<int, Rol>)
  {
    && (forall a :: a in t ==> t[a].nombre != "")
    && (forall a, b :: (a in t && b in t && t[a].nombre == t[b].nombre) ==> a == b)
  }

  /** `POST /roles` */
  method CrearRol(db: Db, nombre: Option<string>, descripcion: Option<string>) returns (st: Status, id: int)
    modifies db`roles
    ensures !TruthyStr(nombre) ==> st == BadRequest
    ensures (TruthyStr(nombre) && NombreRolUsado(old(db.roles.rows), nombre.value, None)) ==> st == Conflict
    ensures st == Ok <==> TruthyStr(nombre) && !NombreRolUsado(old(db.roles.rows), nombre.value, None)
    ensures st != Ok ==> db.roles == old(db.roles)
    ensures st == Ok ==>
      id !in old(db.roles.rows) && db.roles.rows == old(db.roles.rows)[id := Rol(nombre.value, descripcion)]
    ensures NombresRolValidos(old(db.roles.rows)) ==> NombresRolValidos(db.roles.rows)
  {
    id := 0;
    if !TruthyStr(nombre) {
      return BadRequest, id;
    }
    if NombreRolUsado(db.roles.rows, nombre.value, None) {
      return Conflict, id;
    }
    var (tabla, nid) := Insert(db.roles, Rol(nombre.value, descripcion));
    db.roles := tabla;
    st, id := Ok, nid;
  }

  /** `PUT /roles/{id}`: a non-empty new name must not belong to another role;
      an empty or missing name keeps the stored one. */
  method ActualizarRol(db: Db, id: int, nombre: Option<string>, descripcion: Option<string>) returns (st: Status)
    modifies db`roles
    ensures id !in old(db.roles.rows) ==> st == NotFound
    ensures (id in old(db.roles.rows) && TruthyStr(nombre) && nombre.value != old(db.roles.rows)[id].nombre
             && NombreRolUsado(old(db.roles.rows), nombre.value, Some(id))) ==> st == Conflict
    ensures st == Ok <==>
      id in old(db.roles.rows)
      && !(TruthyStr(nombre) && nombre.value != old(db.roles.rows)[id].nombre
           && NombreRolUsado(old(db.roles.rows), nombre.value, Some(id)))
    ensures st != Ok ==> db.roles == old(db.roles)
    ensures st == Ok ==>
      db.roles.rows == old(db.roles.rows)[id := Rol(if TruthyStr(nombre) then nombre.value
                                                  else old(db.roles.rows)[id].nombre, descripcion)]
    ensures NombresRolValidos(old(db.roles.rows)) ==> NombresRolValidos(db.roles.rows)
  {
    if id !in db.roles.rows {
      return NotFound;
    }
    var actual := db.roles.rows[id].nombre;
    if TruthyStr(nombre) && nombre.value != actual {
      if NombreRolUsado(db.roles.rows, nombre.value, Some(id)) {
        return Conflict;
      }
    }
    db.roles := Put(db.roles, id, Rol(if TruthyStr(nombre) then nombre.value else actual, descripcion));
    st := Ok;
  }

  /** `DELETE /roles/{id}`: a system role is refused (403) before the assigned
      users are counted (400); no system role is ever removed. */
  method EliminarRol(db: Db, id: int) returns (st: Status)
    modifies db`roles
    ensures id !in old(db.roles.rows) ==> st == NotFound
    ensures (id in old(db.roles.rows) && EsRolSistema(old(db.roles.rows)[id].nombre)) ==> st == Forbidden
    ensures (id in old(db.roles.rows) && !EsRolSistema(old(db.roles.rows)[id].nombre)
             && Referenciado(db.usuarios.rows, RolDeUsuario, id)) ==> st == BadRequest
    ensures st == Ok <==>
      id in old(db.roles.rows) && !EsRolSistema(old(db.roles.rows)[id].nombre)
      && !Referenciado(db.usuarios.rows, RolDeUsuario, id)
    ensures st != Ok ==> db.roles == old(db.roles)
    ensures st == Ok ==> db.roles.rows == old(db.roles.rows) - {id}
    ensures forall a :: a in old(db.roles.rows) && EsRolSistema(old(db.roles.rows)[a].nombre) ==>
      a in db.roles.rows && db.roles.rows[a] == old(db.roles.rows)[a]
    ensures SinColgantes(db.usuarios.rows, RolDeUsuario, old(db.roles.rows))
            ==> SinColgantes(db.usuarios.rows, RolDeUsuario, db.roles.rows)
    ensures NombresRolValidos(old(db.roles.rows)) ==> NombresRolValidos(db.roles.rows)
  {
    if id !in db.roles.rows {
      return NotFound;
    }
    if EsRolSistema(db.roles.rows[id].nombre) {
      return Forbidden;
    }
    if Referenciado(db.usuarios.rows, RolDeUsuario, id) {
      return BadRequest;
    }
    EliminarNoReferenciado(db.usuarios.rows, RolDeUsuario, db.roles.rows, id);
    db.roles := Remove(db.roles, id);
    st := Ok;
  }

  // ---------------------------------------------------------------------------
  // obtenerPermisos

  /** Resource name to the actions granted on it, in the order listed. */
  type PermisosRol = map<string, seq<string>>

  const CRUD: seq<string> := ["crear", "leer", "actualizar", "eliminar"]

  const PERMISOS_ADMIN: PermisosRol := map[
    "clientes" := CRUD, "vehiculos" := CRUD, "empleados" := CRUD, "tickets" := CRUD,
    "pagos" := ["crear", "leer", "reporte"], "tarifas" := CRUD, "espacios" := CRUD,
    "multas" := CRUD, "reservas" := CRUD, "reportes" := ["acceso_completo"]]

  const PERMISOS_EMPLEADO: PermisosRol := map[
    "clientes" := ["crear", "leer", "actualizar"], "vehiculos" := ["crear", "leer", "actualizar"],
    "tickets" := ["crear", "leer", "actualizar"], "pagos" := ["crear", "leer"],
    "espacios" := ["leer"], "multas" := ["crear", "leer"], "reservas" := ["leer"]]

  const PERMISOS_USUARIO: PermisosRol := map[
    "tickets" := ["leer"], "vehiculos" := ["leer"], "reservas" := ["crear", "leer"]]

  const TABLA_PERMISOS: map<string, PermisosRol> := map[
    "ADMIN" := PERMISOS_ADMIN, "EMPLEADO" := PERMISOS_EMPLEADO, "USUARIO" := PERMISOS_USUARIO]

  /** Every action `p` grants on a resource, `q` grants on it too. */
  predicate Incluido(p: PermisosRol, q: PermisosRol)
  {
    forall r :: r in p ==> r in q && forall x :: x in p[r] ==> x in q[r]
  }

  /** The permissions of a role name: the table entry for its upper-cased
      form, or nothing. Only system roles get any, and the lookup does not
      depend on the name's case. */
  function Permisos(nombre: string): (p: PermisosRol)
    ensures p != map[] ==> EsRolSistema(nombre)
    ensures ToUpper(nombre) !in TABLA_PERMISOS ==> p == map[]
    ensures Incluido(p, PERMISOS_ADMIN)
  {
    var n := ToUpper(nombre);
    if n in TABLA_PERMISOS then
      assert n in ROLES_SISTEMA by {
        assert n == "ADMIN" || n == "EMPLEADO" || n == "USUARIO";
        assert ROLES_SISTEMA[0] == "ADMIN" && ROLES_SISTEMA[2] == "USUARIO" && ROLES_SISTEMA[3] == "EMPLEADO";
      }
      PermisosMenores();
      TABLA_PERMISOS[n]
    else
      map[]
  }

  /** Each permission listed for EMPLEADO or USUARIO is also listed for ADMIN on
      the same resource. */
  lemma PermisosMenores()
    ensures Incluido(PERMISOS_EMPLEADO, PERMISOS_ADMIN)
    ensures Incluido(PERMISOS_USUARIO, PERMISOS_ADMIN)
    ensures forall n :: n in TABLA_PERMISOS ==> Incluido(TABLA_PERMISOS[n], PERMISOS_ADMIN)
  {
    assert PERMISOS_EMPLEADO.Keys == {"clientes", "vehiculos", "tickets", "pagos", "espacios", "multas", "reservas"};
    assert PERMISOS_USUARIO.Keys == {"tickets", "vehiculos", "reservas"};
  }

  /** The table is not a ladder: USUARIO may create reservations, which
      EMPLEADO may not. */
  lemma UsuarioNoIncluidoEnEmpleado()
    ensures !Incluido(PERMISOS_USUARIO, PERMISOS_EMPLEADO)
  {
    assert "crear" in PERMISOS_USUARIO["reservas"];
  }

  /** Looking a name up or its upper-cased form gives the same permissions. */
  lemma PermisosSinMayusculas(nombre: string)
    ensures Permisos(nombre) == Permisos(ToUpper(nombre))
  {
    ToUpperIdempotent(nombre);
  }

  /** `GET /roles/{id}/permisos` */
  function ObtenerPermisos(t: Table<Rol>, id: int): (r: (Status, PermisosRol))
    ensures r.0 == Ok <==> id in t.rows
    ensures r.0 != Ok ==> r.0 == NotFound && r.1 == map[]
    ensures r.0 == Ok ==> r.1 == Permisos(t.rows[id].nombre)
    ensures r.1 != map[] ==> id in t.rows && EsRolSistema(t.rows[id].nombre)
  {
    if id !in t.rows then (NotFound, map[]) else (Ok, Permisos(t.rows[id].nombre))
  }
}
