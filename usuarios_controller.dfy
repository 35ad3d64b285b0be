/**
 * The legacy user controller `usuariosController.js` (not mounted by the server): registration
 * into `usuarios` with a plain-text password, and a login that compares it.
 */
module Usuarios {
  import opened Wrappers
  import opened Listas
  import opened Almacen

  const ADMIN_CORREO := "admin@admin.com"
  const ADMIN_PASSWORD := "admin"
  const ROL_CLIENTE := "cliente"

  function CorreoDe(u: Usuario): string {
    u.correo
  }

  function UsuarioNuevo(nombre: string, correo: string, password: string, telefono: string, oid: string, ahora: int): (u: Usuario)
    ensures u.correo == correo && u.password == password && u.nombre == nombre
    ensures u.telefono == NuloSiVacio(telefono) && u.rol == Some(ROL_CLIENTE) && u.citas == [] && u.fechaRegistro == ahora
  {
    Usuario(oid, nombre, correo, password, NuloSiVacio(telefono), Some(ROL_CLIENTE), ahora, [])
  }

  /** `POST` of `registrarUsuario`. */
  method RegistrarUsuario(db: Db, nombre: string, correo: string, password: string, telefono: string, oid: string, ahora: int)
    returns (status: int)
    modifies db`usuarios
    ensures nombre == "" || correo == "" || password == "" ==> status == 400 && unchanged(db)
    ensures nombre != "" && correo != "" && password != "" && PrimeroCon(old(db.usuarios), CorreoDe, correo).Some? ==>
              status == 409 && unchanged(db)
    ensures nombre != "" && correo != "" && password != "" && PrimeroCon(old(db.usuarios), CorreoDe, correo).None? ==>
              status == 201 && db.usuarios == old(db.usuarios) + [UsuarioNuevo(nombre, correo, password, telefono, oid, ahora)]
  {
    if nombre == "" || correo == "" || password == "" {
      return 400;
    }
    if PrimeroCon(db.usuarios, CorreoDe, correo).Some? {
      return 409;
    }
    db.usuarios := db.usuarios + [UsuarioNuevo(nombre, correo, password, telefono, oid, ahora)];
    return 201;
  }

  /** No two accounts share an address. */
  ghost predicate CorreosUnicos(us: seq<Usuario>) {
    forall i, j | 0 <= i < j < |us| :: us[i].correo != us[j].correo
  }

  /** Registration keeps addresses unique: an insert only happens for an address nobody has. */
  lemma RegistrarPreservaUnicidad(us: seq<Usuario>, nombre: string, correo: string, password: string, telefono: string,
                                  oid: string, ahora: int)
    requires CorreosUnicos(us) && PrimeroCon(us, CorreoDe, correo).None?
    ensures CorreosUnicos(us + [UsuarioNuevo(nombre, correo, password, telefono, oid, ahora)])
  {
    var us' := us + [UsuarioNuevo(nombre, correo, password, telefono, oid, ahora)];
    forall i, j | 0 <= i < j < |us'| ensures us'[i].correo != us'[j].correo {
      if j == |us| {
        assert CorreoDe(us[i]) != correo;
      }
    }
  }

  /** What `loginUsuario` answers: a status and, on success, the role, name and address. */
  datatype Respuesta = Respuesta(status: int, rol: string, nombre: string, correo: string)

  /**
   * `loginUsuario`, read-only: 400 on missing fields, the admin pair before any lookup, 404 when
   * nobody has the address, 401 when the stored password differs, else the user's role or
   * "cliente".
   */
  function LoginUsuario(us: seq<Usuario>, correo: string, password: string): (r: Respuesta)
    ensures r.status == 400 <==> correo == "" || password == ""
    ensures correo != "" && password != "" && correo == ADMIN_CORREO && password == ADMIN_PASSWORD ==>
              r == Respuesta(200, "admin", "Administrador", correo)
    ensures correo != "" && password != "" && !(correo == ADMIN_CORREO && password == ADMIN_PASSWORD) ==>
              (r.status == 404 <==> PrimeroCon(us, CorreoDe, correo).None?)
              && (r.status == 401 <==> exists i | i == PrimeroCon(us, CorreoDe, correo).GetOr(|us|) && i < |us| ::
                                        us[i].password != password)
              && (r.status == 200 ==> exists i | i == PrimeroCon(us, CorreoDe, correo).GetOr(|us|) && i < |us| ::
                                        us[i].password == password && r.nombre == us[i].nombre && r.correo == us[i].correo
                                        && r.rol == (if us[i].rol.Some? && us[i].rol.value != "" then us[i].rol.value else ROL_CLIENTE))
    ensures r.status in {200, 400, 401, 404}
  {
    if correo == "" || password == "" then Respuesta(400, "", "", "")
    else if correo == ADMIN_CORREO && password == ADMIN_PASSWORD then Respuesta(200, "admin", "Administrador", correo)
    else match PrimeroCon(us, CorreoDe, correo)
      case None => Respuesta(404, "", "", "")
      case Some(i) =>
        var u := us[i];
        if u.password != password then Respuesta(401, "", "", "")
        else Respuesta(200, if u.rol.Some? && u.rol.value != "" then u.rol.value else ROL_CLIENTE, u.nombre, u.correo)
  }

  /** A user that has just registered logs in with the same address and password, as "cliente". */
  lemma LoginTrasRegistro(us: seq<Usuario>, nombre: string, correo: string, password: string, telefono: string,
                          oid: string, ahora: int)
    requires nombre != "" && correo != "" && password != ""
    requires !(correo == ADMIN_CORREO && password == ADMIN_PASSWORD)
    requires PrimeroCon(us, CorreoDe, correo).None?
    ensures LoginUsuario(us + [UsuarioNuevo(nombre, correo, password, telefono, oid, ahora)], correo, password)
            == Respuesta(200, ROL_CLIENTE, nombre, correo)
  {
    var us' := us + [UsuarioNuevo(nombre, correo, password, telefono, oid, ahora)];
    forall j | 0 <= j < |us| ensures CorreoDe(us'[j]) != correo {
      assert us'[j] == us[j];
    }
    PrimeroConEs(us', CorreoDe, correo, |us|);
  }
}
