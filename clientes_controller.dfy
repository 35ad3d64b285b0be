/**
 * The client directory of `clientesController.js`: registration, login, listing, update, the
 * active/inactive switch and the delete that cascades to the client's appointments.
 *
 * bcrypt is abstract: `hash` stands for `bcrypt.hash` and `compara(password, hash)` for
 * `bcrypt.compare`; `idValido` is the result of `Types.ObjectId.isValid(id)`.
 */
module Clientes {
  import opened Wrappers
  import opened Listas
  import opened Texto
  import opened Almacen

  const ADMIN_CORREO := "admin@admin.com"
  const ADMIN_PASSWORD := "admin"
  const ROL_CLIENTE := "cliente"
  const ROL_ADMIN := "admin"

  /** `correo.trim().toLowerCase()`. */
  function NormalizarCorreo(correo: string): (r: string)
    ensures |r| <= |correo|
    ensures r == [] || (!EsEspacio(r[0]) && !EsEspacio(r[|r| - 1]))
    ensures forall i | 0 <= i < |r| :: MinusculaChar(r[i]) == r[i]
  {
    var t := Trim(correo);
    MinusculasSinBordes(t);
    Minusculas(t)
  }

  /** Normalising a normalised address changes nothing. */
  lemma NormalizarCorreoIdempotente(correo: string)
    ensures NormalizarCorreo(NormalizarCorreo(correo)) == NormalizarCorreo(correo)
  {
    var n := NormalizarCorreo(correo);
    if n != [] {
      assert TrimStart(n) == n;
      assert TrimEnd(n) == n;
    }
    assert Trim(n) == n;
  }

  /** A truthy `passwordHash`. */
  predicate TieneClave(c: Cliente) {
    c.passwordHash.Some? && c.passwordHash.value != ""
  }

  function OidDe(c: Cliente): string {
    c.oid
  }

  /** `{ $or: [{ correo }, { telefono }] }`. */
  function CorreoOTelefono(correo: string, telefono: string): Cliente -> bool {
    (c: Cliente) => c.correo == Some(correo) || c.telefono == telefono
  }

  /** `{ correo }`. */
  function PorCorreo(correo: string): Cliente -> bool {
    (c: Cliente) => c.correo == Some(correo)
  }

  /** The body of `POST /api/clientes`; `""` stands for a missing or falsy value. */
  datatype Registro = Registro(nombre: string, correo: string, telefono: string, password: string)

  predicate RegistroCompleto(r: Registro) {
    r.nombre != "" && r.correo != "" && r.telefono != "" && r.password != ""
  }

  /** The document a registration inserts. */
  function ClienteNuevo(r: Registro, hash: string -> string, oid: string, clienteId: string, ahora: int): (c: Cliente)
    ensures c.clienteId == clienteId && c.citas == [] && c.activo == Some(true) && c.rol == Some(ROL_CLIENTE)
    ensures c.correo == Some(NormalizarCorreo(r.correo)) && c.passwordHash == Some(hash(r.password))
    ensures c.nombre == r.nombre && c.telefono == r.telefono && c.fechaRegistro == ahora
  {
    Cliente(oid, clienteId, r.nombre, Some(NormalizarCorreo(r.correo)), r.telefono, Some(hash(r.password)),
            Some(true), None, Some(ROL_CLIENTE), ahora, [])
  }

  /** Completing a client that was created by a booking and has no password yet. */
  function CompletarCuenta(c: Cliente, r: Registro, hash: string -> string): (c': Cliente)
    ensures c'.nombre == r.nombre && c'.correo == Some(NormalizarCorreo(r.correo)) && c'.telefono == r.telefono
    ensures c'.passwordHash == Some(hash(r.password))
    ensures c'.oid == c.oid && c'.clienteId == c.clienteId && c'.citas == c.citas && c'.fechaRegistro == c.fechaRegistro
    ensures c'.activo == c.activo && c'.estado == c.estado && c'.rol == c.rol
  {
    c.(nombre := r.nombre, correo := Some(NormalizarCorreo(r.correo)), telefono := r.telefono,
       passwordHash := Some(hash(r.password)))
  }

  /** `POST /api/clientes` (registrarCliente). */
  method RegistrarCliente(db: Db, r: Registro, hash: string -> string, oid: string, clienteId: string, ahora: int)
    returns (status: int, idCliente: string)
    modifies db`clientes
    ensures !RegistroCompleto(r) ==> status == 400 && unchanged(db)
    ensures RegistroCompleto(r) ==>
              match PrimeroQue(old(db.clientes), CorreoOTelefono(NormalizarCorreo(r.correo), r.telefono))
              case None =>
                status == 201 && idCliente == clienteId
                && db.clientes == old(db.clientes) + [ClienteNuevo(r, hash, oid, clienteId, ahora)]
              case Some(i) =>
                if TieneClave(old(db.clientes)[i]) then status == 409 && unchanged(db)
                else status == 200 && idCliente == old(db.clientes)[i].clienteId
                     && db.clientes == old(db.clientes)[i := CompletarCuenta(old(db.clientes)[i], r, hash)]
  {
    idCliente := "";
    if !RegistroCompleto(r) {
      return 400, idCliente;
    }
    var correoNormalizado := NormalizarCorreo(r.correo);
    var existente := PrimeroQue(db.clientes, CorreoOTelefono(correoNormalizado, r.telefono));
    if existente.None? {
      db.clientes := db.clientes + [ClienteNuevo(r, hash, oid, clienteId, ahora)];
      return 201, clienteId;
    }
    var i := existente.value;
    if TieneClave(db.clientes[i]) {
      return 409, idCliente;
    }
    idCliente := db.clientes[i].clienteId;
    db.clientes := db.clientes[i := CompletarCuenta(db.clientes[i], r, hash)];
    status := 200;
  }

  /** Registration keeps the appointment mirror intact: no client loses its id or its entries. */
  lemma RegistrarPreservaCoherencia(cs: seq<Cliente>, citas: map<string, Cita>, r: Registro,
                                    hash: string -> string, oid: string, clienteId: string, ahora: int)
    requires Coherente(cs, citas) && clienteId != ""
    ensures Coherente(cs + [ClienteNuevo(r, hash, oid, clienteId, ahora)], citas)
    ensures forall i | 0 <= i < |cs| :: Coherente(cs[i := CompletarCuenta(cs[i], r, hash)], citas)
  {
    var cs1 := cs + [ClienteNuevo(r, hash, oid, clienteId, ahora)];
    forall k | k in citas ensures Reflejada(cs1, citas[k]) {
      ReflejadaEstable(cs, cs1, citas[k]);
    }
    forall i | 0 <= i < |cs| ensures Coherente(cs[i := CompletarCuenta(cs[i], r, hash)], citas) {
      CompletarPreservaCoherencia(cs, citas, r, hash, i);
    }
  }

  /** Completing the account of an existing client keeps the store coherent. */
  lemma CompletarPreservaCoherencia(cs: seq<Cliente>, citas: map<string, Cita>, r: Registro, hash: string -> string, i: nat)
    requires Coherente(cs, citas) && i < |cs|
    ensures Coherente(cs[i := CompletarCuenta(cs[i], r, hash)], citas)
  {
    var cs2 := cs[i := CompletarCuenta(cs[i], r, hash)];
    assert forall j | 0 <= j < |cs| :: cs2[j].clienteId == cs[j].clienteId && cs2[j].citas == cs[j].citas;
    CoherenteEstable(cs, cs2, citas);
  }

  // ---------------------------------------------------------------------------------------
  // Login.

  /** What a successful login returns. */
  datatype Sesion = Sesion(clienteId: string, nombre: string, correo: Option<string>, telefono: string, rol: string)

  datatype Acceso = Acceso(status: int, sesion: Option<Sesion>)

  predicate EsParAdmin(correo: string, password: string) {
    correo == ADMIN_CORREO && password == ADMIN_PASSWORD
  }

  /**
   * The response of the admin bypass: the data of the first stored client with the admin address
   * if there is one, else fixed data; either way the admin address and rol "admin".
   */
  function SesionAdmin(cs: seq<Cliente>): (s: Sesion)
    ensures s.rol == ROL_ADMIN && s.correo == Some(ADMIN_CORREO)
    ensures (forall i | 0 <= i < |cs| :: cs[i].correo != Some(ADMIN_CORREO)) ==>
              s == Sesion("admin001", "Administrador", Some(ADMIN_CORREO), "0000000000", ROL_ADMIN)
    ensures forall i | 0 <= i < |cs| && cs[i].correo == Some(ADMIN_CORREO)
                       && (forall k | 0 <= k < i :: cs[k].correo != Some(ADMIN_CORREO)) ::
              s.clienteId == cs[i].clienteId && s.nombre == cs[i].nombre && s.telefono == cs[i].telefono
  {
    match PrimeroQue(cs, PorCorreo(ADMIN_CORREO))
    case None => Sesion("admin001", "Administrador", Some(ADMIN_CORREO), "0000000000", ROL_ADMIN)
    case Some(i) => Sesion(cs[i].clienteId, cs[i].nombre, cs[i].correo, cs[i].telefono, ROL_ADMIN)
  }

  /** `cliente.rol || "cliente"`. */
  function RolDe(c: Cliente): (r: string)
    ensures r != ""
    ensures c.rol.Some? && c.rol.value != "" ==> r == c.rol.value
  {
    if c.rol.Some? && c.rol.value != "" then c.rol.value else ROL_CLIENTE
  }

  /**
   * The ladder after the admin bypass, looking the client up by `clave`: not found is 404,
   * `activo === false` is 403, no password or a wrong one is 401, and anything else logs in.
   */
  function Escalera(cs: seq<Cliente>, clave: string, password: string, compara: (string, string) -> bool): (r: Acceso)
    ensures r.sesion.Some? <==> r.status == 200
    ensures r.status == 404 <==> PrimeroQue(cs, PorCorreo(clave)).None?
    ensures r.status == 403 <==> exists i | i == PrimeroQue(cs, PorCorreo(clave)).GetOr(|cs|) && i < |cs| ::
                                   cs[i].activo == Some(false)
    ensures r.status == 401 <==> exists i | i == PrimeroQue(cs, PorCorreo(clave)).GetOr(|cs|) && i < |cs| ::
                                   cs[i].activo != Some(false)
                                   && (!TieneClave(cs[i]) || !compara(password, cs[i].passwordHash.value))
    ensures r.status == 200 ==>
              var i := PrimeroQue(cs, PorCorreo(clave)).value;
              cs[i].correo == Some(clave) && cs[i].activo != Some(false) && TieneClave(cs[i])
              && compara(password, cs[i].passwordHash.value)
              && r.sesion.value == Sesion(cs[i].clienteId, cs[i].nombre, cs[i].correo, cs[i].telefono, RolDe(cs[i]))
    ensures r.status in {200, 401, 403, 404}
  {
    match PrimeroQue(cs, PorCorreo(clave))
    case None => Acceso(404, None)
    case Some(i) =>
      var c := cs[i];
      if c.activo == Some(false) then Acceso(403, None)
      else if !TieneClave(c) then Acceso(401, None)
      else if !compara(password, c.passwordHash.value) then Acceso(401, None)
      else Acceso(200, Some(Sesion(c.clienteId, c.nombre, c.correo, c.telefono, RolDe(c))))
  }

  /**
   * `POST /api/clientes/login` (loginCliente), read-only: missing fields are 400; the admin pair
   * logs in as "admin" before any other check; everyone else goes through the ladder with the
   * address exactly as sent.
   */
  function LoginCliente(cs: seq<Cliente>, correo: string, password: string, compara: (string, string) -> bool): (r: Acceso)
    ensures r.status == 400 <==> correo == "" || password == ""
    ensures r.sesion.Some? <==> r.status == 200
    ensures correo != "" && password != "" && EsParAdmin(correo, password) ==>
              r == Acceso(200, Some(SesionAdmin(cs)))
    ensures correo != "" && password != "" && !EsParAdmin(correo, password) ==>
              r == Escalera(cs, correo, password, compara)
  {
    if correo == "" || password == "" then Acceso(400, None)
    else if EsParAdmin(correo, password) then Acceso(200, Some(SesionAdmin(cs)))
    else Escalera(cs, correo, password, compara)
  }

  /**
   * The admin pair always logs in as admin, before any `activo` or password check: even a stored
   * admin account that is inactive or has no password gets in, with its own clienteId.
   */
  lemma AdminEntraSiempre(cs: seq<Cliente>, compara: (string, string) -> bool, i: nat)
    requires i < |cs| && cs[i].correo == Some(ADMIN_CORREO)
    requires forall k | 0 <= k < i :: cs[k].correo != Some(ADMIN_CORREO)
    ensures var r := LoginCliente(cs, ADMIN_CORREO, ADMIN_PASSWORD, compara);
            r.status == 200 && r.sesion.value.rol == ROL_ADMIN && r.sesion.value.clienteId == cs[i].clienteId
  {
    assert EsParAdmin(ADMIN_CORREO, ADMIN_PASSWORD);
  }

  /** The same ladder looking the client up by the address as registration stores it. */
  function LoginClienteCorregido(cs: seq<Cliente>, correo: string, password: string, compara: (string, string) -> bool): (r: Acceso)
    ensures r.status == 400 <==> correo == "" || password == ""
    ensures correo != "" && password != "" && EsParAdmin(correo, password) ==>
              r == LoginCliente(cs, correo, password, compara)
    ensures correo != "" && password != "" && !EsParAdmin(correo, password) ==>
              r == Escalera(cs, NormalizarCorreo(correo), password, compara)
  {
    if correo == "" || password == "" then Acceso(400, None)
    else if EsParAdmin(correo, password) then Acceso(200, Some(SesionAdmin(cs)))
    else Escalera(cs, NormalizarCorreo(correo), password, compara)
  }

  /**
   * As written, a new client that registers with an address that normalisation changes cannot
   * log in with that same address: the lookup uses the raw text and finds nobody.
   */
  lemma LoginTrasRegistroFalla(cs: seq<Cliente>, r: Registro, hash: string -> string, oid: string, clienteId: string,
                               ahora: int, compara: (string, string) -> bool)
    requires RegistroCompleto(r) && !EsParAdmin(r.correo, r.password)
    requires NormalizarCorreo(r.correo) != r.correo
    requires forall i | 0 <= i < |cs| :: cs[i].correo != Some(r.correo)
    ensures LoginCliente(cs + [ClienteNuevo(r, hash, oid, clienteId, ahora)], r.correo, r.password, compara).status == 404
  {
    var cs1 := cs + [ClienteNuevo(r, hash, oid, clienteId, ahora)];
    assert forall i | 0 <= i < |cs1| :: !PorCorreo(r.correo)(cs1[i]) by {
      forall i | 0 <= i < |cs1| ensures !PorCorreo(r.correo)(cs1[i]) {
        if i < |cs| {
          assert cs1[i] == cs[i];
        }
      }
    }
  }

  lemma AnaSeNormaliza()
    ensures NormalizarCorreo("Ana@correo.com") != "Ana@correo.com"
  {
    var correo := "Ana@correo.com";
    TrimSinBordes(correo);
    assert Minusculas(Trim(correo))[0] == MinusculaChar('A') == 'a';
  }

  /** A concrete instance: "Ana@correo.com" is stored as "ana@correo.com" and the login finds nobody. */
  lemma LoginTrasRegistroFallaEjemplo(hash: string -> string, compara: (string, string) -> bool)
    ensures var r := Registro("Ana", "Ana@correo.com", "5551234", "clave");
            LoginCliente([ClienteNuevo(r, hash, "o1", "c1", 0)], r.correo, r.password, compara).status == 404
  {
    var r := Registro("Ana", "Ana@correo.com", "5551234", "clave");
    var nuevo := ClienteNuevo(r, hash, "o1", "c1", 0);
    AnaSeNormaliza();
    LoginTrasRegistroFalla([], r, hash, "o1", "c1", 0, compara);
    assert [] + [nuevo] == [nuevo];
  }

  /**
   * With the lookup on the normalised address, a client that has just registered logs in with
   * the address and password it registered with, whenever bcrypt accepts its own hash.
   */
  lemma LoginCorregidoTrasRegistro(cs: seq<Cliente>, r: Registro, hash: string -> string, oid: string, clienteId: string,
                                   ahora: int, compara: (string, string) -> bool)
    requires RegistroCompleto(r) && !EsParAdmin(r.correo, r.password)
    requires PrimeroQue(cs, CorreoOTelefono(NormalizarCorreo(r.correo), r.telefono)).None?
    requires compara(r.password, hash(r.password)) && hash(r.password) != ""
    ensures var acceso := LoginClienteCorregido(cs + [ClienteNuevo(r, hash, oid, clienteId, ahora)], r.correo, r.password, compara);
            acceso.status == 200 && acceso.sesion.value.clienteId == clienteId && acceso.sesion.value.rol == ROL_CLIENTE
  {
    var cs1 := cs + [ClienteNuevo(r, hash, oid, clienteId, ahora)];
    var n := NormalizarCorreo(r.correo);
    forall j | 0 <= j < |cs| ensures !PorCorreo(n)(cs1[j]) {
      assert cs1[j] == cs[j];
      assert !CorreoOTelefono(n, r.telefono)(cs[j]);
    }
    PrimeroQueEs(cs1, PorCorreo(n), |cs|);
  }

  // ---------------------------------------------------------------------------------------
  // Listing, update, status, delete.

  function ClaveRegistroDescendente(c: Cliente): int {
    -c.fechaRegistro
  }

  /** `GET /api/clientes` (listarClientes): every client, newest registration first. */
  function ListarClientes(cs: seq<Cliente>): (r: seq<Cliente>)
    ensures multiset(r) == multiset(cs)
    ensures forall i, j | 0 <= i < j < |r| :: r[i].fechaRegistro >= r[j].fechaRegistro
  {
    var r := Ordenar(cs, ClaveRegistroDescendente);
    assert forall i, j | 0 <= i < j < |r| :: ClaveRegistroDescendente(r[i]) <= ClaveRegistroDescendente(r[j]);
    r
  }

  /** The `$set` of `actualizarCliente`: a new hash only for a password that is not blank. */
  function ActualizarDatos(c: Cliente, nombre: string, correo: string, telefono: string, password: string,
                           hash: string -> string): (c': Cliente)
    ensures c'.nombre == nombre && c'.correo == Some(NormalizarCorreo(correo)) && c'.telefono == telefono
    ensures c'.passwordHash == if Trim(password) != "" then Some(hash(Trim(password))) else c.passwordHash
    ensures c'.oid == c.oid && c'.clienteId == c.clienteId && c'.citas == c.citas && c'.fechaRegistro == c.fechaRegistro
    ensures c'.activo == c.activo && c'.estado == c.estado && c'.rol == c.rol
  {
    var c1 := c.(nombre := nombre, correo := Some(NormalizarCorreo(correo)), telefono := telefono);
    if password != "" && Trim(password) != "" then c1.(passwordHash := Some(hash(Trim(password)))) else c1
  }

  /** `updateOne({ _id }, { $set })`: the first client with that `_id`, if any. */
  function ActualizarPorOid(cs: seq<Cliente>, id: string, f: Cliente -> Cliente): (r: seq<Cliente>)
    ensures |r| == |cs|
    ensures forall i | 0 <= i < |cs| :: r[i] == if PrimeroCon(cs, OidDe, id) == Some(i) then f(cs[i]) else cs[i]
  {
    match PrimeroCon(cs, OidDe, id)
    case None => cs
    case Some(i) => cs[i := f(cs[i])]
  }

  function ActualizacionDe(nombre: string, correo: string, telefono: string, password: string,
                           hash: string -> string): Cliente -> Cliente {
    (c: Cliente) => ActualizarDatos(c, nombre, correo, telefono, password, hash)
  }

  /** `PUT /api/clientes/:id` (actualizarCliente); an `_id` nobody has is still answered 200. */
  method ActualizarCliente(db: Db, id: string, idValido: bool, nombre: string, correo: string, telefono: string,
                           password: string, hash: string -> string) returns (status: int)
    modifies db`clientes
    ensures !idValido ==> status == 400 && unchanged(db)
    ensures idValido && (nombre == "" || correo == "" || telefono == "") ==> status == 400 && unchanged(db)
    ensures idValido && nombre != "" && correo != "" && telefono != "" ==>
              status == 200
              && db.clientes == ActualizarPorOid(old(db.clientes), id, ActualizacionDe(nombre, correo, telefono, password, hash))
  {
    if !idValido {
      return 400;
    }
    if nombre == "" || correo == "" || telefono == "" {
      return 400;
    }
    db.clientes := ActualizarPorOid(db.clientes, id, ActualizacionDe(nombre, correo, telefono, password, hash));
    return 200;
  }

  /** Any change that keeps `clienteId` and `citas` keeps the appointment mirror intact. */
  lemma ActualizarPorOidPreservaCoherencia(cs: seq<Cliente>, citas: map<string, Cita>, id: string, f: Cliente -> Cliente)
    requires Coherente(cs, citas)
    requires forall c :: f(c).clienteId == c.clienteId && f(c).citas == c.citas
    ensures Coherente(ActualizarPorOid(cs, id, f), citas)
  {
    var cs' := ActualizarPorOid(cs, id, f);
    assert forall j | 0 <= j < |cs| :: cs'[j].clienteId == cs[j].clienteId && cs'[j].citas == cs[j].citas;
    CoherenteEstable(cs, cs', citas);
  }

  /** The estado text `cambiarEstadoCliente` writes beside `activo`. */
  function EstadoDe(activo: bool): (r: string)
    ensures r == "Activo" || r == "Inactivo"
    ensures (r == "Activo") <==> activo
  {
    if activo then "Activo" else "Inactivo"
  }

  function EstadoCambiado(activo: bool): Cliente -> Cliente {
    (c: Cliente) => c.(activo := Some(activo), estado := Some(EstadoDe(activo)))
  }

  /** `PATCH /api/clientes/:id/estado` (cambiarEstadoCliente); `activo` is `None` when it is not a boolean. */
  method CambiarEstadoCliente(db: Db, id: string, idValido: bool, activo: Option<bool>) returns (status: int)
    modifies db`clientes
    ensures !idValido || activo.None? ==> status == 400 && unchanged(db)
    ensures idValido && activo.Some? && PrimeroCon(old(db.clientes), OidDe, id).None? ==> status == 404 && unchanged(db)
    ensures idValido && activo.Some? && PrimeroCon(old(db.clientes), OidDe, id).Some? ==>
              status == 200 && db.clientes == ActualizarPorOid(old(db.clientes), id, EstadoCambiado(activo.value))
  {
    if !idValido || activo.None? {
      return 400;
    }
    if PrimeroCon(db.clientes, OidDe, id).None? {
      return 404;
    }
    db.clientes := ActualizarPorOid(db.clientes, id, EstadoCambiado(activo.value));
    return 200;
  }

  /**
   * After the switch the two fields agree, setting the same value twice is setting it once, and
   * a client switched off is refused at login with 403 whatever password it sends.
   */
  lemma CambiarEstadoEfecto(cs: seq<Cliente>, id: string, activo: bool, password: string,
                            compara: (string, string) -> bool)
    requires PrimeroCon(cs, OidDe, id).Some?
    ensures var i := PrimeroCon(cs, OidDe, id).value;
            var cs' := ActualizarPorOid(cs, id, EstadoCambiado(activo));
            cs'[i].activo == Some(activo) && (cs'[i].estado == Some("Activo") <==> activo)
            && ActualizarPorOid(cs', id, EstadoCambiado(activo)) == cs'
            && (!activo && cs[i].correo.Some? && PrimeroQue(cs, PorCorreo(cs[i].correo.value)) == Some(i) ==>
                  Escalera(cs', cs[i].correo.value, password, compara).status == 403)
  {
    var i := PrimeroCon(cs, OidDe, id).value;
    var cs' := ActualizarPorOid(cs, id, EstadoCambiado(activo));
    PrimeroConEs(cs', OidDe, id, i);
    assert cs'[i := EstadoCambiado(activo)(cs'[i])] == cs';
    if !activo && cs[i].correo.Some? && PrimeroQue(cs, PorCorreo(cs[i].correo.value)) == Some(i) {
      var correo := cs[i].correo.value;
      forall j | 0 <= j < i ensures !PorCorreo(correo)(cs'[j]) {
        assert cs'[j] == cs[j];
      }
      PrimeroQueEs(cs', PorCorreo(correo), i);
    }
  }

  /** `deleteMany({ clienteId })` on the global appointments. */
  function SinCliente(citas: map<string, Cita>, clienteId: string): (r: map<string, Cita>)
    ensures forall k :: k in r <==> k in citas && citas[k].clienteId != clienteId
    ensures forall k | k in r :: r[k] == citas[k]
  {
    map k | k in citas && citas[k].clienteId != clienteId :: citas[k]
  }

  /** `DELETE /api/clientes/:id` (eliminarCliente). */
  method EliminarCliente(db: Db, id: string, idValido: bool) returns (status: int)
    modifies db`clientes, db`citas
    ensures !idValido ==> status == 400 && unchanged(db)
    ensures idValido && PrimeroCon(old(db.clientes), OidDe, id).None? ==> status == 404 && unchanged(db)
    ensures idValido && PrimeroCon(old(db.clientes), OidDe, id).Some? ==>
              var i := PrimeroCon(old(db.clientes), OidDe, id).value;
              var cid := old(db.clientes)[i].clienteId;
              status == 200
              && db.clientes == old(db.clientes)[..i] + old(db.clientes)[i + 1..]
              && db.citas == if cid != "" then SinCliente(old(db.citas), cid) else old(db.citas)
  {
    if !idValido {
      return 400;
    }
    var encontrado := PrimeroCon(db.clientes, OidDe, id);
    if encontrado.None? {
      return 404;
    }
    var i := encontrado.value;
    var cliente := db.clientes[i];
    db.clientes := db.clientes[..i] + db.clientes[i + 1..];
    if cliente.clienteId != "" {
      db.citas := SinCliente(db.citas, cliente.clienteId);
    }
    return 200;
  }

  /**
   * The cascade keeps the appointment mirror intact: every record that survives belongs to a
   * client that is still there, and none belongs to the deleted client.
   */
  lemma EliminarClientePreservaCoherencia(cs: seq<Cliente>, citas: map<string, Cita>, i: nat)
    requires Coherente(cs, citas) && i < |cs|
    ensures Coherente(cs[..i] + cs[i + 1..], SinCliente(citas, cs[i].clienteId))
    ensures forall k | k in SinCliente(citas, cs[i].clienteId) :: SinCliente(citas, cs[i].clienteId)[k].clienteId != cs[i].clienteId
  {
    var resto := SinCliente(citas, cs[i].clienteId);
    var cs' := cs[..i] + cs[i + 1..];
    forall k | k in resto ensures Reflejada(cs', resto[k]) {
      ReflejadaTrasQuitarCliente(cs, i, citas[k]);
    }
    forall j | 0 <= j < |cs'| ensures cs'[j].clienteId != "" {
      if j < i {
        assert cs'[j] == cs[j];
      } else {
        assert cs'[j] == cs[j + 1];
      }
    }
  }
}
