/**
 * The admin's client directory `AdminClientesPage.jsx`: the rows it derives from the records of
 * `/api/clientes` (account state and client type), its state filter and search, the checks and the
 * body of an edit, and the optimistic state toggle and delete with their roll-back when the server
 * does not answer OK.
 */
module AdminClientes {
  import opened Wrappers
  import opened Listas
  import opened Texto
  import opened Validacion
  import Clientes
  import AdminDashboard

  type Id = AdminDashboard.Id

  /**
   * A record of `/api/clientes` as the page keeps it; `""` for a missing or falsy text, `None` for a
   * `totalCitas` that is not a number and for a missing `activo`. `id` is the `id` field the page
   * also matches on when `_id` is missing.
   */
  datatype ClienteCrudo = ClienteCrudo(
    oid: string, id: string, nombre: string, correo: string, telefono: string, totalCitas: Option<int>,
    estado: string, activo: Option<bool>, tipo: string)

  /** A row of `clientesFiltrados`; the last-visit text is not part of this model. */
  datatype FilaCliente = FilaCliente(
    id: Id, nombre: string, correo: string, telefono: string, totalCitas: int, estado: string, tipo: string)

  /** `c.estado || (c.activo === false ? "Inactivo" : "Activo")`. */
  function EstadoCuenta(c: ClienteCrudo): (r: string)
    ensures r != ""
    ensures c.estado != "" ==> r == c.estado
    ensures c.estado == "" ==> (r == "Inactivo" <==> c.activo == Some(false))
    ensures c.estado == "" ==> (r == "Activo" <==> c.activo != Some(false))
  {
    if c.estado != "" then c.estado else if c.activo == Some(false) then "Inactivo" else "Activo"
  }

  /**
   * The row of the record at position `idx`: the texts defaulted, `totalCitas` 0 unless it is a
   * number, the account state, and the type: the stored one, or else "Inactivo" for an inactive
   * account, "Frecuente" from five appointments on, and "Nuevo" otherwise.
   */
  function NormalizarCliente(c: ClienteCrudo, idx: nat): (f: FilaCliente)
    ensures f.id == if c.oid != "" then AdminDashboard.PorTexto(c.oid) else AdminDashboard.PorIndice(idx)
    ensures f.nombre == (if c.nombre != "" then c.nombre else "Cliente sin nombre")
    ensures f.correo == (if c.correo != "" then c.correo else "Sin correo")
    ensures f.telefono == (if c.telefono != "" then c.telefono else "Sin teléfono")
    ensures f.totalCitas == c.totalCitas.GetOr(0)
    ensures f.estado == EstadoCuenta(c)
    ensures c.tipo != "" ==> f.tipo == c.tipo
    ensures c.tipo == "" ==> (f.tipo == "Inactivo" <==> f.estado == "Inactivo")
    ensures c.tipo == "" ==> (f.tipo == "Frecuente" <==> f.estado != "Inactivo" && f.totalCitas >= 5)
    ensures c.tipo == "" ==> (f.tipo == "Nuevo" <==> f.estado != "Inactivo" && f.totalCitas < 5)
  {
    var totalCitas := c.totalCitas.GetOr(0);
    var estadoCuenta := EstadoCuenta(c);
    var tipo := if c.tipo != "" then c.tipo
                else if estadoCuenta == "Inactivo" then "Inactivo"
                else if totalCitas >= 5 then "Frecuente"
                else "Nuevo";
    FilaCliente(
      if c.oid != "" then AdminDashboard.PorTexto(c.oid) else AdminDashboard.PorIndice(idx),
      if c.nombre != "" then c.nombre else "Cliente sin nombre",
      if c.correo != "" then c.correo else "Sin correo",
      if c.telefono != "" then c.telefono else "Sin teléfono",
      totalCitas, estadoCuenta, tipo)
  }

  /** `clientes.map((c, idx) => …)`. */
  function FilasClientes(cs: seq<ClienteCrudo>): (r: seq<FilaCliente>)
    ensures |r| == |cs| && forall i | 0 <= i < |cs| :: r[i] == NormalizarCliente(cs[i], i)
  {
    seq(|cs|, i requires 0 <= i < |cs| => NormalizarCliente(cs[i], i))
  }

  /** The state filter: "Activos" and "Inactivos" compare the account state exactly; anything else keeps all. */
  function PorTipo(filtroTipo: string): FilaCliente -> bool {
    (f: FilaCliente) =>
      if filtroTipo == "Activos" then f.estado == "Activo"
      else if filtroTipo == "Inactivos" then f.estado == "Inactivo"
      else true
  }

  /** The search: the lower-cased query, not trimmed, in the lower-cased name, e-mail or phone. */
  function PorBusqueda(busqueda: string): FilaCliente -> bool {
    (f: FilaCliente) =>
      EsBlanco(busqueda)
      || Incluye(Minusculas(f.nombre), Minusculas(busqueda))
      || Incluye(Minusculas(f.correo), Minusculas(busqueda))
      || Incluye(Minusculas(f.telefono), Minusculas(busqueda))
  }

  /** `clientesFiltrados`. */
  function ClientesFiltrados(cs: seq<ClienteCrudo>, busqueda: string, filtroTipo: string): seq<FilaCliente> {
    var normalizados := FilasClientes(cs);
    var normalizados := if filtroTipo == "Activos" || filtroTipo == "Inactivos"
                        then Filtrar(normalizados, PorTipo(filtroTipo)) else normalizados;
    if !EsBlanco(busqueda) then Filtrar(normalizados, PorBusqueda(busqueda)) else normalizados
  }

  /** The list shown is a subsequence of the rows, and holds a row exactly when it passes both filters. */
  lemma FiltradosSonLosQuePasan(cs: seq<ClienteCrudo>, busqueda: string, filtroTipo: string)
    ensures var r := ClientesFiltrados(cs, busqueda, filtroTipo);
            EsSubsecuencia(r, FilasClientes(cs))
            && forall f :: f in r <==> f in FilasClientes(cs) && PorTipo(filtroTipo)(f) && PorBusqueda(busqueda)(f)
  {
    var filas := FilasClientes(cs);
    var r1 := if filtroTipo == "Activos" || filtroTipo == "Inactivos" then Filtrar(filas, PorTipo(filtroTipo)) else filas;
    var r2 := if !EsBlanco(busqueda) then Filtrar(r1, PorBusqueda(busqueda)) else r1;
    assert r2 == ClientesFiltrados(cs, busqueda, filtroTipo);
    SubsecuenciaReflexiva(filas);
    SubsecuenciaReflexiva(r1);
    SubsecuenciaTransitiva(r2, r1, filas);
    FiltrarMiembros(filas, PorTipo(filtroTipo));
    FiltrarMiembros(r1, PorBusqueda(busqueda));
  }

  /** The search ignores case: the upper-cased query keeps exactly the same rows. */
  lemma BusquedaIgnoraMayusculas(busqueda: string, f: FilaCliente)
    ensures PorBusqueda(Mayusculas(busqueda))(f) == PorBusqueda(busqueda)(f)
  {
    BlancoSinMayusculas(busqueda);
    MinusculasDeMayusculas(busqueda);
  }

  /** `(c._id || c.id) === id`: a row id built from a position never matches a record. */
  predicate Coincide(id: Id, c: ClienteCrudo) {
    id.PorTexto? && (if c.oid != "" then c.oid else c.id) == id.texto
  }

  /** `prev.map((c) => (c._id || c.id) === id ? cambio(c) : c)`. */
  function ActualizarDe(cs: seq<ClienteCrudo>, id: Id, cambio: ClienteCrudo -> ClienteCrudo): (r: seq<ClienteCrudo>)
    ensures |r| == |cs|
    ensures forall i | 0 <= i < |cs| && Coincide(id, cs[i]) :: r[i] == cambio(cs[i])
    ensures forall i | 0 <= i < |cs| && !Coincide(id, cs[i]) :: r[i] == cs[i]
  {
    seq(|cs|, i requires 0 <= i < |cs| => if Coincide(id, cs[i]) then cambio(cs[i]) else cs[i])
  }

  /** The fields of the modal, and whether a client is being edited at all. */
  datatype Edicion = Edicion(id: Id, nombre: string, telefono: string, correo: string, password: string)

  datatype ErrorEdicion = Obligatorios | TelefonoSinNumeros | CorreoNoValido | NoGuardado

  /** The body of `PUT /api/clientes/:id`; `password` only when one was typed. */
  datatype CuerpoCliente = CuerpoCliente(nombre: string, telefono: string, correo: string, password: Option<string>)

  /**
   * The checks of `handleGuardarEdicion`, in order: the three fields must be non-blank, the phone
   * must keep a digit once reduced to its digits, the trimmed e-mail must match the pattern. The
   * body then carries the trimmed name, the digits of the phone, the trimmed e-mail and, when it
   * is not blank, the trimmed password.
   */
  function ValidarEdicion(e: Edicion): (r: Result<CuerpoCliente, ErrorEdicion>)
    ensures r == Failure(Obligatorios) <==> EsBlanco(e.nombre) || EsBlanco(e.telefono) || EsBlanco(e.correo)
    ensures r == Failure(TelefonoSinNumeros) <==>
              !EsBlanco(e.nombre) && !EsBlanco(e.telefono) && !EsBlanco(e.correo) && SoloDigitos(e.telefono) == ""
    ensures r == Failure(CorreoNoValido) <==>
              !EsBlanco(e.nombre) && !EsBlanco(e.telefono) && !EsBlanco(e.correo) && SoloDigitos(e.telefono) != ""
              && !EsCorreoValido(Trim(e.correo))
    ensures r.Failure? ==> r.error != NoGuardado
    ensures r.Success? ==>
              r.value.nombre == Trim(e.nombre) && r.value.telefono == SoloDigitos(e.telefono)
              && r.value.correo == Trim(e.correo)
              && (r.value.password.Some? <==> !EsBlanco(e.password))
              && (r.value.password.Some? ==> r.value.password.value == Trim(e.password))
  {
    if EsBlanco(e.nombre) || EsBlanco(e.telefono) || EsBlanco(e.correo) then Failure(Obligatorios)
    else
      var telefonoSoloNumeros := SoloDigitos(e.telefono);
      if |telefonoSoloNumeros| == 0 then Failure(TelefonoSinNumeros)
      else
        var correoLimpio := Trim(e.correo);
        if !EsCorreoValido(correoLimpio) then Failure(CorreoNoValido)
        else
          Success(CuerpoCliente(Trim(e.nombre), telefonoSoloNumeros, correoLimpio,
                                if e.password != "" && !EsBlanco(e.password) then Some(Trim(e.password)) else None))
  }

  /**
   * A body the page sends is never refused by `actualizarCliente` for a missing field, its phone
   * is digits only, its e-mail is `a@b.c`, and a password in it is non-blank, so the stored hash
   * changes exactly when the admin typed one.
   */
  lemma CuerpoAceptadoPorServidor(e: Edicion)
    requires ValidarEdicion(e).Success?
    ensures var b := ValidarEdicion(e).value;
            b.nombre != "" && b.telefono != "" && b.correo != ""
            && SoloDigitos(b.telefono) == b.telefono && CoincideCorreo(b.correo)
            && (b.password.Some? ==> !EsBlanco(b.password.value))
  {
    var b := ValidarEdicion(e).value;
    SoloDigitosIdempotente(e.telefono);
    CorreoValidoSiCoincide(b.correo);
    if b.password.Some? {
      TrimIdempotente(e.password);
    }
  }

  /** What the page writes into its copy after a saved edit. */
  function ConDatos(b: CuerpoCliente): ClienteCrudo -> ClienteCrudo {
    (c: ClienteCrudo) => c.(nombre := b.nombre, telefono := b.telefono, correo := b.correo)
  }

  /** The outcome of a page action: the request sent, the error shown, and the page's new copy. */
  datatype Salida<P> = Salida(peticion: Option<P>, error: Option<ErrorEdicion>, clientes: seq<ClienteCrudo>)

  /**
   * `handleGuardarEdicion`; `ok` is whether the server answered OK. Nothing is sent without an
   * open edit or when a check fails; after a saved edit the records of that id carry the new
   * name, phone and e-mail, and a failed request leaves the copy as it was.
   */
  function GuardarEdicion(edicion: Option<Edicion>, ok: bool, cs: seq<ClienteCrudo>): (r: Salida<(Id, CuerpoCliente)>)
    ensures edicion.None? ==> r == Salida(None, None, cs)
    ensures edicion.Some? && ValidarEdicion(edicion.value).Failure? ==>
              r == Salida(None, Some(ValidarEdicion(edicion.value).error), cs)
    ensures edicion.Some? && ValidarEdicion(edicion.value).Success? ==>
              var b := ValidarEdicion(edicion.value).value;
              r.peticion == Some((edicion.value.id, b))
              && (ok ==> r.error.None? && r.clientes == ActualizarDe(cs, edicion.value.id, ConDatos(b)))
              && (!ok ==> r.error == Some(NoGuardado) && r.clientes == cs)
  {
    if edicion.None? then Salida(None, None, cs)
    else
      var e := edicion.value;
      match ValidarEdicion(e)
      case Failure(err) => Salida(None, Some(err), cs)
      case Success(b) =>
        if ok then Salida(Some((e.id, b)), None, ActualizarDe(cs, e.id, ConDatos(b)))
        else Salida(Some((e.id, b)), Some(NoGuardado), cs)
  }

  /** After a saved edit, the rows of that id show exactly the data that was sent; no other record changes. */
  lemma EdicionSeMuestra(e: Edicion, cs: seq<ClienteCrudo>, i: nat)
    requires ValidarEdicion(e).Success? && i < |cs|
    ensures var b := ValidarEdicion(e).value;
            var r := GuardarEdicion(Some(e), true, cs).clientes;
            (Coincide(e.id, cs[i]) ==>
               NormalizarCliente(r[i], i).nombre == b.nombre && NormalizarCliente(r[i], i).telefono == b.telefono
               && NormalizarCliente(r[i], i).correo == b.correo)
            && (!Coincide(e.id, cs[i]) ==> r[i] == cs[i])
  {
    CuerpoAceptadoPorServidor(e);
  }

  /** The state a toggle moves to: "Activo" becomes "Inactivo", anything else becomes "Activo". */
  function EstadoAlternado(estadoAnterior: string): (r: string)
    ensures r == "Activo" || r == "Inactivo"
    ensures r == "Inactivo" <==> estadoAnterior == "Activo"
  {
    if estadoAnterior == "Activo" then "Inactivo" else "Activo"
  }

  /** `{ ...c, estado, activo: estado === "Activo" }`. */
  function ConEstado(estado: string): ClienteCrudo -> ClienteCrudo {
    (c: ClienteCrudo) => c.(estado := estado, activo := Some(estado == "Activo"))
  }

  /**
   * `handleToggleEstado(fila)`: the copy is updated at once to the toggled state, the request
   * sends `activo` as a boolean, and when the server does not answer OK the records of that id
   * are set back to the row's previous state.
   */
  function ToggleEstado(fila: FilaCliente, ok: bool, cs: seq<ClienteCrudo>): (r: (Id, bool, seq<ClienteCrudo>))
    ensures var estadoAnterior := if fila.estado != "" then fila.estado else "Activo";
            var nuevoEstado := EstadoAlternado(estadoAnterior);
            r.0 == fila.id && (r.1 <==> nuevoEstado == "Activo")
            && |r.2| == |cs|
            && (forall i | 0 <= i < |cs| && !Coincide(fila.id, cs[i]) :: r.2[i] == cs[i])
            && (forall i | 0 <= i < |cs| && Coincide(fila.id, cs[i]) ::
                  r.2[i] == ConEstado(if ok then nuevoEstado else estadoAnterior)(cs[i]))
  {
    var estadoAnterior := if fila.estado != "" then fila.estado else "Activo";
    var nuevoEstado := EstadoAlternado(estadoAnterior);
    var optimista := ActualizarDe(cs, fila.id, ConEstado(nuevoEstado));
    var final := if ok then optimista else ActualizarDe(optimista, fila.id, ConEstado(estadoAnterior));
    (fila.id, nuevoEstado == "Activo", final)
  }

  /**
   * A successful toggle flips the shown state between "Activo" and "Inactivo" for the toggled
   * record, and the server stores the same state text the page shows.
   */
  lemma ToggleCambiaElEstado(cs: seq<ClienteCrudo>, i: nat)
    requires i < |cs| && cs[i].oid != ""
    ensures var fila := NormalizarCliente(cs[i], i);
            var r := ToggleEstado(fila, true, cs);
            (fila.estado == "Activo" ==> NormalizarCliente(r.2[i], i).estado == "Inactivo")
            && (fila.estado == "Inactivo" ==> NormalizarCliente(r.2[i], i).estado == "Activo")
            && Clientes.EstadoDe(r.1) == NormalizarCliente(r.2[i], i).estado
  {
  }

  /** A failed toggle leaves the row of the toggled record exactly as it was shown before. */
  lemma ToggleFallidoRestaura(cs: seq<ClienteCrudo>, i: nat)
    requires i < |cs| && cs[i].oid != ""
    ensures var fila := NormalizarCliente(cs[i], i);
            NormalizarCliente(ToggleEstado(fila, false, cs).2[i], i) == fila
  {
  }

  /**
   * `handleEliminarCliente(fila)`: nothing happens unless the admin confirms; the records of that
   * id leave the copy at once, and the previous copy is put back when the server does not answer OK.
   */
  function EliminarCliente(fila: FilaCliente, confirmar: bool, ok: bool, cs: seq<ClienteCrudo>): (r: (Option<Id>, seq<ClienteCrudo>))
    ensures !confirmar ==> r == (None, cs)
    ensures confirmar ==> r.0 == Some(fila.id)
    ensures confirmar && !ok ==> r.1 == cs
    ensures confirmar && ok ==>
              (forall c | c in r.1 :: !Coincide(fila.id, c))
              && (forall c | c in cs && !Coincide(fila.id, c) :: c in r.1)
              && EsSubsecuencia(r.1, cs)
  {
    if !confirmar then (None, cs)
    else
      var clientesPrevios := cs;
      var sinEl := Filtrar(cs, (c: ClienteCrudo) => !Coincide(fila.id, c));
      (Some(fila.id), if ok then sinEl else clientesPrevios)
  }
}
