/**
 * The admin's appointment list `AdminCitasPage.jsx`: the rows it shows for the records of
 * `/api/citas/admin`, its three filters, the request the action modal sends, and the local
 * updates it applies to its copy of the records once the request succeeded.
 *
 * `Date` is abstract: the day of a row is the `FechaHora` the dashboard reads from the same text,
 * and "today", "this week" and "this month" are predicates given as parameters.
 */
module AdminCitas {
  import opened Wrappers
  import opened Listas
  import opened Texto
  import opened Validacion
  import opened Almacen
  import Citas
  import AdminDashboard

  type FechaHora = AdminDashboard.FechaHora

  /** A record of `/api/citas/admin` as the page keeps it; `""` for a missing or falsy field. */
  datatype CitaAdmin = CitaAdmin(
    citaId: string, oid: string, nombreCliente: string, cliente: string, servicio: string, hora: string,
    barbero: string, estado: string, fecha: string, fechaCorta: string)

  /** The JSON of a stored appointment, as the admin listing sends it. */
  function Vista(c: Cita, oid: string): CitaAdmin {
    CitaAdmin(c.citaId, oid, c.nombreCliente, "", c.servicio, c.hora, "", c.estado, c.fecha, "")
  }

  /**
   * The label of a stored state: a missing one is "Pendiente", the three states the backend writes
   * get their label, and any other value is shown exactly as stored (no trimming, no case change).
   */
  function EstadoUI(estado: string): (r: string)
    ensures estado == "" || estado == Citas.ACTIVA ==> r == "Pendiente"
    ensures estado == Citas.CANCELADA ==> r == "Cancelada"
    ensures estado == Citas.FINALIZADA ==> r == "Finalizada"
    ensures estado != "" && estado != Citas.ACTIVA && estado != Citas.CANCELADA && estado != Citas.FINALIZADA ==> r == estado
  {
    var estadoOriginal := if estado == "" then "Pendiente" else estado;
    if estadoOriginal == "activa" then "Pendiente"
    else if estadoOriginal == "cancelada" then "Cancelada"
    else if estadoOriginal == "finalizada" then "Finalizada"
    else estadoOriginal
  }

  /** A label is never empty nor one of the stored forms, and labelling it again changes nothing. */
  lemma EstadoUIIdempotente(estado: string)
    ensures var r := EstadoUI(estado);
            r != "" && r != Citas.ACTIVA && r != Citas.CANCELADA && r != Citas.FINALIZADA && EstadoUI(r) == r
  {
  }

  /** For the three states the backend writes, this page and the dashboard show the same label. */
  lemma MismaEtiquetaQueElPanel(estado: string)
    requires estado == Citas.ACTIVA || estado == Citas.CANCELADA || estado == Citas.FINALIZADA
    ensures EstadoUI(estado) == AdminDashboard.NormalizarEstado(estado)
  {
    if estado == Citas.ACTIVA {
      ActivaLeida();
    } else if estado == Citas.CANCELADA {
      CanceladaLeida();
    } else {
      FinalizadaLeida();
    }
  }

  lemma ActivaLeida()
    ensures Minusculas(Trim(Citas.ACTIVA)) == Citas.ACTIVA
  {
    TrimSinBordes(Citas.ACTIVA);
  }

  lemma CanceladaLeida()
    ensures Minusculas(Trim(Citas.CANCELADA)) == Citas.CANCELADA
  {
    TrimSinBordes(Citas.CANCELADA);
  }

  lemma FinalizadaLeida()
    ensures Minusculas(Trim(Citas.FINALIZADA)) == Citas.FINALIZADA
  {
    TrimSinBordes(Citas.FINALIZADA);
  }

  /** A row of `citasFiltradas` before filtering; the long date text is not part of this model. */
  datatype Fila = Fila(
    id: AdminDashboard.Id, citaIdReal: Option<string>, cliente: string, servicio: string, fechaStr: string,
    fechaDate: Option<FechaHora>, hora: string, barbero: string, estado: string)

  /** The row of the record at position `idx`: each field defaulted, the state labelled. */
  function NormalizarFila(c: CitaAdmin, idx: nat): (f: Fila)
    ensures f.cliente != "" && f.servicio != "" && f.hora != "" && f.barbero != ""
    ensures c.servicio != "" ==> f.servicio == c.servicio
    ensures c.hora != "" ==> f.hora == c.hora
    ensures f.cliente == (if c.nombreCliente != "" then c.nombreCliente else if c.cliente != "" then c.cliente
                          else "Cliente sin nombre")
    ensures f.estado == EstadoUI(c.estado)
    ensures f.fechaStr == (if c.fecha != "" then c.fecha else c.fechaCorta)
    ensures f.fechaDate == AdminDashboard.ParseFechaYYYYMMDD(f.fechaStr)
    ensures f.citaIdReal.Some? <==> c.citaId != ""
    ensures f.citaIdReal.Some? ==> f.citaIdReal.value == c.citaId && f.id == AdminDashboard.PorTexto(c.citaId)
    ensures f.id == (if c.citaId != "" then AdminDashboard.PorTexto(c.citaId)
                     else if c.oid != "" then AdminDashboard.PorTexto(c.oid) else AdminDashboard.PorIndice(idx))
  {
    var fechaStr := if c.fecha != "" then c.fecha else c.fechaCorta;
    Fila(
      if c.citaId != "" then AdminDashboard.PorTexto(c.citaId)
      else if c.oid != "" then AdminDashboard.PorTexto(c.oid) else AdminDashboard.PorIndice(idx),
      if c.citaId != "" then Some(c.citaId) else None,
      if c.nombreCliente != "" then c.nombreCliente else if c.cliente != "" then c.cliente else "Cliente sin nombre",
      if c.servicio != "" then c.servicio else "Servicio",
      fechaStr, AdminDashboard.ParseFechaYYYYMMDD(fechaStr),
      if c.hora != "" then c.hora else "Hora no definida",
      if c.barbero != "" then c.barbero else "Sin asignar",
      EstadoUI(c.estado))
  }

  /** `citas.map((cita, idx) => …)`: one row per record, in order. */
  function Filas(cs: seq<CitaAdmin>): (r: seq<Fila>)
    ensures |r| == |cs| && forall i | 0 <= i < |cs| :: r[i] == NormalizarFila(cs[i], i)
  {
    seq(|cs|, i requires 0 <= i < |cs| => NormalizarFila(cs[i], i))
  }

  /** The state filter: `"todas"` keeps everything, any other choice is compared exactly with the label. */
  function PorEstado(filtro: string): Fila -> bool {
    (f: Fila) => filtro == "todas" || f.estado == filtro
  }

  /**
   * The range filter: `"todas"` keeps everything; otherwise an undated row is dropped and a dated
   * one is kept when it is today, within the week from today, in this month, or, for any other
   * choice, always.
   */
  function PorRango(rango: string, esHoy: FechaHora -> bool, enSemana: FechaHora -> bool,
                    enMes: FechaHora -> bool): Fila -> bool {
    (f: Fila) =>
      rango == "todas"
      || (f.fechaDate.Some?
          && if rango == "hoy" then esHoy(f.fechaDate.value)
             else if rango == "semana" then enSemana(f.fechaDate.value)
             else if rango == "mes" then enMes(f.fechaDate.value)
             else true)
  }

  /**
   * The search: a blank query keeps everything; otherwise the lower-cased query, not trimmed, must
   * occur in the lower-cased client or service.
   */
  function PorBusqueda(busqueda: string): Fila -> bool {
    (f: Fila) =>
      EsBlanco(busqueda)
      || Incluye(Minusculas(f.cliente), Minusculas(busqueda))
      || Incluye(Minusculas(f.servicio), Minusculas(busqueda))
  }

  /** `citasFiltradas`: the rows, then the state, range and search filters each when active. */
  function CitasFiltradas(cs: seq<CitaAdmin>, estado: string, rango: string, busqueda: string,
                          esHoy: FechaHora -> bool, enSemana: FechaHora -> bool, enMes: FechaHora -> bool): seq<Fila> {
    var resultado := Filas(cs);
    var resultado := if estado != "todas" then Filtrar(resultado, PorEstado(estado)) else resultado;
    var resultado := if rango != "todas" then Filtrar(resultado, PorRango(rango, esHoy, enSemana, enMes)) else resultado;
    if !EsBlanco(busqueda) then Filtrar(resultado, PorBusqueda(busqueda)) else resultado
  }

  /**
   * The list shown is a subsequence of the rows, and a row is shown exactly when it passes the
   * three filters.
   */
  lemma FiltradasSonLasQuePasan(cs: seq<CitaAdmin>, estado: string, rango: string, busqueda: string,
                                esHoy: FechaHora -> bool, enSemana: FechaHora -> bool, enMes: FechaHora -> bool)
    ensures var r := CitasFiltradas(cs, estado, rango, busqueda, esHoy, enSemana, enMes);
            EsSubsecuencia(r, Filas(cs))
            && forall f :: f in r <==>
                 f in Filas(cs) && PorEstado(estado)(f) && PorRango(rango, esHoy, enSemana, enMes)(f)
                 && PorBusqueda(busqueda)(f)
  {
    var filas := Filas(cs);
    var r1 := if estado != "todas" then Filtrar(filas, PorEstado(estado)) else filas;
    var r2 := if rango != "todas" then Filtrar(r1, PorRango(rango, esHoy, enSemana, enMes)) else r1;
    var r3 := if !EsBlanco(busqueda) then Filtrar(r2, PorBusqueda(busqueda)) else r2;
    assert r3 == CitasFiltradas(cs, estado, rango, busqueda, esHoy, enSemana, enMes);
    SubsecuenciaReflexiva(filas);
    SubsecuenciaReflexiva(r1);
    SubsecuenciaReflexiva(r2);
    SubsecuenciaTransitiva(r2, r1, filas);
    SubsecuenciaTransitiva(r3, r2, filas);
    FiltrarMiembros(filas, PorEstado(estado));
    FiltrarMiembros(r1, PorRango(rango, esHoy, enSemana, enMes));
    FiltrarMiembros(r2, PorBusqueda(busqueda));
  }

  /** The search ignores case: the upper-cased query keeps exactly the same rows. */
  lemma BusquedaIgnoraMayusculas(busqueda: string, f: Fila)
    ensures PorBusqueda(Mayusculas(busqueda))(f) == PorBusqueda(busqueda)(f)
  {
    BlancoSinMayusculas(busqueda);
    MinusculasDeMayusculas(busqueda);
  }

  /** `{ ...c, ...cambios }`: the fields present in `ch` overwrite the record's. */
  function AplicarCambio(c: CitaAdmin, ch: Cambio): (r: CitaAdmin)
    ensures r.citaId == c.citaId && r.oid == c.oid && r.nombreCliente == c.nombreCliente && r.cliente == c.cliente
    ensures r.barbero == c.barbero && r.fechaCorta == c.fechaCorta
    ensures r.fecha == ch.fecha.GetOr(c.fecha) && r.hora == ch.hora.GetOr(c.hora)
    ensures r.servicio == ch.servicio.GetOr(c.servicio) && r.estado == ch.estado.GetOr(c.estado)
  {
    c.(fecha := ch.fecha.GetOr(c.fecha), hora := ch.hora.GetOr(c.hora), servicio := ch.servicio.GetOr(c.servicio),
       estado := ch.estado.GetOr(c.estado))
  }

  /** `actualizarCitaRaw(citaId, cambios)`: the changes merged into the records with that id only. */
  function ActualizarCitaRaw(cs: seq<CitaAdmin>, citaId: string, ch: Cambio): (r: seq<CitaAdmin>)
    ensures |r| == |cs|
    ensures forall i | 0 <= i < |cs| :: r[i].citaId == cs[i].citaId
    ensures forall i | 0 <= i < |cs| && cs[i].citaId != citaId :: r[i] == cs[i]
    ensures forall i | 0 <= i < |cs| && cs[i].citaId == citaId :: r[i] == AplicarCambio(cs[i], ch)
  {
    seq(|cs|, i requires 0 <= i < |cs| => if cs[i].citaId == citaId then AplicarCambio(cs[i], ch) else cs[i])
  }

  /** Applying the same changes twice is applying them once. */
  lemma ActualizarIdempotente(cs: seq<CitaAdmin>, citaId: string, ch: Cambio)
    ensures ActualizarCitaRaw(ActualizarCitaRaw(cs, citaId, ch), citaId, ch) == ActualizarCitaRaw(cs, citaId, ch)
  {
  }

  /** `eliminarCitaRaw(citaId)`: the records with another id, in order. */
  function EliminarCitaRaw(cs: seq<CitaAdmin>, citaId: string): (r: seq<CitaAdmin>)
    ensures forall c | c in r :: c.citaId != citaId
    ensures forall c | c in cs && c.citaId != citaId :: c in r
    ensures EsSubsecuencia(r, cs)
    ensures |r| == |cs| - Contar(cs, (c: CitaAdmin) => c.citaId == citaId)
  {
    var r := Filtrar(cs, (c: CitaAdmin) => c.citaId != citaId);
    ContarNegacion(cs, (c: CitaAdmin) => c.citaId == citaId, (c: CitaAdmin) => c.citaId != citaId);
    ContarEsFiltrar(cs, (c: CitaAdmin) => c.citaId != citaId);
    r
  }

  /** After a local state change, the rows of that id show the state's label; the others are as before. */
  lemma EstadoMostrado(cs: seq<CitaAdmin>, citaId: string, estado: string, i: nat)
    requires i < |cs|
    ensures var r := ActualizarCitaRaw(cs, citaId, Citas.CambioEstado(estado));
            (cs[i].citaId == citaId ==> NormalizarFila(r[i], i).estado == EstadoUI(estado))
            && (cs[i].citaId != citaId ==> NormalizarFila(r[i], i) == NormalizarFila(cs[i], i))
  {
  }

  /** A finalised appointment is shown as "Finalizada", a cancelled one as "Cancelada". */
  lemma FinalizadaYCanceladaSeMuestran(cs: seq<CitaAdmin>, citaId: string, i: nat)
    requires i < |cs| && cs[i].citaId == citaId
    ensures NormalizarFila(ActualizarCitaRaw(cs, citaId, Citas.CambioEstado(Citas.FINALIZADA))[i], i).estado == "Finalizada"
    ensures NormalizarFila(ActualizarCitaRaw(cs, citaId, Citas.CambioEstado(Citas.CANCELADA))[i], i).estado == "Cancelada"
  {
    EstadoMostrado(cs, citaId, Citas.FINALIZADA, i);
    EstadoMostrado(cs, citaId, Citas.CANCELADA, i);
  }

  /** Why the modal stopped, or what it announced. */
  datatype Aviso = SinIdentificador | HoraNo24 | SinCambios | ErrorAccion | Actualizada | Finalizada | Cancelada | Eliminada

  /** The keys of a modification's JSON body: `servicioNombre`, `fecha` and `hora`. */
  datatype Clave = ServicioNombre | Fecha | Hora

  /** The request body of a modification: the keys it carries, each with a non-blank, trimmed text. */
  ghost predicate CuerpoBien(cuerpo: map<Clave, string>) {
    cuerpo.Keys != {}
    && (forall k | k in cuerpo :: cuerpo[k] != "")
    && (Hora in cuerpo ==> CoincideHora24(cuerpo[Hora]))
  }

  /**
   * The `cuerpo` of a modification, built field by field: each non-blank form field, trimmed,
   * under its key; a non-blank hour that is not `HH:MM` in 24 hours stops it, and so does an empty
   * body.
   */
  method ArmarCuerpo(formServicio: string, formFecha: string, formHora: string)
    returns (r: Result<map<Clave, string>, Aviso>)
    ensures r == Failure(HoraNo24) <==> !EsBlanco(formHora) && !EsHora24(formHora)
    ensures r.Failure? ==> r.error == HoraNo24 || r.error == SinCambios
    ensures r == Failure(SinCambios) <==> EsBlanco(formServicio) && EsBlanco(formFecha) && EsBlanco(formHora)
    ensures r.Success? ==> CuerpoBien(r.value)
    ensures r.Success? ==> (ServicioNombre in r.value <==> !EsBlanco(formServicio))
                           && (Fecha in r.value <==> !EsBlanco(formFecha))
                           && (Hora in r.value <==> !EsBlanco(formHora))
    ensures r.Success? && ServicioNombre in r.value ==> r.value[ServicioNombre] == Trim(formServicio)
    ensures r.Success? && Fecha in r.value ==> r.value[Fecha] == Trim(formFecha)
    ensures r.Success? && Hora in r.value ==> r.value[Hora] == Trim(formHora)
  {
    var servicio, fecha, horaLimpia := Trim(formServicio), Trim(formFecha), Trim(formHora);
    r := CuerpoDeLimpios(servicio, fecha, horaLimpia);
  }

  /** The same steps, on the three texts once trimmed. */
  method CuerpoDeLimpios(servicio: string, fecha: string, horaLimpia: string)
    returns (r: Result<map<Clave, string>, Aviso>)
    ensures r == Failure(HoraNo24) <==> horaLimpia != "" && !CoincideHora24(horaLimpia)
    ensures r == Failure(SinCambios) <==> servicio == "" && fecha == "" && horaLimpia == ""
    ensures r.Failure? ==> r.error == HoraNo24 || r.error == SinCambios
    ensures r.Success? ==> CuerpoBien(r.value)
    ensures r.Success? ==> r.value.Keys == (if servicio != "" then {ServicioNombre} else {})
                                          + (if fecha != "" then {Fecha} else {})
                                          + (if horaLimpia != "" then {Hora} else {})
    ensures r.Success? && ServicioNombre in r.value ==> r.value[ServicioNombre] == servicio
    ensures r.Success? && Fecha in r.value ==> r.value[Fecha] == fecha
    ensures r.Success? && Hora in r.value ==> r.value[Hora] == horaLimpia
  {
    var cuerpo: map<Clave, string> := map[];
    cuerpo := ConCampo(cuerpo, ServicioNombre, servicio);
    cuerpo := ConCampo(cuerpo, Fecha, fecha);
    if horaLimpia != "" && !CoincideHora24(horaLimpia) {
      return Failure(HoraNo24);
    }
    cuerpo := ConCampo(cuerpo, Hora, horaLimpia);
    TresCampos(servicio, fecha, horaLimpia);
    if cuerpo == map[] {
      return Failure(SinCambios);
    }
    return Success(cuerpo);
  }

  /** The body the three fields build: one key per non-empty field, holding that field. */
  lemma TresCampos(servicio: string, fecha: string, hora: string)
    ensures var c := ConCampo(ConCampo(ConCampo(map[], ServicioNombre, servicio), Fecha, fecha), Hora, hora);
            c.Keys == (if servicio != "" then {ServicioNombre} else {})
                      + (if fecha != "" then {Fecha} else {})
                      + (if hora != "" then {Hora} else {})
            && (ServicioNombre in c ==> c[ServicioNombre] == servicio)
            && (Fecha in c ==> c[Fecha] == fecha)
            && (Hora in c ==> c[Hora] == hora)
            && (forall k | k in c :: c[k] != "")
            && (c == map[] <==> servicio == "" && fecha == "" && hora == "")
  {
    var c1 := ConCampo(map[], ServicioNombre, servicio);
    var c2 := ConCampo(c1, Fecha, fecha);
    var c := ConCampo(c2, Hora, hora);
    if servicio != "" {
      assert ServicioNombre in c;
    } else if fecha != "" {
      assert Fecha in c;
    } else if hora != "" {
      assert Hora in c;
    } else {
      assert c.Keys == {};
    }
  }

  /** `if (v !== "") cuerpo[k] = v`, for a value already trimmed. */
  function ConCampo(cuerpo: map<Clave, string>, k: Clave, v: string): (r: map<Clave, string>)
    ensures r.Keys == if v != "" then cuerpo.Keys + {k} else cuerpo.Keys
    ensures forall j | j in r :: r[j] == if j == k && v != "" then v else cuerpo[j]
  {
    if v != "" then cuerpo[k := v] else cuerpo
  }

  /** The text under `k`, `""` when the body has none (a missing field of the request). */
  function Campo(cuerpo: map<Clave, string>, k: Clave): string {
    if k in cuerpo then cuerpo[k] else ""
  }

  /** `cambiosRaw`: the truthy fields of the body, `servicioNombre` under `servicio`. */
  function CambiosRaw(cuerpo: map<Clave, string>): (ch: Cambio)
    ensures ch.estado.None?
    ensures ch.fecha.Some? <==> Campo(cuerpo, Fecha) != ""
    ensures ch.fecha.Some? ==> ch.fecha.value == cuerpo[Fecha]
    ensures ch.hora.Some? <==> Campo(cuerpo, Hora) != ""
    ensures ch.hora.Some? ==> ch.hora.value == cuerpo[Hora]
    ensures ch.servicio.Some? <==> Campo(cuerpo, ServicioNombre) != ""
    ensures ch.servicio.Some? ==> ch.servicio.value == cuerpo[ServicioNombre]
  {
    Cambio(NuloSiVacio(Campo(cuerpo, Fecha)), NuloSiVacio(Campo(cuerpo, Hora)),
           NuloSiVacio(Campo(cuerpo, ServicioNombre)), None)
  }

  /**
   * The changes the page merges into its copy after a modification are the ones `actualizarCita`
   * writes for the same body.
   */
  lemma LocalComoServidor(cuerpo: map<Clave, string>)
    ensures CambiosRaw(cuerpo) == Citas.CambioDe(Campo(cuerpo, Fecha), Campo(cuerpo, Hora), Campo(cuerpo, ServicioNombre))
  {
  }

  /** Merging a change into the listing's view of a record is the view of the changed record. */
  lemma VistaTrasCambio(c: Cita, oid: string, ch: Cambio)
    ensures AplicarCambio(Vista(c, oid), ch) == Vista(CambiarCita(c, ch), oid)
  {
  }

  /** The action of the modal. */
  datatype Accion = Modificar | Finalizar | Cancelar | Eliminar | NoAccion

  /** The request the modal sends. */
  datatype Peticion =
    | PutCita(citaId: string, cuerpo: map<Clave, string>)
    | PutFinalizar(citaId: string)
    | PutCancelar(citaId: string)
    | DeleteCita(citaId: string)

  /**
   * `confirmarAccionModal`. `ok` is whether the server answered OK. Without a real `citaId`
   * nothing is sent; a modification whose body is refused sends nothing; otherwise exactly one
   * request is sent, and only when it succeeded is the local list updated and the modal closed.
   */
  method ConfirmarAccion(seleccion: Option<Fila>, accion: Accion, formServicio: string, formFecha: string,
                         formHora: string, ok: bool, citas: seq<CitaAdmin>)
    returns (peticion: Option<Peticion>, aviso: Option<Aviso>, citas': seq<CitaAdmin>, cerrar: bool)
    ensures seleccion.None? || seleccion.value.citaIdReal.None? ==>
              peticion.None? && aviso == Some(SinIdentificador) && citas' == citas && !cerrar
    ensures peticion.Some? ==> seleccion.Some? && seleccion.value.citaIdReal.Some?
                               && peticion.value.citaId == seleccion.value.citaIdReal.value
    ensures peticion.Some? && !ok ==> aviso == Some(ErrorAccion) && citas' == citas && !cerrar
    ensures peticion.None? ==> citas' == citas
    ensures peticion.Some? && peticion.value.PutCita? ==> accion == Modificar && CuerpoBien(peticion.value.cuerpo)
    ensures peticion.Some? && ok ==>
              var id := peticion.value.citaId;
              cerrar
              && match peticion.value
                 case PutCita(_, cuerpo) => citas' == ActualizarCitaRaw(citas, id, CambiosRaw(cuerpo)) && aviso == Some(Actualizada)
                 case PutFinalizar(_) =>
                   citas' == ActualizarCitaRaw(citas, id, Citas.CambioEstado(Citas.FINALIZADA)) && aviso == Some(Finalizada)
                 case PutCancelar(_) =>
                   citas' == ActualizarCitaRaw(citas, id, Citas.CambioEstado(Citas.CANCELADA)) && aviso == Some(Cancelada)
                 case DeleteCita(_) => citas' == EliminarCitaRaw(citas, id) && aviso == Some(Eliminada)
    ensures seleccion.Some? && seleccion.value.citaIdReal.Some? ==>
              match accion
              case Modificar => peticion.None? ==> aviso.Some? && (aviso.value == HoraNo24 || aviso.value == SinCambios) && !cerrar
              case Finalizar => peticion == Some(PutFinalizar(seleccion.value.citaIdReal.value))
              case Cancelar => peticion == Some(PutCancelar(seleccion.value.citaIdReal.value))
              case Eliminar => peticion == Some(DeleteCita(seleccion.value.citaIdReal.value))
              case NoAccion => peticion.None? && aviso.None? && cerrar
  {
    if seleccion.None? || seleccion.value.citaIdReal.None? {
      return None, Some(SinIdentificador), citas, false;
    }
    var citaId := seleccion.value.citaIdReal.value;
    citas' := citas;
    aviso := None;
    match accion {
      case Modificar =>
        var cuerpo := ArmarCuerpo(formServicio, formFecha, formHora);
        if cuerpo.Failure? {
          return None, Some(cuerpo.error), citas, false;
        }
        peticion := Some(PutCita(citaId, cuerpo.value));
        if !ok {
          return peticion, Some(ErrorAccion), citas, false;
        }
        citas' := ActualizarCitaRaw(citas, citaId, CambiosRaw(cuerpo.value));
        aviso := Some(Actualizada);
      case Finalizar =>
        peticion := Some(PutFinalizar(citaId));
        if !ok {
          return peticion, Some(ErrorAccion), citas, false;
        }
        citas' := ActualizarCitaRaw(citas, citaId, Citas.CambioEstado(Citas.FINALIZADA));
        aviso := Some(Finalizada);
      case Cancelar =>
        peticion := Some(PutCancelar(citaId));
        if !ok {
          return peticion, Some(ErrorAccion), citas, false;
        }
        citas' := ActualizarCitaRaw(citas, citaId, Citas.CambioEstado(Citas.CANCELADA));
        aviso := Some(Cancelada);
      case Eliminar =>
        peticion := Some(DeleteCita(citaId));
        if !ok {
          return peticion, Some(ErrorAccion), citas, false;
        }
        citas' := EliminarCitaRaw(citas, citaId);
        aviso := Some(Eliminada);
      case NoAccion =>
        peticion := None;
    }
    cerrar := true;
  }

  /**
   * The body the modal sends makes `actualizarCita` write at least one field and only non-empty
   * ones, with an hour that passes the 24-hour check.
   */
  lemma CuerpoEnElServidor(cuerpo: map<Clave, string>)
    requires CuerpoBien(cuerpo)
    ensures var ch := Citas.CambioDe(Campo(cuerpo, Fecha), Campo(cuerpo, Hora), Campo(cuerpo, ServicioNombre));
            ch.estado.None?
            && (ch.fecha.Some? || ch.hora.Some? || ch.servicio.Some?)
            && (ch.fecha.Some? <==> Fecha in cuerpo) && (ch.hora.Some? <==> Hora in cuerpo)
            && (ch.servicio.Some? <==> ServicioNombre in cuerpo)
            && (ch.hora.Some? ==> EsHora24(ch.hora.value))
  {
    var k :| k in cuerpo;
    match k {
      case Fecha => assert NuloSiVacio(Campo(cuerpo, Fecha)).Some?;
      case Hora => assert NuloSiVacio(Campo(cuerpo, Hora)).Some?;
      case ServicioNombre => assert NuloSiVacio(Campo(cuerpo, ServicioNombre)).Some?;
    }
    if Hora in cuerpo {
      TrimSinBordes(cuerpo[Hora]);
    }
  }
}
