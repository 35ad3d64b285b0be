/**
 * The admin's service catalogue `AdminServiciosPage.jsx`: the state filter and search over the
 * services the app hands in, the three counters of the summary, and the service the edit modal
 * builds. The services are the documents of `/api/servicios`; they have no `categoria`, so the
 * search over that field sees `""`.
 *
 * `parseFloat` is abstract: `aReal` gives the number it reads, `None` for NaN.
 */
module AdminServicios {
  import opened Wrappers
  import opened Listas
  import opened Texto
  import opened Almacen

  function EstaPublicado(s: Servicio): bool {
    s.publicado
  }

  function EstaOculto(s: Servicio): bool {
    !s.publicado
  }

  /** The state filter: "Publicado" keeps the published services, "No disponible" the others, anything else all. */
  function PorEstado(filtroEstado: string): Servicio -> bool {
    (s: Servicio) =>
      if filtroEstado == "Publicado" then s.publicado
      else if filtroEstado == "No disponible" then !s.publicado
      else true
  }

  /** The search: the lower-cased query, not trimmed, in the lower-cased name, description or category. */
  function PorBusqueda(busqueda: string): Servicio -> bool {
    (s: Servicio) =>
      EsBlanco(busqueda)
      || Incluye(Minusculas(s.nombre), Minusculas(busqueda))
      || Incluye(Minusculas(s.descripcion), Minusculas(busqueda))
      || Incluye("", Minusculas(busqueda))
  }

  /** `serviciosFiltrados`: a copy of the list, then the state filter and the search when active. */
  function ServiciosFiltrados(servicios: seq<Servicio>, busqueda: string, filtroEstado: string): seq<Servicio> {
    var resultado := servicios;
    var resultado := if filtroEstado == "Publicado" then Filtrar(resultado, EstaPublicado)
                     else if filtroEstado == "No disponible" then Filtrar(resultado, EstaOculto)
                     else resultado;
    if !EsBlanco(busqueda) then Filtrar(resultado, PorBusqueda(busqueda)) else resultado
  }

  /** The list shown is a subsequence of the catalogue, holding a service exactly when it passes both filters. */
  lemma FiltradosSonLosQuePasan(servicios: seq<Servicio>, busqueda: string, filtroEstado: string)
    ensures var r := ServiciosFiltrados(servicios, busqueda, filtroEstado);
            EsSubsecuencia(r, servicios)
            && forall s :: s in r <==> s in servicios && PorEstado(filtroEstado)(s) && PorBusqueda(busqueda)(s)
  {
    var r1 := if filtroEstado == "Publicado" then Filtrar(servicios, EstaPublicado)
              else if filtroEstado == "No disponible" then Filtrar(servicios, EstaOculto)
              else servicios;
    var r2 := if !EsBlanco(busqueda) then Filtrar(r1, PorBusqueda(busqueda)) else r1;
    assert r2 == ServiciosFiltrados(servicios, busqueda, filtroEstado);
    SubsecuenciaReflexiva(servicios);
    SubsecuenciaReflexiva(r1);
    SubsecuenciaTransitiva(r2, r1, servicios);
    FiltrarMiembros(servicios, EstaPublicado);
    FiltrarMiembros(servicios, EstaOculto);
    FiltrarMiembros(r1, PorBusqueda(busqueda));
  }

  /** The search ignores case: the upper-cased query keeps exactly the same services. */
  lemma BusquedaIgnoraMayusculas(busqueda: string, s: Servicio)
    ensures PorBusqueda(Mayusculas(busqueda))(s) == PorBusqueda(busqueda)(s)
  {
    BlancoSinMayusculas(busqueda);
    MinusculasDeMayusculas(busqueda);
  }

  /** The three counters of the summary: all services, the published ones, and the rest. */
  datatype Resumen = Resumen(totalServicios: nat, totalPublicados: nat, totalOcultos: int)

  function Contadores(servicios: seq<Servicio>): Resumen {
    var totalServicios := |servicios|;
    var totalPublicados := |Filtrar(servicios, EstaPublicado)|;
    Resumen(totalServicios, totalPublicados, totalServicios - totalPublicados)
  }

  /** The hidden services are exactly the unpublished ones, so the two counters add up to the total. */
  lemma ContadoresCuadran(servicios: seq<Servicio>)
    ensures var r := Contadores(servicios);
            r.totalOcultos == |Filtrar(servicios, EstaOculto)| && r.totalPublicados + r.totalOcultos == r.totalServicios
            && r.totalPublicados == |ServiciosFiltrados(servicios, "", "Publicado")|
            && r.totalOcultos == |ServiciosFiltrados(servicios, "", "No disponible")|
  {
    ContarNegacion(servicios, EstaPublicado, EstaOculto);
    ContarEsFiltrar(servicios, EstaPublicado);
    ContarEsFiltrar(servicios, EstaOculto);
    BlancoSiSoloEspacios("");
  }

  /**
   * `manejarGuardarEdicion`: nothing without a service being edited; otherwise the service with a
   * non-blank trimmed name replacing its own, the description trimmed, the duration read with
   * `parseInt` and the price with `parseFloat`, NaN and 0 both giving 0, and every other field kept.
   */
  function GuardarEdicion(servicioEditando: Option<Servicio>, editNombre: string, editDescripcion: string,
                          editDuracion: string, editPrecio: string, aReal: string -> Option<real>): (r: Option<Servicio>)
    ensures r.Some? <==> servicioEditando.Some?
    ensures r.Some? ==>
              var s := servicioEditando.value;
              r.value.nombre == (if EsBlanco(editNombre) then s.nombre else Trim(editNombre))
              && r.value.descripcion == Trim(editDescripcion)
              && r.value.duracionMin == (ParseInt(editDuracion).GetOr(0) as real)
              && r.value.precio == aReal(editPrecio).GetOr(0.0)
              && r.value.oid == s.oid && r.value.publicado == s.publicado
              && r.value.creadoEn == s.creadoEn && r.value.actualizadoEn == s.actualizadoEn
    ensures r.Some? && !EsBlanco(servicioEditando.value.nombre) ==> !EsBlanco(r.value.nombre)
  {
    match servicioEditando
    case None => None
    case Some(s) =>
      var duracionNumerica := ParseInt(editDuracion).GetOr(0);
      var precioNumerico := aReal(editPrecio).GetOr(0.0);
      Some(s.(nombre := if Trim(editNombre) != "" then Trim(editNombre) else s.nombre,
              descripcion := Trim(editDescripcion),
              duracionMin := duracionNumerica as real,
              precio := precioNumerico))
  }

  /** Saving the modal untouched keeps the service, once its texts were trimmed and its numbers whole. */
  lemma EdicionSinCambios(s: Servicio, duracion: nat, editPrecio: string, aReal: string -> Option<real>)
    requires s.nombre != "" && Trim(s.nombre) == s.nombre && Trim(s.descripcion) == s.descripcion
    requires s.duracionMin == duracion as real && aReal(editPrecio) == Some(s.precio)
    ensures GuardarEdicion(Some(s), s.nombre, s.descripcion, NatATexto(duracion), editPrecio, aReal) == Some(s)
  {
    ParseIntNatATexto(duracion, []);
    assert NatATexto(duracion) + [] == NatATexto(duracion);
  }
}
