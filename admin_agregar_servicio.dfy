/**
 * The admin's form to add a service, `AdminAgregarServicioPage.jsx`: the check chain of
 * `manejarSubmit`, the payload it sends to `POST /api/servicios` and what it does with the answer.
 * `parseFloat` is abstract: `aReal` gives the number it reads, `None` for NaN.
 */
module AdminAgregarServicio {
  import opened Wrappers
  import opened Texto
  import opened Peticiones
  import opened Servicios

  datatype Fallo = FaltanCampos | DuracionNoValida | PrecioNoValido

  /**
   * The check chain, each check returning on failure: the four fields present (untrimmed), the
   * duration read with `parseInt` and above 0, the price read with `parseFloat` and not negative;
   * the payload carries the name and description as typed, the two numbers, and `publicado: true`.
   */
  function ValidarServicio(nombre: string, descripcion: string, duracion: string, precio: string,
                           aReal: string -> Option<real>): (r: Result<PedidoServicio, Fallo>)
    ensures r == Failure(FaltanCampos) <==> nombre == "" || descripcion == "" || duracion == "" || precio == ""
    ensures r == Failure(DuracionNoValida) <==>
              nombre != "" && descripcion != "" && duracion != "" && precio != ""
              && (ParseInt(duracion).None? || ParseInt(duracion).value <= 0)
    ensures r == Failure(PrecioNoValido) <==>
              nombre != "" && descripcion != "" && duracion != "" && precio != ""
              && ParseInt(duracion).Some? && ParseInt(duracion).value > 0
              && (aReal(precio).None? || aReal(precio).value < 0.0)
    ensures r.Success? <==>
              nombre != "" && descripcion != "" && duracion != "" && precio != ""
              && ParseInt(duracion).Some? && ParseInt(duracion).value > 0
              && aReal(precio).Some? && aReal(precio).value >= 0.0
    ensures r.Success? ==>
              r.value == PedidoServicio(Some(nombre), Some(descripcion), Numero(ParseInt(duracion).value as real),
                                        Numero(aReal(precio).value), Booleano(true))
  {
    if nombre == "" || descripcion == "" || duracion == "" || precio == "" then Failure(FaltanCampos)
    else
      var duracionMin := ParseInt(duracion);
      var precioNum := aReal(precio);
      if duracionMin.None? || duracionMin.value <= 0 then Failure(DuracionNoValida)
      else if precioNum.None? || precioNum.value < 0.0 then Failure(PrecioNoValido)
      else Success(PedidoServicio(Some(nombre), Some(descripcion), Numero(duracionMin.value as real),
                                  Numero(precioNum.value), Booleano(true)))
  }

  /**
   * What the form sends is accepted by `crearServicio` (its name is present), and the service stored
   * is published, has the trimmed name and description, a whole duration above 0 and the price read.
   */
  lemma PedidoCreaServicioPublicado(nombre: string, descripcion: string, duracion: string, precio: string,
                                    aReal: string -> Option<real>, aNumero: string -> Option<real>, oid: string, ahora: int)
    requires ValidarServicio(nombre, descripcion, duracion, precio, aReal).Success?
    ensures var p := ValidarServicio(nombre, descripcion, duracion, precio, aReal).value;
            Presente(p.nombre)
            && var s := ServicioNuevo(p, aNumero, oid, ahora);
               s.publicado && s.nombre == Trim(nombre) && s.descripcion == Trim(descripcion)
               && s.duracionMin == ParseInt(duracion).value as real && s.duracionMin > 0.0
               && s.precio == aReal(precio).value && s.precio >= 0.0
  {
  }

  const ERROR_SERVIDOR := "Error al crear servicio en el servidor."
  const ERROR_CONEXION := "Ocurrió un error al registrar el servicio (no se pudo conectar con el servidor)."

  /** The answer's handling: a non-OK status shows the server's message or the fallback, OK leaves for the services page. */
  function TrasRespuesta(resp: Respuesta): (d: Desenlace)
    ensures resp.SinConexion? ==> d == MostrarError(ERROR_CONEXION)
    ensures resp.Respuesta? && !EsOk(resp.status) ==> d == MostrarError(MensajeO(resp.mensaje, ERROR_SERVIDOR))
    ensures d.Navegar? <==> resp.Respuesta? && EsOk(resp.status)
  {
    match resp
    case SinConexion => MostrarError(ERROR_CONEXION)
    case Respuesta(status, mensaje) =>
      if !EsOk(status) then MostrarError(MensajeO(mensaje, ERROR_SERVIDOR)) else Navegar
  }

  /** The 201 of `crearServicio` takes the admin to the services page; its 400 shows the server's reason. */
  lemma RespuestasDeCreacion(mensaje: string)
    ensures TrasRespuesta(Respuesta(201, mensaje)) == Navegar
    ensures TrasRespuesta(Respuesta(400, "El nombre del servicio es obligatorio.")) ==
              MostrarError("El nombre del servicio es obligatorio.")
  {
  }
}
