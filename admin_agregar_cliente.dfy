/**
 * The admin's form to add a client, `AdminAgregarClientePage.jsx`: the check chain of
 * `manejarSubmit`, the body it sends to `POST /api/clientes`, and what it does with the answer.
 * The phone input keeps digits only, so what the chain sees as the phone is `SoloDigitos` of what
 * was typed.
 */
module AdminAgregarCliente {
  import opened Wrappers
  import opened Texto
  import opened Validacion
  import opened Peticiones
  import Clientes

  /** Why `manejarSubmit` stopped before sending. */
  datatype Fallo = FaltanCampos | CorreoNoValido | TelefonoNoValido

  /**
   * The check chain, each check returning on failure: the four fields present (untrimmed), then the
   * e-mail pattern, then the phone pattern; the body sent carries the four fields as typed.
   */
  function ValidarAlta(nombre: string, correo: string, telefono: string, contrasena: string): (r: Result<Clientes.Registro, Fallo>)
    ensures r == Failure(FaltanCampos) <==> nombre == "" || correo == "" || telefono == "" || contrasena == ""
    ensures r == Failure(CorreoNoValido) <==>
              nombre != "" && correo != "" && telefono != "" && contrasena != "" && !EsCorreoValido(correo)
    ensures r == Failure(TelefonoNoValido) <==>
              nombre != "" && telefono != "" && contrasena != "" && EsCorreoValido(correo) && !EsTelefonoValido(telefono)
    ensures r.Success? <==>
              nombre != "" && contrasena != "" && EsCorreoValido(correo) && EsTelefonoValido(telefono)
    ensures r.Success? ==> r.value == Clientes.Registro(nombre, correo, telefono, contrasena)
  {
    if nombre == "" || correo == "" || telefono == "" || contrasena == "" then Failure(FaltanCampos)
    else if !EsCorreoValido(correo) then Failure(CorreoNoValido)
    else if !EsTelefonoValido(telefono) then Failure(TelefonoNoValido)
    else Success(Clientes.Registro(nombre, correo, telefono, contrasena))
  }

  /**
   * What the form sends is a complete registration, so the backend never answers it with 400; its
   * e-mail is `a@b.c` and its phone 7 to 15 digits.
   */
  lemma AltaCompleta(nombre: string, correo: string, telefono: string, contrasena: string)
    requires ValidarAlta(nombre, correo, telefono, contrasena).Success?
    ensures var r := ValidarAlta(nombre, correo, telefono, contrasena).value;
            Clientes.RegistroCompleto(r) && CoincideCorreo(r.correo)
            && SoloDigitos(r.telefono) == r.telefono && 7 <= |r.telefono| <= 15
  {
    CorreoValidoSiCoincide(correo);
    TelefonoValidoSeConserva(telefono);
  }

  /** With the phone typed into the digit-only input, the phone check is a length check. */
  lemma TelefonoDelCampo(nombre: string, correo: string, tecleado: string, contrasena: string)
    ensures ValidarAlta(nombre, correo, SoloDigitos(tecleado), contrasena) == Failure(TelefonoNoValido) <==>
              nombre != "" && SoloDigitos(tecleado) != "" && contrasena != "" && EsCorreoValido(correo)
              && !(7 <= |SoloDigitos(tecleado)| <= 15)
  {
    TelefonoFiltradoValido(tecleado);
  }

  const ERROR_DUPLICADO := "Ya existe un cliente con ese teléfono o correo registrado."
  const ERROR_GENERICO := "No se pudo crear el cliente."
  const ERROR_CONEXION := "No se pudo conectar con el servidor."

  /** The answer's handling: 409 shows the duplicate message, any other non-OK status the generic one, OK leaves for the client list. */
  function TrasRespuesta(resp: Respuesta): (d: Desenlace)
    ensures resp.SinConexion? ==> d == MostrarError(ERROR_CONEXION)
    ensures resp.Respuesta? && resp.status == 409 ==> d == MostrarError(MensajeO(resp.mensaje, ERROR_DUPLICADO))
    ensures resp.Respuesta? && resp.status != 409 && !EsOk(resp.status) ==> d == MostrarError(MensajeO(resp.mensaje, ERROR_GENERICO))
    ensures d.Navegar? <==> resp.Respuesta? && EsOk(resp.status)
  {
    match resp
    case SinConexion => MostrarError(ERROR_CONEXION)
    case Respuesta(status, mensaje) =>
      if status == 409 then MostrarError(MensajeO(mensaje, ERROR_DUPLICADO))
      else if !EsOk(status) then MostrarError(MensajeO(mensaje, ERROR_GENERICO))
      else Navegar
  }

  /** The message `registrarCliente` sends with its 409. */
  const MENSAJE_409 := "Ya existe un cliente con ese correo o teléfono registrado."

  /**
   * Against the answers `registrarCliente` gives a complete registration: a new client (201) or a
   * completed account (200) takes the admin to the list, and an existing account with a password
   * (409) shows the server's own wording, not the page's fallback.
   */
  lemma RespuestasDelRegistro(mensaje: string)
    ensures TrasRespuesta(Respuesta(201, mensaje)) == Navegar && TrasRespuesta(Respuesta(200, mensaje)) == Navegar
    ensures TrasRespuesta(Respuesta(409, MENSAJE_409)) == MostrarError(MENSAJE_409)
    ensures TrasRespuesta(Respuesta(409, MENSAJE_409)) != MostrarError(ERROR_DUPLICADO)
  {
  }
}
