/**
 * What the admin forms see of a `fetch` to the backend: either an answer with its status and the
 * `mensaje` of its JSON body (`""` when the body has none or cannot be read), or a failure to
 * connect. What the form does next is an error text shown in the form or a move to another page.
 */
module Peticiones {
  datatype Respuesta = Respuesta(status: int, mensaje: string) | SinConexion

  datatype Desenlace = MostrarError(texto: string) | Navegar

  /** `resp.ok`. */
  predicate EsOk(status: int) {
    200 <= status <= 299
  }

  /** `data.mensaje || defecto`: the server's message when it sent a non-empty one. */
  function MensajeO(mensaje: string, defecto: string): (r: string)
    ensures mensaje != "" ==> r == mensaje
    ensures mensaje == "" ==> r == defecto
  {
    if mensaje != "" then mensaje else defecto
  }
}
