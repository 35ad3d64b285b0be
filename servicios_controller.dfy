/**
 * The service catalogue of `serviciosController.js`: listing, creation with field coercion,
 * partial update, the publish switch and deletion.
 *
 * `idValido` is whether `new ObjectId(id)` accepts the id; when it does not, the constructor
 * throws and the handler answers 500.
 */
module Servicios {
  import opened Wrappers
  import opened Listas
  import opened Texto
  import opened Almacen

  /** A value of the JSON body, as far as `Number(x)` distinguishes it. */
  datatype ValorJson = Indefinido | Nulo | Booleano(b: bool) | Numero(x: real) | Cadena(s: string)

  /**
   * `Number(v)`, with `None` for NaN. `aNumero` is the string-to-number conversion, which parses
   * a decimal literal after trimming; `""` and white space give 0.
   */
  function NumeroJs(v: ValorJson, aNumero: string -> Option<real>): (r: Option<real>)
    ensures v.Indefinido? ==> r.None?
    ensures v.Nulo? ==> r == Some(0.0)
    ensures v.Booleano? ==> r == Some(if v.b then 1.0 else 0.0)
    ensures v.Numero? ==> r == Some(v.x)
    ensures v.Cadena? && EsBlanco(v.s) ==> r == Some(0.0)
  {
    match v
    case Indefinido => None
    case Nulo => Some(0.0)
    case Booleano(b) => Some(if b then 1.0 else 0.0)
    case Numero(x) => Some(x)
    case Cadena(s) => if EsBlanco(s) then Some(0.0) else aNumero(Trim(s))
  }

  /** `Number(v) || 0`: NaN becomes 0, every number stays itself. */
  function NumeroOCero(v: ValorJson, aNumero: string -> Option<real>): (r: real)
    ensures NumeroJs(v, aNumero).None? ==> r == 0.0
    ensures NumeroJs(v, aNumero).Some? ==> r == NumeroJs(v, aNumero).value
  {
    NumeroJs(v, aNumero).GetOr(0.0)
  }

  /** The body of `POST /api/servicios`; `None` is an absent string field. */
  datatype PedidoServicio = PedidoServicio(
    nombre: Option<string>, descripcion: Option<string>, duracionMin: ValorJson, precio: ValorJson,
    publicado: ValorJson)

  /** A truthy string field. */
  predicate Presente(v: Option<string>) {
    v.Some? && v.value != ""
  }

  /** The document `crearServicio` inserts. */
  function ServicioNuevo(p: PedidoServicio, aNumero: string -> Option<real>, oid: string, ahora: int): (s: Servicio)
    requires Presente(p.nombre)
    ensures s.nombre == Trim(p.nombre.value)
    ensures s.descripcion == if Presente(p.descripcion) then Trim(p.descripcion.value) else ""
    ensures s.duracionMin == NumeroOCero(p.duracionMin, aNumero) && s.precio == NumeroOCero(p.precio, aNumero)
    ensures s.publicado <==> p.publicado != Booleano(false)
    ensures s.creadoEn == ahora && s.actualizadoEn == ahora && s.oid == oid
  {
    Servicio(oid, Trim(p.nombre.value), if Presente(p.descripcion) then Trim(p.descripcion.value) else "",
             NumeroOCero(p.duracionMin, aNumero), NumeroOCero(p.precio, aNumero),
             p.publicado != Booleano(false), ahora, ahora)
  }

  function ClaveCreacionDescendente(s: Servicio): int {
    -s.creadoEn
  }

  /** `GET /api/servicios` (listarServicios): every service, newest first. */
  function ListarServicios(ss: seq<Servicio>): (r: seq<Servicio>)
    ensures multiset(r) == multiset(ss)
    ensures forall i, j | 0 <= i < j < |r| :: r[i].creadoEn >= r[j].creadoEn
  {
    var r := Ordenar(ss, ClaveCreacionDescendente);
    assert forall i, j | 0 <= i < j < |r| :: ClaveCreacionDescendente(r[i]) <= ClaveCreacionDescendente(r[j]);
    r
  }

  /** `POST /api/servicios` (crearServicio). */
  method CrearServicio(db: Db, p: PedidoServicio, aNumero: string -> Option<real>, oid: string, ahora: int)
    returns (status: int)
    modifies db`servicios
    ensures !Presente(p.nombre) ==> status == 400 && unchanged(db)
    ensures Presente(p.nombre) ==> status == 201 && db.servicios == old(db.servicios) + [ServicioNuevo(p, aNumero, oid, ahora)]
  {
    if !Presente(p.nombre) {
      return 400;
    }
    db.servicios := db.servicios + [ServicioNuevo(p, aNumero, oid, ahora)];
    return 201;
  }

  /** A service just created is listed. */
  lemma CreadoSeLista(ss: seq<Servicio>, p: PedidoServicio, aNumero: string -> Option<real>, oid: string, ahora: int)
    requires Presente(p.nombre)
    ensures ServicioNuevo(p, aNumero, oid, ahora) in ListarServicios(ss + [ServicioNuevo(p, aNumero, oid, ahora)])
  {
    var n := ServicioNuevo(p, aNumero, oid, ahora);
    assert n in multiset(ss + [n]);
  }

  /** The body of `PUT /api/servicios/:id`; `None` and `Indefinido` are fields the body does not carry. */
  datatype CambioServicio = CambioServicio(
    nombre: Option<string>, descripcion: Option<string>, duracionMin: ValorJson, precio: ValorJson)

  /** The `$set` of `actualizarServicio`: the fields present, plus `actualizadoEn`. */
  function AplicarCambio(s: Servicio, ch: CambioServicio, aNumero: string -> Option<real>, ahora: int): (s': Servicio)
    ensures s'.nombre == if ch.nombre.Some? then Trim(ch.nombre.value) else s.nombre
    ensures s'.descripcion == if ch.descripcion.Some? then Trim(ch.descripcion.value) else s.descripcion
    ensures s'.duracionMin == if ch.duracionMin.Indefinido? then s.duracionMin else NumeroOCero(ch.duracionMin, aNumero)
    ensures s'.precio == if ch.precio.Indefinido? then s.precio else NumeroOCero(ch.precio, aNumero)
    ensures s'.oid == s.oid && s'.publicado == s.publicado && s'.creadoEn == s.creadoEn && s'.actualizadoEn == ahora
  {
    s.(nombre := if ch.nombre.Some? then Trim(ch.nombre.value) else s.nombre,
       descripcion := if ch.descripcion.Some? then Trim(ch.descripcion.value) else s.descripcion,
       duracionMin := if ch.duracionMin.Indefinido? then s.duracionMin else NumeroOCero(ch.duracionMin, aNumero),
       precio := if ch.precio.Indefinido? then s.precio else NumeroOCero(ch.precio, aNumero),
       actualizadoEn := ahora)
  }

  /** An update with no field only touches the time stamp. */
  lemma CambioVacio(s: Servicio, aNumero: string -> Option<real>, ahora: int)
    ensures AplicarCambio(s, CambioServicio(None, None, Indefinido, Indefinido), aNumero, ahora) == s.(actualizadoEn := ahora)
  {
  }

  function OidDe(s: Servicio): string {
    s.oid
  }

  /** `PUT /api/servicios/:id` (actualizarServicio). */
  method ActualizarServicio(db: Db, id: string, idValido: bool, ch: CambioServicio, aNumero: string -> Option<real>,
                            ahora: int) returns (status: int)
    modifies db`servicios
    ensures !idValido ==> status == 500 && unchanged(db)
    ensures idValido && PrimeroCon(old(db.servicios), OidDe, id).None? ==> status == 404 && unchanged(db)
    ensures idValido && PrimeroCon(old(db.servicios), OidDe, id).Some? ==>
              var i := PrimeroCon(old(db.servicios), OidDe, id).value;
              status == 200 && db.servicios == old(db.servicios)[i := AplicarCambio(old(db.servicios)[i], ch, aNumero, ahora)]
  {
    if !idValido {
      return 500;
    }
    var encontrado := PrimeroCon(db.servicios, OidDe, id);
    if encontrado.None? {
      return 404;
    }
    var i := encontrado.value;
    db.servicios := db.servicios[i := AplicarCambio(db.servicios[i], ch, aNumero, ahora)];
    return 200;
  }

  /** The `$set` of `togglePublicado`. */
  function Alternar(s: Servicio, ahora: int): (s': Servicio)
    ensures s'.publicado == !s.publicado && s'.actualizadoEn == ahora
    ensures s'.(publicado := s.publicado, actualizadoEn := s.actualizadoEn) == s
  {
    s.(publicado := !s.publicado, actualizadoEn := ahora)
  }

  /** `PATCH /api/servicios/:id/publicado` (togglePublicado); the response carries the new value. */
  method TogglePublicado(db: Db, id: string, idValido: bool, ahora: int) returns (status: int, publicado: bool)
    modifies db`servicios
    ensures !idValido ==> status == 500 && unchanged(db)
    ensures idValido && PrimeroCon(old(db.servicios), OidDe, id).None? ==> status == 404 && unchanged(db)
    ensures idValido && PrimeroCon(old(db.servicios), OidDe, id).Some? ==>
              var i := PrimeroCon(old(db.servicios), OidDe, id).value;
              status == 200 && publicado == !old(db.servicios)[i].publicado
              && db.servicios == old(db.servicios)[i := Alternar(old(db.servicios)[i], ahora)]
  {
    publicado := false;
    if !idValido {
      return 500, publicado;
    }
    var encontrado := PrimeroCon(db.servicios, OidDe, id);
    if encontrado.None? {
      return 404, publicado;
    }
    var i := encontrado.value;
    publicado := !db.servicios[i].publicado;
    db.servicios := db.servicios[i := Alternar(db.servicios[i], ahora)];
    status := 200;
  }

  /** Switching twice restores the catalogue except for the last time stamp. */
  lemma AlternarDosVeces(ss: seq<Servicio>, id: string, t1: int, t2: int)
    requires PrimeroCon(ss, OidDe, id).Some?
    ensures var i := PrimeroCon(ss, OidDe, id).value;
            var ss1 := ss[i := Alternar(ss[i], t1)];
            PrimeroCon(ss1, OidDe, id) == Some(i)
            && ss1[i := Alternar(ss1[i], t2)] == ss[i := ss[i].(actualizadoEn := t2)]
  {
    var i := PrimeroCon(ss, OidDe, id).value;
    var ss1 := ss[i := Alternar(ss[i], t1)];
    PrimeroConEs(ss1, OidDe, id, i);
  }

  /** `DELETE /api/servicios/:id` (eliminarServicio): `deleteOne` removes the first match. */
  method EliminarServicio(db: Db, id: string, idValido: bool) returns (status: int)
    modifies db`servicios
    ensures !idValido ==> status == 500 && unchanged(db)
    ensures idValido && PrimeroCon(old(db.servicios), OidDe, id).None? ==> status == 404 && unchanged(db)
    ensures idValido && PrimeroCon(old(db.servicios), OidDe, id).Some? ==>
              var i := PrimeroCon(old(db.servicios), OidDe, id).value;
              status == 200 && db.servicios == old(db.servicios)[..i] + old(db.servicios)[i + 1..]
  {
    if !idValido {
      return 500;
    }
    var encontrado := PrimeroCon(db.servicios, OidDe, id);
    if encontrado.None? {
      return 404;
    }
    var i := encontrado.value;
    db.servicios := db.servicios[..i] + db.servicios[i + 1..];
    return 200;
  }

  /** Each deletion removes exactly one service, so with unique ids a second one answers 404. */
  lemma EliminarUnaVez(ss: seq<Servicio>, id: string)
    requires PrimeroCon(ss, OidDe, id).Some?
    requires forall i, j | 0 <= i < j < |ss| :: ss[i].oid != ss[j].oid
    ensures var i := PrimeroCon(ss, OidDe, id).value;
            var ss' := ss[..i] + ss[i + 1..];
            |ss'| == |ss| - 1 && multiset(ss') + multiset{ss[i]} == multiset(ss)
            && PrimeroCon(ss', OidDe, id).None?
  {
    var i := PrimeroCon(ss, OidDe, id).value;
    var ss' := ss[..i] + ss[i + 1..];
    assert ss == ss[..i] + [ss[i]] + ss[i + 1..];
    forall j | 0 <= j < |ss'| ensures OidDe(ss'[j]) != id {
      if j < i {
        assert ss'[j] == ss[j];
      } else {
        assert ss'[j] == ss[j + 1];
      }
    }
  }
}
